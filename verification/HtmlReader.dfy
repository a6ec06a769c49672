/**
 * A reference reader for the HTML subset that Telegram accepts here: a tag-stack automaton that
 * rejects unbalanced or unknown tags and cut entities, and decodes what each element contains and
 * what stands between elements.
 */
module HtmlReader {
  datatype Mode = InText | InTag(name: string) | InEntity(name: string)

  /** An element and the text that follows it up to the next one. `Leading` is text before any element. */
  datatype Event = Bold(text: string, after: string) | Quote(text: string, after: string) | Leading(after: string)

  datatype Reader =
    | Reader(mode: Mode, stack: seq<string>, events: seq<Event>, buffer: string)
    | Rejected

  const START := Reader(InText, [], [], "")

  datatype Tag = B | Blockquote {
    function Name(): string {
      match this
      case B => "b"
      case Blockquote => "blockquote"
    }

    function Found(text: string): Event {
      match this
      case B => Bold(text, "")
      case Blockquote => Quote(text, "")
    }
  }

  /** The same elements with more text after them. */
  function Followed(events: seq<Event>, text: string): seq<Event> {
    if text == "" then events
    else if events == [] then [Leading(text)]
    else
      var last := events[|events| - 1];
      events[..|events| - 1] + [last.(after := last.after + text)]
  }

  /** Text goes into the open element, or after the elements read so far. */
  function Put(r: Reader, text: string): Reader
    requires r.Reader?
  {
    if r.stack == [] then r.(events := Followed(r.events, text)) else r.(buffer := r.buffer + text)
  }

  function Tagged(r: Reader, name: string): Reader
    requires r.Reader?
  {
    var inside := r.(mode := InText, buffer := "");
    if name == B.Name() || name == Blockquote.Name() then inside.(stack := r.stack + [name])
    else if r.stack == [] || name != "/" + r.stack[|r.stack| - 1] then Rejected
    else
      var found := if name == "/" + B.Name() then B.Found(r.buffer) else Blockquote.Found(r.buffer);
      inside.(stack := r.stack[..|r.stack| - 1], events := r.events + [found])
  }

  function Decoded(r: Reader, name: string): Reader
    requires r.Reader?
  {
    var text := r.(mode := InText);
    if name == "amp" then Put(text, "&")
    else if name == "lt" then Put(text, "<")
    else if name == "gt" then Put(text, ">")
    else if name == "quot" then Put(text, "\"")
    else if name == "#x27" then Put(text, "'")
    else Rejected
  }

  function Step(r: Reader, c: char): Reader {
    if r.Rejected? then r
    else match r.mode
      case InText =>
        if c == '<' then r.(mode := InTag(""))
        else if c == '&' then r.(mode := InEntity(""))
        else Put(r, [c])
      case InTag(name) =>
        if c == '>' then Tagged(r, name)
        else if c == '<' then Rejected
        else r.(mode := InTag(name + [c]))
      case InEntity(name) =>
        if c == ';' then Decoded(r, name)
        else if c == '<' || c == '&' then Rejected
        else r.(mode := InEntity(name + [c]))
  }

  function Read(r: Reader, s: string): Reader {
    if s == "" then r else Step(Read(r, s[..|s| - 1]), s[|s| - 1])
  }

  lemma {:induction false} ReadConcat(r: Reader, a: string, b: string)
    ensures Read(r, a + b) == Read(Read(r, a), b)
  {
    if b == "" {
      assert a + b == a;
    } else {
      assert (a + b)[..|a + b| - 1] == a + b[..|b| - 1];
      ReadConcat(r, a, b[..|b| - 1]);
    }
  }

  predicate InElementText(r: Reader) {
    r.Reader? && r.mode == InText
  }

  predicate NameChars(s: string) {
    '<' !in s && '>' !in s && '&' !in s && ';' !in s
  }

  lemma FollowedTwice(events: seq<Event>, a: string, b: string)
    ensures Followed(Followed(events, a), b) == Followed(events, a + b)
  {
    assert a == "" ==> a + b == b;
    assert b == "" ==> a + b == a;
    if events != [] {
      var last := events[|events| - 1];
      assert last.after + a + b == last.after + (a + b);
    }
  }

  lemma PutTwice(r: Reader, a: string, b: string)
    requires r.Reader?
    ensures Put(Put(r, a), b) == Put(r, a + b)
  {
    FollowedTwice(r.events, a, b);
    assert r.buffer + a + b == r.buffer + (a + b);
  }

  lemma PutNothing(r: Reader)
    requires r.Reader?
    ensures Put(r, "") == r
  {
    assert r.buffer + "" == r.buffer;
  }

  /** Text without markup is read literally. */
  lemma {:induction false} ReadLiteral(r: Reader, s: string)
    requires InElementText(r) && '<' !in s && '&' !in s
    ensures Read(r, s) == Put(r, s)
  {
    if s != "" {
      var init, last := s[..|s| - 1], s[|s| - 1];
      assert s == init + [last];
      ReadLiteral(r, init);
      PutTwice(r, init, [last]);
    } else {
      PutNothing(r);
    }
  }

  lemma {:induction false} ReadTagName(r: Reader, name: string)
    requires r.Reader? && r.mode == InTag("") && NameChars(name)
    ensures Read(r, name) == r.(mode := InTag(name))
  {
    if name != "" {
      var init, last := name[..|name| - 1], name[|name| - 1];
      assert name == init + [last];
      ReadTagName(r, init);
    }
  }

  lemma {:induction false} ReadEntityName(r: Reader, name: string)
    requires r.Reader? && r.mode == InEntity("") && NameChars(name)
    ensures Read(r, name) == r.(mode := InEntity(name))
  {
    if name != "" {
      var init, last := name[..|name| - 1], name[|name| - 1];
      assert name == init + [last];
      ReadEntityName(r, init);
    }
  }

  lemma ReadChar(r: Reader, c: char)
    ensures Read(r, [c]) == Step(r, c)
  {
  }

  lemma ReadTag(r: Reader, name: string)
    requires InElementText(r) && NameChars(name)
    ensures Read(r, "<" + name + ">") == Tagged(r, name)
  {
    ReadConcat(r, "<" + name, ">");
    ReadConcat(r, "<", name);
    ReadChar(r, '<');
    ReadTagName(r.(mode := InTag("")), name);
    ReadChar(r.(mode := InTag(name)), '>');
    assert Tagged(r.(mode := InTag(name)), name) == Tagged(r, name);
  }

  lemma ReadEntity(r: Reader, name: string)
    requires InElementText(r) && NameChars(name)
    ensures Read(r, "&" + name + ";") == Decoded(r, name)
  {
    ReadConcat(r, "&" + name, ";");
    ReadConcat(r, "&", name);
    ReadChar(r, '&');
    ReadEntityName(r.(mode := InEntity("")), name);
    ReadChar(r.(mode := InEntity(name)), ';');
    assert Decoded(r.(mode := InEntity(name)), name) == Decoded(r, name);
  }

  // ----- Documents -----

  /** Between elements: no open tag, no cut entity. */
  predicate AtTopLevel(r: Reader) {
    InElementText(r) && r.stack == []
  }

  predicate Continues(r: Reader, s: string, events: seq<Event>) {
    AtTopLevel(r) ==> AtTopLevel(Read(r, s)) && Read(r, s).events == r.events + events
  }

  /** `s` is valid on its own wherever a document may go on, and contains exactly these elements. */
  ghost predicate Contains(s: string, events: seq<Event>) {
    forall r :: Continues(r, s, events)
  }

  lemma EventsConcat(a: seq<Event>, b: seq<Event>, c: seq<Event>)
    ensures a + b + c == a + (b + c)
  {
  }

  lemma ContinuesConcat(r: Reader, a: string, ea: seq<Event>, b: string, eb: seq<Event>)
    requires Continues(r, a, ea) && Continues(Read(r, a), b, eb)
    ensures Continues(r, a + b, ea + eb)
  {
    ReadConcat(r, a, b);
    if AtTopLevel(r) {
      EventsConcat(r.events, ea, eb);
    }
  }

  lemma ContainsConcat(a: string, ea: seq<Event>, b: string, eb: seq<Event>)
    requires Contains(a, ea) && Contains(b, eb)
    ensures Contains(a + b, ea + eb)
  {
    forall r ensures Continues(r, a + b, ea + eb) {
      assert Continues(r, a, ea) && Continues(Read(r, a), b, eb);
      ContinuesConcat(r, a, ea, b, eb);
    }
  }

  // ----- Text inside and between elements -----

  predicate SpellsFrom(r: Reader, s: string, text: string) {
    InElementText(r) ==> Read(r, s) == Put(r, text)
  }

  /** `s` carries no tag and decodes to `text`. */
  ghost predicate Spells(s: string, text: string) {
    forall r :: SpellsFrom(r, s, text)
  }

  lemma LiteralSpellsItself(s: string)
    requires '<' !in s && '&' !in s
    ensures Spells(s, s)
  {
    forall r ensures SpellsFrom(r, s, s) {
      if InElementText(r) {
        ReadLiteral(r, s);
      }
    }
  }

  lemma SpellsConcat(a: string, ta: string, b: string, tb: string)
    requires Spells(a, ta) && Spells(b, tb)
    ensures Spells(a + b, ta + tb)
  {
    forall r ensures SpellsFrom(r, a + b, ta + tb) {
      assert SpellsFrom(r, a, ta);
      assert SpellsFrom(Read(r, a), b, tb);
      ReadConcat(r, a, b);
      if InElementText(r) {
        PutTwice(r, ta, tb);
      }
    }
  }

  lemma FollowedOne(e: Event, text: string)
    ensures Followed([e], text) == [e.(after := e.after + text)]
  {
    assert e.after + "" == e.after;
    assert [e][..0] == [];
  }

  lemma FollowedTail(before: seq<Event>, events: seq<Event>, text: string)
    requires events != []
    ensures Followed(before + events, text) == before + Followed(events, text)
  {
    var all := before + events;
    assert all[..|all| - 1] == before + events[..|events| - 1];
  }

  /** Text after elements follows the last of them. */
  lemma ContainsThenText(a: string, events: seq<Event>, s: string, text: string)
    requires Contains(a, events) && events != [] && Spells(s, text)
    ensures Contains(a + s, Followed(events, text))
  {
    forall r ensures Continues(r, a + s, Followed(events, text)) {
      assert Continues(r, a, events);
      assert SpellsFrom(Read(r, a), s, text);
      ReadConcat(r, a, s);
      if AtTopLevel(r) {
        FollowedTail(r.events, events, text);
      }
    }
  }

  function Element(tag: Tag, s: string): string {
    "<" + tag.Name() + ">" + s + ("<" + ("/" + tag.Name()) + ">")
  }

  lemma TaggedOpen(r: Reader, tag: Tag)
    requires AtTopLevel(r)
    ensures Tagged(r, tag.Name()) == r.(stack := [tag.Name()], buffer := "")
  {
  }

  lemma TaggedClose(r: Reader, tag: Tag)
    requires InElementText(r) && r.stack == [tag.Name()]
    ensures Tagged(r, "/" + tag.Name()) == r.(stack := [], buffer := "", events := r.events + [tag.Found(r.buffer)])
  {
  }

  lemma {:induction false} ReadElement(r: Reader, tag: Tag, s: string, text: string)
    requires AtTopLevel(r) && Spells(s, text)
    ensures Read(r, Element(tag, s)) == r.(buffer := "", events := r.events + [tag.Found(text)])
  {
    var name := tag.Name();
    var head, tail := "<" + name + ">", "<" + ("/" + name) + ">";
    var inside := r.(stack := [name], buffer := "");
    ReadConcat(r, head + s, tail);
    ReadConcat(r, head, s);
    ReadTag(r, name);
    TaggedOpen(r, tag);
    assert SpellsFrom(inside, s, text);
    assert Put(inside, text) == inside.(buffer := text);
    ReadTag(inside.(buffer := text), "/" + name);
    TaggedClose(inside.(buffer := text), tag);
  }

  lemma ElementContains(tag: Tag, s: string, text: string)
    requires Spells(s, text)
    ensures Contains(Element(tag, s), [tag.Found(text)])
  {
    forall r ensures Continues(r, Element(tag, s), [tag.Found(text)]) {
      if AtTopLevel(r) {
        ReadElement(r, tag, s, text);
      }
    }
  }
}
