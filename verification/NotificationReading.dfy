/** Reading rendered notifications back: validity, size and recovery of their content. */
module NotificationReading {
  import opened Wrappers
  import opened Calendar
  import opened GreedyGroups
  import opened HtmlReader
  import opened Notifications
  import opened NotificationRendering

  // ----- Elements of a text and of a list of texts -----

  function EventsIn(s: string): seq<Event> {
    if Read(START, s).Reader? then Read(START, s).events else []
  }

  /** `s` can stand on its own anywhere in a document, and begins with an element. */
  ghost predicate Valid(s: string) {
    Contains(s, EventsIn(s)) && EventsIn(s) != []
  }

  const BLANK_LINE := "\n\n"

  /** What a reader finds in texts that come one after another, each followed by a blank line. */
  function EventsOf(texts: seq<string>): seq<Event> {
    if texts == [] then []
    else EventsOf(texts[..|texts| - 1]) + Followed(EventsIn(texts[|texts| - 1]), BLANK_LINE)
  }

  ghost predicate AllValid(texts: seq<string>) {
    forall i :: 0 <= i < |texts| ==> Valid(texts[i])
  }

  lemma ContainsDetermines(s: string, events: seq<Event>)
    requires Contains(s, events)
    ensures EventsIn(s) == events && AtTopLevel(Read(START, s))
    ensures events != [] ==> Valid(s)
  {
    assert Continues(START, s, events);
    assert [] + events == events;
  }

  lemma EventsOfSnoc(texts: seq<string>, t: string)
    ensures EventsOf(texts + [t]) == EventsOf(texts) + Followed(EventsIn(t), BLANK_LINE)
  {
    assert (texts + [t])[..|texts|] == texts;
  }

  lemma {:induction false} EventsOfConcat(a: seq<string>, b: seq<string>)
    ensures EventsOf(a + b) == EventsOf(a) + EventsOf(b)
  {
    if b == [] {
      assert a + b == a;
    } else {
      var init, last := b[..|b| - 1], b[|b| - 1];
      assert a + b == a + init + [last];
      EventsOfSnoc(a + init, last);
      EventsOfConcat(a, init);
      EventsConcat(EventsOf(a), EventsOf(init), Followed(EventsIn(last), BLANK_LINE));
    }
  }

  lemma ValidSnoc(texts: seq<string>, t: string)
    requires AllValid(texts) && Valid(t)
    ensures AllValid(texts + [t]) && EventsOf(texts + [t]) == EventsOf(texts) + Followed(EventsIn(t), BLANK_LINE)
  {
    EventsOfSnoc(texts, t);
  }

  lemma AllValidConcat(a: seq<string>, b: seq<string>)
    requires AllValid(a) && AllValid(b)
    ensures AllValid(a + b) && EventsOf(a + b) == EventsOf(a) + EventsOf(b)
  {
    EventsOfConcat(a, b);
  }

  lemma ValidConcat3(a: seq<string>, b: seq<string>, c: seq<string>)
    requires AllValid(a) && AllValid(b) && AllValid(c)
    ensures AllValid(a + b + c) && EventsOf(a + b + c) == EventsOf(a) + EventsOf(b) + EventsOf(c)
  {
    AllValidConcat(a, b);
    AllValidConcat(a + b, c);
  }

  lemma OneMoreBlock(text: string, block: string, events: seq<Event>)
    requires Valid(text) && Valid(block) && Followed(EventsIn(text), BLANK_LINE) == events
    ensures Valid(text + "\n\n" + block)
    ensures Followed(EventsIn(text + "\n\n" + block), BLANK_LINE) == events + Followed(EventsIn(block), BLANK_LINE)
  {
    LiteralSpellsItself("\n\n");
    ContainsThenText(text, EventsIn(text), "\n\n", "\n\n");
    ContainsConcat(text + "\n\n", events, block, EventsIn(block));
    ContainsDetermines(text + "\n\n" + block, events + EventsIn(block));
    FollowedTail(events, EventsIn(block), BLANK_LINE);
  }

  /** Joined blocks are valid and contain what the blocks contain, in order. */
  lemma {:induction false} JoinIsValid(blocks: seq<string>)
    requires blocks != [] && AllValid(blocks)
    ensures Valid(JoinBlocks(blocks)) && Followed(EventsIn(JoinBlocks(blocks)), BLANK_LINE) == EventsOf(blocks)
  {
    if |blocks| == 1 {
      assert EventsOf(blocks[..0]) == [];
    } else {
      var init, last := blocks[..|blocks| - 1], blocks[|blocks| - 1];
      JoinIsValid(init);
      OneMoreBlock(JoinBlocks(init), last, EventsOf(init));
    }
  }

  ghost predicate IsMessage(blocks: seq<string>) {
    blocks != [] && AllValid(blocks)
  }

  /** The messages are valid and contain what their blocks contain. */
  ghost predicate ReadAlike(groups: seq<seq<string>>) {
    AllValid(JoinAll(groups)) && EventsOf(JoinAll(groups)) == EventsOf(Flatten(groups))
  }

  lemma OneMoreMessage(groups: seq<seq<string>>, g: seq<string>)
    requires ReadAlike(groups) && IsMessage(g)
    ensures ReadAlike(groups + [g])
  {
    JoinIsValid(g);
    JoinAllSnoc(groups, g);
    ValidSnoc(JoinAll(groups), JoinBlocks(g));
    FlattenSnoc(groups, g);
    EventsOfConcat(Flatten(groups), g);
  }

  lemma {:induction false} MessagesAreValid(groups: seq<seq<string>>)
    requires forall i :: 0 <= i < |groups| ==> IsMessage(groups[i])
    ensures ReadAlike(groups)
  {
    if groups != [] {
      MessagesAreValid(groups[..|groups| - 1]);
      OneMoreMessage(groups[..|groups| - 1], groups[|groups| - 1]);
      SplitLast(groups);
    }
  }

  lemma GroupsOfBlocks(blocks: seq<string>)
    ensures Flatten(Group(BlockLength, 2, LIMIT, blocks).All()) == blocks
  {
    GroupingIsLossless(BlockLength, 2, LIMIT, blocks);
    FlattenSnoc(Group(BlockLength, 2, LIMIT, blocks).closed, Group(BlockLength, 2, LIMIT, blocks).current);
  }

  lemma GroupIsMessage(blocks: seq<string>, i: nat)
    requires AllValid(blocks) && i < |Group(BlockLength, 2, LIMIT, blocks).All()|
    ensures IsMessage(Group(BlockLength, 2, LIMIT, blocks).All()[i])
  {
    var groups := Group(BlockLength, 2, LIMIT, blocks).All();
    GroupIsNotEmpty(BlockLength, 2, LIMIT, blocks, i);
    GroupsOfBlocks(blocks);
    FlattenMembers(groups, i);
    forall k | 0 <= k < |groups[i]| ensures Valid(groups[i][k]) {
      assert groups[i][k] in blocks;
    }
  }

  /** Packing valid blocks gives valid messages that contain, in order, what the blocks contain. */
  lemma PackedMessagesAreValid(blocks: seq<string>)
    requires NoneEmpty(blocks) && AllValid(blocks)
    ensures AllValid(PackAll(blocks).Done())
    ensures EventsOf(PackAll(blocks).Done()) == EventsOf(blocks)
  {
    var groups := Group(BlockLength, 2, LIMIT, blocks).All();
    PackingIsGreedy(blocks);
    GroupsOfBlocks(blocks);
    forall i | 0 <= i < |groups| ensures IsMessage(groups[i]) {
      GroupIsMessage(blocks, i);
    }
    MessagesAreValid(groups);
  }

  // ----- What each block contains -----

  predicate IsPlain(s: string) {
    '<' !in s && '&' !in s
  }

  /** An element with plain content, and the text after it. */
  lemma BoldThenText(caption: string, s: string, text: string)
    requires IsPlain(caption) && Spells(s, text)
    ensures Contains(Element(B, caption) + s, [Bold(caption, text)])
  {
    LiteralSpellsItself(caption);
    ElementContains(B, caption, caption);
    ContainsThenText(Element(B, caption), [Bold(caption, "")], s, text);
    FollowedOne(Bold(caption, ""), text);
    assert "" + text == text;
  }

  lemma LabelledContains(caption: string, rest: string, text: string)
    requires IsPlain(caption) && Spells(rest, text)
    ensures Contains(Labelled(caption, rest), [Bold(caption, " " + text)])
  {
    LiteralSpellsItself(" ");
    SpellsConcat(" ", " ", rest, text);
    BoldThenText(caption, " " + rest, " " + text);
    assert Element(B, caption) + (" " + rest) == Labelled(caption, rest);
  }

  /** A line that begins with an element, after one that ends with `last`. */
  lemma LineContains(before: string, events: seq<Event>, line: string, more: seq<Event>)
    requires Contains(before, events) && events != [] && Contains(line, more)
    ensures Contains(before + ("\n" + line), Followed(events, "\n") + more)
  {
    LiteralSpellsItself("\n");
    ContainsThenText(before, events, "\n", "\n");
    ContainsConcat(before + "\n", Followed(events, "\n"), line, more);
    assert before + "\n" + line == before + ("\n" + line);
  }

  lemma TextBlockContains(caption: string, piece: string)
    requires IsPlain(caption)
    ensures Contains(TextBlock(caption, EscapeText(piece)), [Bold(caption, "\n"), Quote(piece, "")])
  {
    LiteralSpellsItself("\n");
    BoldThenText(caption, "\n", "\n");
    EscapedTextSpells(piece);
    ElementContains(Blockquote, EscapeText(piece), piece);
    ContainsConcat(Element(B, caption) + "\n", [Bold(caption, "\n")], Element(Blockquote, EscapeText(piece)), [Quote(piece, "")]);
    assert [Bold(caption, "\n")] + [Quote(piece, "")] == [Bold(caption, "\n"), Quote(piece, "")];
  }

  lemma CaptionsArePlain()
    ensures IsPlain(ORIGINAL) && IsPlain(TRANSLATION) && IsPlain(AUTHOR)
  {
  }

  function AuthorOf(item: ChainItem): string {
    OrElse(item.author, "Неизвестный автор")
  }

  lemma HeadingContains(item: ChainItem)
    ensures Contains(Heading(item), [Bold(HeadingTitle(item), "\n"), Bold(AUTHOR, " " + AuthorOf(item))])
  {
    CaptionsArePlain();
    LiteralSpellsItself(HeadingTitle(item));
    ElementContains(B, HeadingTitle(item), HeadingTitle(item));
    EscapedTextSpells(AuthorOf(item));
    LabelledContains(AUTHOR, EscapeText(AuthorOf(item)), AuthorOf(item));
    LineContains(Element(B, HeadingTitle(item)), [Bold(HeadingTitle(item), "")],
                 Labelled(AUTHOR, EscapeText(AuthorOf(item))), [Bold(AUTHOR, " " + AuthorOf(item))]);
    FollowedOne(Bold(HeadingTitle(item), ""), "\n");
    assert "" + "\n" == "\n";
    assert [Bold(HeadingTitle(item), "\n")] + [Bold(AUTHOR, " " + AuthorOf(item))]
        == [Bold(HeadingTitle(item), "\n"), Bold(AUTHOR, " " + AuthorOf(item))];
  }

  const CHAT := "Чат:"
  const TOPIC := "Тема:"
  const CATEGORY := "Категория:"
  const CONFIDENCE := "Уверенность:"
  const NEW_QUESTION := "Новый вопрос"

  /** One more labelled line, closed by the end of the line. */
  lemma OneMoreLine(before: string, events: seq<Event>, last: string, text: string, caption: string, rest: string, more: string)
    requires Contains(before, events + [Bold(last, text)]) && IsPlain(caption) && Spells(rest, more)
    ensures Contains(before + ("\n" + Labelled(caption, rest)), events + [Bold(last, text + "\n")] + [Bold(caption, " " + more)])
  {
    LabelledContains(caption, rest, more);
    LineContains(before, events + [Bold(last, text)], Labelled(caption, rest), [Bold(caption, " " + more)]);
    FollowedTail(events, [Bold(last, text)], "\n");
    FollowedOne(Bold(last, text), "\n");
  }

  function TopicOf(c: Content): string {
    OrElse(c.topicTitle, "Без темы")
  }

  /** What the metadata block holds, its last line still open. */
  function MetadataEvents(c: Content): seq<Event> {
    [Bold(NEW_QUESTION, "" + "\n")] + [Bold(CHAT, " " + c.chatTitle + "\n")] + [Bold(TOPIC, " " + TopicOf(c) + "\n")]
    + [Bold(CATEGORY, " " + c.category + "\n")] + [Bold(CONFIDENCE, " " + ConfidenceText(c.confidence))]
  }

  function FirstLines(c: Content): string {
    Element(B, NEW_QUESTION) + ("\n" + Labelled(CHAT, EscapeText(c.chatTitle)))
    + ("\n" + Labelled(TOPIC, EscapeText(TopicOf(c))))
  }

  lemma FirstLinesContain(c: Content)
    ensures Contains(FirstLines(c),
                     [Bold(NEW_QUESTION, "" + "\n")] + [Bold(CHAT, " " + c.chatTitle + "\n")] + [Bold(TOPIC, " " + TopicOf(c))])
  {
    LiteralSpellsItself(NEW_QUESTION);
    ElementContains(B, NEW_QUESTION, NEW_QUESTION);
    EscapedTextSpells(c.chatTitle);
    EscapedTextSpells(TopicOf(c));
    assert [] + [Bold(NEW_QUESTION, "")] == [Bold(NEW_QUESTION, "")];
    OneMoreLine(Element(B, NEW_QUESTION), [], NEW_QUESTION, "", CHAT, EscapeText(c.chatTitle), c.chatTitle);
    var e := [Bold(NEW_QUESTION, "" + "\n")];
    assert [] + e == e;
    OneMoreLine(Element(B, NEW_QUESTION) + ("\n" + Labelled(CHAT, EscapeText(c.chatTitle))), e,
                CHAT, " " + c.chatTitle, TOPIC, EscapeText(TopicOf(c)), TopicOf(c));
  }

  lemma MetadataContains(c: Content)
    ensures Contains(RenderMetadata(c), MetadataEvents(c))
  {
    FirstLinesContain(c);
    EscapedTextSpells(c.category);
    LiteralSpellsItself(ConfidenceText(c.confidence));
    var e := [Bold(NEW_QUESTION, "" + "\n")] + [Bold(CHAT, " " + c.chatTitle + "\n")];
    OneMoreLine(FirstLines(c), e, TOPIC, " " + TopicOf(c), CATEGORY, EscapeText(c.category), c.category);
    OneMoreLine(FirstLines(c) + ("\n" + Labelled(CATEGORY, EscapeText(c.category))), e + [Bold(TOPIC, " " + TopicOf(c) + "\n")],
                CATEGORY, " " + c.category, CONFIDENCE, ConfidenceText(c.confidence), ConfidenceText(c.confidence));
  }

  // ----- What one item contributes -----

  /** The elements of text blocks, each block followed by a blank line. */
  function PieceEvents(caption: string, pieces: seq<string>): seq<Event> {
    if pieces == [] then []
    else PieceEvents(caption, pieces[..|pieces| - 1]) + [Bold(caption, "\n"), Quote(pieces[|pieces| - 1], BLANK_LINE)]
  }

  lemma TextBlocksSnoc(caption: string, init: seq<string>, last: string)
    ensures TextBlocks(caption, init + [last]) == TextBlocks(caption, init) + [TextBlock(caption, EscapeText(last))]
  {
  }

  lemma FollowedTwo(a: Event, b: Event, text: string)
    ensures Followed([a, b], text) == [a, b.(after := b.after + text)]
  {
    FollowedTail([a], [b], text);
    FollowedOne(b, text);
    assert [a] + [b] == [a, b];
    assert [a] + [b.(after := b.after + text)] == [a, b.(after := b.after + text)];
  }

  /** What one block holds, as found by the reader. */
  lemma TextBlockEvents(caption: string, piece: string)
    requires IsPlain(caption)
    ensures Valid(TextBlock(caption, EscapeText(piece)))
    ensures Followed(EventsIn(TextBlock(caption, EscapeText(piece))), BLANK_LINE) == [Bold(caption, "\n"), Quote(piece, BLANK_LINE)]
  {
    TextBlockContains(caption, piece);
    ContainsDetermines(TextBlock(caption, EscapeText(piece)), [Bold(caption, "\n"), Quote(piece, "")]);
    FollowedTwo(Bold(caption, "\n"), Quote(piece, ""), BLANK_LINE);
    assert "" + BLANK_LINE == BLANK_LINE;
  }

  lemma {:induction false} TextBlocksContain(caption: string, pieces: seq<string>)
    requires IsPlain(caption)
    ensures AllValid(TextBlocks(caption, pieces)) && EventsOf(TextBlocks(caption, pieces)) == PieceEvents(caption, pieces)
  {
    if pieces != [] {
      var init, last := pieces[..|pieces| - 1], pieces[|pieces| - 1];
      TextBlocksContain(caption, init);
      SplitLast(pieces);
      TextBlocksSnoc(caption, init, last);
      TextBlockEvents(caption, last);
      ValidSnoc(TextBlocks(caption, init), TextBlock(caption, EscapeText(last)));
    }
  }

  function OriginalPieces(item: ChainItem): seq<string> {
    Pieces(item.original, 4054)
  }

  function TranslationEvents(item: ChainItem): seq<Event> {
    if Shown(item).Some? then PieceEvents(TRANSLATION, Pieces(Shown(item).value, 4055))
    else [Bold(TRANSLATION, " недоступен" + BLANK_LINE)]
  }

  function HeadingEvents(item: ChainItem): seq<Event> {
    [Bold(HeadingTitle(item), "\n"), Bold(AUTHOR, " " + AuthorOf(item) + BLANK_LINE)]
  }

  function ItemEvents(item: ChainItem): seq<Event> {
    HeadingEvents(item) + PieceEvents(ORIGINAL, OriginalPieces(item)) + TranslationEvents(item)
  }

  lemma SingleBlock(block: string, events: seq<Event>)
    requires Contains(block, events) && events != []
    ensures AllValid([block]) && EventsOf([block]) == Followed(events, BLANK_LINE)
  {
    ContainsDetermines(block, events);
    assert [block][..0] == [];
    assert EventsOf([]) + Followed(events, BLANK_LINE) == Followed(events, BLANK_LINE);
  }

  lemma AbsenceContains()
    ensures var block := Labelled(TRANSLATION, "недоступен");
            AllValid([block]) && EventsOf([block]) == [Bold(TRANSLATION, " недоступен" + BLANK_LINE)]
  {
    CaptionsArePlain();
    LiteralSpellsItself("недоступен");
    LabelledContains(TRANSLATION, "недоступен", "недоступен");
    SingleBlock(Labelled(TRANSLATION, "недоступен"), [Bold(TRANSLATION, " " + "недоступен")]);
    FollowedOne(Bold(TRANSLATION, " " + "недоступен"), BLANK_LINE);
    assert " " + "недоступен" == " недоступен";
  }

  lemma TranslationBlocksContain(item: ChainItem)
    ensures AllValid(TranslationBlocks(item)) && EventsOf(TranslationBlocks(item)) == TranslationEvents(item)
  {
    CaptionsArePlain();
    LabelSizes();
    if Shown(item).Some? {
      TextBlocksContain(TRANSLATION, Pieces(Shown(item).value, 4055));
    } else {
      AbsenceContains();
    }
  }

  lemma HeadingBlockContains(item: ChainItem)
    ensures AllValid([Heading(item)]) && EventsOf([Heading(item)]) == HeadingEvents(item)
  {
    HeadingContains(item);
    SingleBlock(Heading(item), [Bold(HeadingTitle(item), "\n"), Bold(AUTHOR, " " + AuthorOf(item))]);
    FollowedTwo(Bold(HeadingTitle(item), "\n"), Bold(AUTHOR, " " + AuthorOf(item)), BLANK_LINE);
  }

  lemma ItemBlocksContain(item: ChainItem)
    ensures AllValid(ItemBlocks(item)) && EventsOf(ItemBlocks(item)) == ItemEvents(item)
  {
    CaptionsArePlain();
    LabelSizes();
    HeadingBlockContains(item);
    TextBlocksContain(ORIGINAL, OriginalPieces(item));
    TranslationBlocksContain(item);
    ValidConcat3([Heading(item)], TextBlocks(ORIGINAL, OriginalPieces(item)), TranslationBlocks(item));
  }

  // ----- Reading a heading -----

  const SUFFIX := " • целевое сообщение"

  function ReadNumber(s: string): Option<int> {
    if s != "" && s[0] == '-' then
      var n := ParseDigits(s[1..]);
      if n.Some? then Some(-n.value) else None
    else ParseDigits(s)
  }

  /** The number a heading gives, and whether it marks the target. */
  function ReadHeading(title: string): Option<(int, bool)> {
    if |title| < 10 || title[..10] != "Сообщение " then None
    else
      var rest := title[10..];
      var marked := |rest| >= |SUFFIX| && rest[|rest| - |SUFFIX|..] == SUFFIX;
      var number := ReadNumber(if marked then rest[..|rest| - |SUFFIX|] else rest);
      if number.Some? then Some((number.value, marked)) else None
  }

  predicate IsDigit(c: char) {
    '0' <= c <= '9'
  }

  lemma DigitIsDigit(d: int)
    requires 0 <= d < 10
    ensures IsDigit("0123456789"[d])
  {
  }

  lemma {:induction false} DecimalIsRead(n: nat)
    ensures ParseDigits(Decimal(n)) == Some(n)
    ensures IsDigit(Decimal(n)[0]) && IsDigit(Decimal(n)[|Decimal(n)| - 1])
  {
    DigitIsDigit(n % 10);
    if n < 10 {
      DigitsGrow("", 0, n);
      assert "" + [Digit(n)] == [Digit(n)];
    } else {
      DecimalIsRead(n / 10);
      DigitsGrow(Decimal(n / 10), n / 10, n % 10);
    }
  }

  lemma SignIsRead(s: string, n: int)
    requires s != "" && IsDigit(s[0]) && ParseDigits(s) == Some(n)
    ensures ReadNumber(s) == Some(n) && ReadNumber("-" + s) == Some(-n)
  {
    assert ("-" + s)[1..] == s;
  }

  lemma NumberIsRead(n: int)
    ensures var s := SignedDecimal(n); ReadNumber(s) == Some(n) && s != "" && IsDigit(s[|s| - 1])
  {
    var size: nat := if n < 0 then -n else n;
    DecimalIsRead(size);
    SignIsRead(Decimal(size), size);
  }

  lemma Parts(a: string, b: string, c: string)
    ensures (a + b + c)[..|a|] == a && (a + b + c)[|a|..] == b + c
    ensures (b + c)[|b|..] == c && (b + c)[..|b|] == b
  {
  }

  lemma EndsDifferently(s: string)
    requires s != "" && IsDigit(s[|s| - 1]) && |s| >= |SUFFIX|
    ensures s[|s| - |SUFFIX|..] != SUFFIX
  {
    assert s[|s| - |SUFFIX|..][|SUFFIX| - 1] == s[|s| - 1];
    assert SUFFIX[|SUFFIX| - 1] == 'е';
  }

  lemma UnmarkedIsRead(digits: string, n: int)
    requires digits != "" && IsDigit(digits[|digits| - 1]) && ReadNumber(digits) == Some(n)
    ensures ReadHeading("Сообщение " + digits) == Some((n, false))
  {
    Parts("Сообщение ", digits, "");
    assert "Сообщение " + digits + "" == "Сообщение " + digits && digits + "" == digits;
    if |digits| >= |SUFFIX| {
      EndsDifferently(digits);
    }
  }

  lemma MarkedIsRead(digits: string, n: int)
    requires ReadNumber(digits) == Some(n)
    ensures ReadHeading("Сообщение " + digits + SUFFIX) == Some((n, true))
  {
    Parts("Сообщение ", digits, SUFFIX);
    var rest := digits + SUFFIX;
    assert rest[|rest| - |SUFFIX|..] == SUFFIX && rest[..|rest| - |SUFFIX|] == digits;
  }

  lemma MarkerIsRead(digits: string, n: int, isTarget: bool)
    requires digits != "" && IsDigit(digits[|digits| - 1]) && ReadNumber(digits) == Some(n)
    ensures ReadHeading("Сообщение " + digits + TargetMarker(isTarget)) == Some((n, isTarget))
  {
    if isTarget {
      MarkedIsRead(digits, n);
    } else {
      UnmarkedIsRead(digits, n);
      assert "Сообщение " + digits + "" == "Сообщение " + digits;
    }
  }

  /** A heading gives its item's number and marks exactly the target. */
  lemma HeadingIsRead(item: ChainItem)
    ensures ReadHeading(HeadingTitle(item)) == Some((item.position + 1, item.isTarget))
  {
    NumberIsRead(item.position + 1);
    MarkerIsRead(SignedDecimal(item.position + 1), item.position + 1, item.isTarget);
  }

  // ----- Recovering the content from what a reader sees -----

  /** `isUntranslated`: the translation is said to be unavailable. */
  datatype SeenItem = SeenItem(
    number: int, isTarget: bool, author: string, original: string, translation: Option<string>, isUntranslated: bool
  )

  datatype Seen = Seen(chat: string, topic: string, category: string, confidence: string, items: seq<SeenItem>)

  datatype Filling = Nothing | FillOriginal | FillTranslation

  datatype Recovery = Recovery(seen: Seen, filling: Filling)

  const NOTHING_READ := Recovery(Seen("", "", "", "", []), Nothing)

  /** A field's text: what follows its caption, without the space before and the end of line after it. */
  function Field(after: string, ending: nat): string {
    if |after| > ending then after[1..|after| - ending] else ""
  }

  function SetLast(items: seq<SeenItem>, last: SeenItem): seq<SeenItem>
    requires items != []
  {
    items[..|items| - 1] + [last]
  }

  /** Text under a caption of the newest item, or a heading, which begins one. */
  function AbsorbItemCaption(r: Recovery, caption: string, after: string): Recovery {
    if caption == "Оригинал:" then r.(filling := FillOriginal)
    else if caption == "Автор:" && r.seen.items != [] then
      var last := r.seen.items[|r.seen.items| - 1];
      Recovery(r.seen.(items := SetLast(r.seen.items, last.(author := Field(after, 2)))), Nothing)
    else if caption == "Перевод:" && r.seen.items != [] then
      var last := r.seen.items[|r.seen.items| - 1];
      Recovery(r.seen.(items := SetLast(r.seen.items, last.(isUntranslated := Field(after, 2) == "недоступен"))), FillTranslation)
    else
      var heading := ReadHeading(caption);
      if heading.None? then r.(filling := Nothing)
      else Recovery(r.seen.(items := r.seen.items + [SeenItem(heading.value.0, heading.value.1, "", "", None, false)]), Nothing)
  }

  /** A quote extends the original or the translation of the newest item, as the last caption said. */
  function AbsorbQuote(r: Recovery, text: string): Recovery {
    if r.seen.items == [] || r.filling == Nothing then r
    else
      var last := r.seen.items[|r.seen.items| - 1];
      if r.filling == FillOriginal then r.(seen := r.seen.(items := SetLast(r.seen.items, last.(original := last.original + text))))
      else
        var before := if last.translation.Some? then last.translation.value else "";
        r.(seen := r.seen.(items := SetLast(r.seen.items, last.(translation := Some(before + text)))))
  }

  function Absorb(r: Recovery, e: Event): Recovery {
    match e
    case Leading(_) => r
    case Quote(text, _) => AbsorbQuote(r, text)
    case Bold(caption, after) =>
      if caption == "Чат:" then r.(seen := r.seen.(chat := Field(after, 1)))
      else if caption == "Тема:" then r.(seen := r.seen.(topic := Field(after, 1)))
      else if caption == "Категория:" then r.(seen := r.seen.(category := Field(after, 1)))
      else if caption == "Уверенность:" then r.(seen := r.seen.(confidence := Field(after, 2)))
      else AbsorbItemCaption(r, caption, after)
  }

  function AbsorbAll(r: Recovery, events: seq<Event>): Recovery {
    if events == [] then r else Absorb(AbsorbAll(r, events[..|events| - 1]), events[|events| - 1])
  }

  lemma {:induction false} AbsorbConcat(r: Recovery, a: seq<Event>, b: seq<Event>)
    ensures AbsorbAll(r, a + b) == AbsorbAll(AbsorbAll(r, a), b)
  {
    if b == [] {
      assert a + b == a;
    } else {
      assert (a + b)[..|a + b| - 1] == a + b[..|b| - 1];
      AbsorbConcat(r, a, b[..|b| - 1]);
    }
  }

  lemma AbsorbOne(r: Recovery, e: Event)
    ensures AbsorbAll(r, [e]) == Absorb(r, e)
  {
    assert [e][..0] == [];
  }

  lemma AbsorbTwo(r: Recovery, a: Event, b: Event)
    ensures AbsorbAll(r, [a, b]) == Absorb(Absorb(r, a), b)
  {
    assert [a, b] == [a] + [b];
    AbsorbConcat(r, [a], [b]);
    AbsorbOne(r, a);
    AbsorbOne(Absorb(r, a), b);
  }

  // ----- Captions -----

  lemma FieldIsRead(text: string, end: string)
    ensures Field(" " + text + end, |end|) == text
  {
    Parts(" ", text, end);
  }

  lemma ReadOriginalCaption(r: Recovery)
    ensures Absorb(r, Bold(ORIGINAL, "\n")) == r.(filling := FillOriginal)
  {
  }

  lemma ReadTranslationCaption(r: Recovery, after: string)
    requires r.seen.items != []
    ensures var last := r.seen.items[|r.seen.items| - 1];
            Absorb(r, Bold(TRANSLATION, after)) ==
            Recovery(r.seen.(items := SetLast(r.seen.items, last.(isUntranslated := Field(after, 2) == "недоступен"))), FillTranslation)
  {
  }

  lemma ReadAuthor(r: Recovery, author: string)
    requires r.seen.items != []
    ensures var last := r.seen.items[|r.seen.items| - 1];
            Absorb(r, Bold(AUTHOR, " " + author + BLANK_LINE)) ==
            Recovery(r.seen.(items := SetLast(r.seen.items, last.(author := author))), Nothing)
  {
    FieldIsRead(author, BLANK_LINE);
  }

  lemma ReadTitle(r: Recovery, item: ChainItem)
    ensures Absorb(r, Bold(HeadingTitle(item), "\n")) ==
            Recovery(r.seen.(items := r.seen.items + [SeenItem(item.position + 1, item.isTarget, "", "", None, false)]), Nothing)
  {
    HeadingIsRead(item);
    assert HeadingTitle(item)[0] == 'С';
  }

  // ----- Items -----

  /** What is to be seen of an item: its number, its marker, its author, its text and its translation. */
  function Expected(item: ChainItem): SeenItem {
    var isTranslated := item.translated.Some? && item.translated.value != item.original;
    SeenItem(
      item.position + 1,
      item.isTarget,
      if item.author.Some? && item.author.value != "" then item.author.value else "Неизвестный автор",
      item.original,
      if isTranslated then item.translated else None,
      !isTranslated)
  }

  function AllExpected(items: seq<ChainItem>): (seen: seq<SeenItem>)
    ensures |seen| == |items|
    ensures forall i :: 0 <= i < |seen| ==> seen[i] == Expected(items[i])
  {
    seq(|items|, i requires 0 <= i < |items| => Expected(items[i]))
  }

  /** The newest item while its parts are being read; `seen` has been read before it. */
  function Reading(r: Recovery, last: SeenItem, filling: Filling): Recovery {
    Recovery(r.seen.(items := r.seen.items + [last]), filling)
  }

  lemma ReadingOn(r: Recovery, last: SeenItem, filling: Filling, next: SeenItem)
    ensures SetLast(Reading(r, last, filling).seen.items, next) == r.seen.items + [next]
  {
  }

  lemma AbsorbHeading(r: Recovery, item: ChainItem)
    ensures AbsorbAll(r, HeadingEvents(item)) ==
            Reading(r, SeenItem(item.position + 1, item.isTarget, AuthorOf(item), "", None, false), Nothing)
  {
    var started := SeenItem(item.position + 1, item.isTarget, "", "", None, false);
    ReadTitle(r, item);
    ReadAuthor(Reading(r, started, Nothing), AuthorOf(item));
    ReadingOn(r, started, Nothing, started.(author := AuthorOf(item)));
    AbsorbTwo(r, Bold(HeadingTitle(item), "\n"), Bold(AUTHOR, " " + AuthorOf(item) + BLANK_LINE));
  }

  lemma AbsorbOriginalPiece(r: Recovery, last: SeenItem, filling: Filling, piece: string)
    ensures AbsorbAll(Reading(r, last, filling), [Bold(ORIGINAL, "\n"), Quote(piece, BLANK_LINE)]) ==
            Reading(r, last.(original := last.original + piece), FillOriginal)
  {
    AbsorbTwo(Reading(r, last, filling), Bold(ORIGINAL, "\n"), Quote(piece, BLANK_LINE));
    ReadOriginalCaption(Reading(r, last, filling));
    ReadingOn(r, last, FillOriginal, last.(original := last.original + piece));
  }

  /** The chunks of an original, each under its caption, add up to the original. */
  lemma {:induction false} AbsorbOriginal(r: Recovery, last: SeenItem, pieces: seq<string>)
    requires last.original == ""
    ensures AbsorbAll(Reading(r, last, Nothing), PieceEvents(ORIGINAL, pieces)) ==
            Reading(r, last.(original := Flatten(pieces)), if pieces == [] then Nothing else FillOriginal)
  {
    if pieces != [] {
      var init, piece := pieces[..|pieces| - 1], pieces[|pieces| - 1];
      var start, end := Reading(r, last, Nothing), [Bold(ORIGINAL, "\n"), Quote(piece, BLANK_LINE)];
      AbsorbOriginal(r, last, init);
      AbsorbConcat(start, PieceEvents(ORIGINAL, init), end);
      AbsorbOriginalPiece(r, last.(original := Flatten(init)), if init == [] then Nothing else FillOriginal, piece);
    }
  }

  /** What has been read of a translation. */
  function Translated(last: SeenItem, pieces: seq<string>): SeenItem {
    last.(translation := if pieces == [] then None else Some(Flatten(pieces)))
  }

  lemma AbsorbTranslationPiece(r: Recovery, last: SeenItem, filling: Filling, init: seq<string>, piece: string)
    requires !last.isUntranslated
    ensures AbsorbAll(Reading(r, Translated(last, init), filling), [Bold(TRANSLATION, "\n"), Quote(piece, BLANK_LINE)]) ==
            Reading(r, last.(translation := Some(Flatten(init) + piece)), FillTranslation)
  {
    var before := Translated(last, init);
    AbsorbTwo(Reading(r, before, filling), Bold(TRANSLATION, "\n"), Quote(piece, BLANK_LINE));
    ReadTranslationCaption(Reading(r, before, filling), "\n");
    ReadingOn(r, before, filling, before);
    ReadingOn(r, before, FillTranslation, last.(translation := Some(Flatten(init) + piece)));
    assert "" + piece == piece;
  }

  lemma {:induction false} AbsorbTranslation(r: Recovery, last: SeenItem, filling: Filling, pieces: seq<string>)
    requires last.translation == None && !last.isUntranslated
    ensures AbsorbAll(Reading(r, last, filling), PieceEvents(TRANSLATION, pieces)) ==
            Reading(r, Translated(last, pieces), if pieces == [] then filling else FillTranslation)
  {
    if pieces != [] {
      var init, piece := pieces[..|pieces| - 1], pieces[|pieces| - 1];
      var start, end := Reading(r, last, filling), [Bold(TRANSLATION, "\n"), Quote(piece, BLANK_LINE)];
      AbsorbTranslation(r, last, filling, init);
      AbsorbConcat(start, PieceEvents(TRANSLATION, init), end);
      AbsorbTranslationPiece(r, last, if init == [] then filling else FillTranslation, init, piece);
    }
  }

  lemma AbsorbTranslationBlocks(r: Recovery, last: SeenItem, filling: Filling, item: ChainItem)
    requires last.translation == None && !last.isUntranslated
    ensures AbsorbAll(Reading(r, last, filling), TranslationEvents(item)).seen ==
            Reading(r, last.(translation := Shown(item), isUntranslated := Shown(item).None?), filling).seen
  {
    if Shown(item).Some? {
      AbsorbTranslation(r, last, filling, Pieces(Shown(item).value, 4055));
      PiecesAreLossless(Shown(item).value, 4055);
    } else {
      var after := " недоступен" + BLANK_LINE;
      AbsorbOne(Reading(r, last, filling), Bold(TRANSLATION, after));
      ReadTranslationCaption(Reading(r, last, filling), after);
      assert " " + "недоступен" + BLANK_LINE == after;
      FieldIsRead("недоступен", BLANK_LINE);
      ReadingOn(r, last, filling, last.(isUntranslated := true));
    }
  }

  /** The item once its heading and original have been read. */
  function Untranslated(item: ChainItem): SeenItem {
    SeenItem(item.position + 1, item.isTarget, AuthorOf(item), item.original, None, false)
  }

  lemma AbsorbFirstBlocks(r: Recovery, item: ChainItem)
    ensures AbsorbAll(r, HeadingEvents(item) + PieceEvents(ORIGINAL, OriginalPieces(item))) ==
            Reading(r, Untranslated(item), FillOriginal)
  {
    AbsorbConcat(r, HeadingEvents(item), PieceEvents(ORIGINAL, OriginalPieces(item)));
    AbsorbHeading(r, item);
    AbsorbOriginal(r, Untranslated(item).(original := ""), OriginalPieces(item));
    PiecesAreLossless(item.original, 4054);
  }

  lemma ExpectedIsComplete(item: ChainItem)
    ensures Untranslated(item).(translation := Shown(item), isUntranslated := Shown(item).None?) == Expected(item)
  {
  }

  lemma AbsorbItem(r: Recovery, item: ChainItem)
    ensures AbsorbAll(r, ItemEvents(item)).seen == r.seen.(items := r.seen.items + [Expected(item)])
  {
    AbsorbConcat(r, HeadingEvents(item) + PieceEvents(ORIGINAL, OriginalPieces(item)), TranslationEvents(item));
    AbsorbFirstBlocks(r, item);
    AbsorbTranslationBlocks(r, Untranslated(item), FillOriginal, item);
    ExpectedIsComplete(item);
  }

  lemma AllExpectedGrow(items: seq<ChainItem>)
    requires items != []
    ensures AllExpected(items) == AllExpected(items[..|items| - 1]) + [Expected(items[|items| - 1])]
  {
  }

  lemma {:induction false} AbsorbOneMore(r: Recovery, before: seq<Event>, seen: seq<SeenItem>, item: ChainItem)
    requires AbsorbAll(r, before).seen == r.seen.(items := r.seen.items + seen)
    ensures AbsorbAll(r, before + ItemEvents(item)).seen == r.seen.(items := r.seen.items + (seen + [Expected(item)]))
  {
    AbsorbConcat(r, before, ItemEvents(item));
    AbsorbItem(AbsorbAll(r, before), item);
    assert r.seen.items + seen + [Expected(item)] == r.seen.items + (seen + [Expected(item)]);
  }

  lemma {:induction false} MoreBlocksContain(blocks: seq<string>, item: ChainItem)
    requires AllValid(blocks)
    ensures AllValid(blocks + ItemBlocks(item))
    ensures EventsOf(blocks + ItemBlocks(item)) == EventsOf(blocks) + ItemEvents(item)
  {
    ItemBlocksContain(item);
    AllValidConcat(blocks, ItemBlocks(item));
  }

  lemma {:induction false} ChainBlocksContain(items: seq<ChainItem>, r: Recovery)
    ensures AllValid(ChainBlocks(items))
    ensures AbsorbAll(r, EventsOf(ChainBlocks(items))).seen == r.seen.(items := r.seen.items + AllExpected(items))
  {
    if items == [] {
      assert r.seen.items + AllExpected(items) == r.seen.items;
    } else {
      var init, last := items[..|items| - 1], items[|items| - 1];
      ChainBlocksContain(init, r);
      MoreBlocksContain(ChainBlocks(init), last);
      AbsorbOneMore(r, EventsOf(ChainBlocks(init)), AllExpected(init), last);
      AllExpectedGrow(items);
    }
  }

  // ----- Metadata -----

  lemma ReadMetadataCaptions(r: Recovery, chat: string, topic: string, category: string, confidence: string)
    ensures Absorb(r, Bold(CHAT, " " + chat + "\n")) == r.(seen := r.seen.(chat := chat))
    ensures Absorb(r, Bold(TOPIC, " " + topic + "\n")) == r.(seen := r.seen.(topic := topic))
    ensures Absorb(r, Bold(CATEGORY, " " + category + "\n")) == r.(seen := r.seen.(category := category))
    ensures Absorb(r, Bold(CONFIDENCE, " " + confidence + BLANK_LINE)) == r.(seen := r.seen.(confidence := confidence))
  {
    FieldIsRead(chat, "\n");
    FieldIsRead(topic, "\n");
    FieldIsRead(category, "\n");
    FieldIsRead(confidence, BLANK_LINE);
  }

  lemma ReadNewQuestion(after: string)
    ensures Absorb(NOTHING_READ, Bold(NEW_QUESTION, after)) == NOTHING_READ
  {
    assert NEW_QUESTION[..10][0] == 'Н';
  }

  lemma AbsorbMore(r: Recovery, before: seq<Event>, s: Recovery, e: Event)
    requires AbsorbAll(r, before) == s
    ensures AbsorbAll(r, before + [e]) == Absorb(s, e)
  {
    AbsorbConcat(r, before, [e]);
    AbsorbOne(s, e);
  }

  lemma MetadataIsRead(c: Content)
    ensures AbsorbAll(NOTHING_READ, Followed(MetadataEvents(c), BLANK_LINE)) ==
            Recovery(Seen(c.chatTitle, TopicOf(c), c.category, ConfidenceText(c.confidence), []), Nothing)
  {
    var confidence := ConfidenceText(c.confidence);
    var e1 := Bold(NEW_QUESTION, "" + "\n");
    var e2 := Bold(CHAT, " " + c.chatTitle + "\n");
    var e3 := Bold(TOPIC, " " + TopicOf(c) + "\n");
    var e4 := Bold(CATEGORY, " " + c.category + "\n");
    var e5 := Bold(CONFIDENCE, " " + confidence);
    var e6 := Bold(CONFIDENCE, " " + confidence + BLANK_LINE);
    FollowedTail([e1] + [e2] + [e3] + [e4], [e5], BLANK_LINE);
    FollowedOne(e5, BLANK_LINE);
    var r2 := Recovery(Seen(c.chatTitle, "", "", "", []), Nothing);
    var r3 := Recovery(Seen(c.chatTitle, TopicOf(c), "", "", []), Nothing);
    var r4 := Recovery(Seen(c.chatTitle, TopicOf(c), c.category, "", []), Nothing);
    ReadNewQuestion("" + "\n");
    AbsorbOne(NOTHING_READ, e1);
    ReadMetadataCaptions(NOTHING_READ, c.chatTitle, "", "", "");
    AbsorbMore(NOTHING_READ, [e1], NOTHING_READ, e2);
    ReadMetadataCaptions(r2, "", TopicOf(c), "", "");
    AbsorbMore(NOTHING_READ, [e1] + [e2], r2, e3);
    ReadMetadataCaptions(r3, "", "", c.category, "");
    AbsorbMore(NOTHING_READ, [e1] + [e2] + [e3], r3, e4);
    ReadMetadataCaptions(r4, "", "", "", confidence);
    AbsorbMore(NOTHING_READ, [e1] + [e2] + [e3] + [e4], r4, e6);
  }

  // ----- All blocks -----

  lemma ItemBlocksNotEmpty(item: ChainItem)
    ensures NoneEmpty(ItemBlocks(item))
  {
  }

  lemma NoneEmptyConcat(a: seq<string>, b: seq<string>)
    requires NoneEmpty(a) && NoneEmpty(b)
    ensures NoneEmpty(a + b)
  {
  }

  lemma {:induction false} ChainBlocksNotEmpty(items: seq<ChainItem>)
    ensures NoneEmpty(ChainBlocks(items))
  {
    if items != [] {
      var init, last := items[..|items| - 1], items[|items| - 1];
      ChainBlocksNotEmpty(init);
      ItemBlocksNotEmpty(last);
      NoneEmptyConcat(ChainBlocks(init), ItemBlocks(last));
    }
  }

  lemma BlocksAreValid(c: Content)
    ensures NoneEmpty(Blocks(c)) && AllValid(Blocks(c))
    ensures EventsOf(Blocks(c)) == Followed(MetadataEvents(c), BLANK_LINE) + EventsOf(ChainBlocks(ByPosition(c.chain)))
  {
    var items := ByPosition(c.chain);
    ChainBlocksNotEmpty(items);
    MetadataContains(c);
    SingleBlock(RenderMetadata(c), MetadataEvents(c));
    ChainBlocksContain(items, NOTHING_READ);
    AllValidConcat([RenderMetadata(c)], ChainBlocks(items));
  }

  lemma BlocksAreRead(c: Content)
    ensures AbsorbAll(NOTHING_READ, EventsOf(Blocks(c))).seen ==
            Seen(c.chatTitle, TopicOf(c), c.category, ConfidenceText(c.confidence), AllExpected(ByPosition(c.chain)))
  {
    var items, meta := ByPosition(c.chain), Followed(MetadataEvents(c), BLANK_LINE);
    BlocksAreValid(c);
    MetadataIsRead(c);
    var r := AbsorbAll(NOTHING_READ, meta);
    ChainBlocksContain(items, r);
    AbsorbConcat(NOTHING_READ, meta, EventsOf(ChainBlocks(items)));
    assert [] + AllExpected(items) == AllExpected(items);
  }

  // ----- The main results -----

  /**
   * Every part is valid HTML on its own: reading it from a fresh document ends with no open tag
   * and no cut entity.
   */
  lemma EachPartIsValidHtml(c: Content, i: nat)
    requires i < |Texts(c)|
    ensures AtTopLevel(Read(START, Texts(c)[i]))
  {
    BlocksAreValid(c);
    PackedMessagesAreValid(Blocks(c));
    ContainsDetermines(Texts(c)[i], EventsIn(Texts(c)[i]));
  }

  /** Everything that reading all parts in order recovers. */
  function Recovered(c: Content): Seen {
    AbsorbAll(NOTHING_READ, EventsOf(Texts(c))).seen
  }

  lemma PartsAreRead(c: Content)
    ensures Recovered(c) == Seen(c.chatTitle, TopicOf(c), c.category, ConfidenceText(c.confidence), AllExpected(ByPosition(c.chain)))
  {
    BlocksAreValid(c);
    PackedMessagesAreValid(Blocks(c));
    BlocksAreRead(c);
  }

  /**
   * Reading all parts in order recovers, for each item in position order, its number, whether it is
   * the target, its author, its original, and its translation where one is shown.
   */
  lemma PartsRecoverTheChain(c: Content)
    ensures |Recovered(c).items| == |ByPosition(c.chain)|
    ensures forall i :: 0 <= i < |ByPosition(c.chain)| ==> Recovered(c).items[i] == Expected(ByPosition(c.chain)[i])
  {
    PartsAreRead(c);
  }

  /** A confidence is shown as the nearest whole percentage, an exact half going to the even one. */
  ghost predicate ShowsConfidence(shown: string, confidence: Option<nat>) {
    match confidence
    case None => shown == "—"
    case Some(tenThousandths) =>
      && shown != "" && shown[|shown| - 1] == '%'
      && var percent := ParseDigits(shown[..|shown| - 1]);
      && percent.Some?
      && -50 <= 100 * percent.value - tenThousandths <= 50
      && (tenThousandths % 100 == 50 ==> percent.value % 2 == 0)
  }

  lemma ConfidenceIsShown(confidence: Option<nat>)
    ensures ShowsConfidence(ConfidenceText(confidence), confidence)
  {
    if confidence.Some? {
      var digits := Decimal(Percentage(confidence.value));
      DecimalIsRead(Percentage(confidence.value));
      assert (digits + "%")[..|digits + "%"| - 1] == digits;
    }
  }

  /** It also recovers the chat, the topic or that there is none, the category and the confidence. */
  lemma PartsRecoverTheMetadata(c: Content)
    ensures var seen := Recovered(c);
            && seen.chat == c.chatTitle
            && seen.topic == (if c.topicTitle.Some? && c.topicTitle.value != "" then c.topicTitle.value else "Без темы")
            && seen.category == c.category
            && ShowsConfidence(seen.confidence, c.confidence)
  {
    PartsAreRead(c);
    ConfidenceIsShown(c.confidence);
  }

  // ----- Sizes -----

  /** The column limits of the stored question and its chain (app/database/models/entities.py). */
  ghost predicate WithinColumns(c: Content) {
    && |c.chatTitle| <= 255
    && (c.topicTitle.Some? ==> |c.topicTitle.value| <= 255)
    && |c.category| <= 30
    && (c.confidence.Some? ==> c.confidence.value < 100000)
    && forall item :: item in c.chain ==>
         0 <= item.position <= 9 && (item.author.Some? ==> |item.author.value| <= 255)
  }

  lemma MetadataFits(c: Content)
    requires WithinColumns(c)
    ensures |RenderMetadata(c)| <= LIMIT
  {
    EscapedTextLength(c.chatTitle);
    EscapedTextLength(OrElse(c.topicTitle, "Без темы"));
    EscapedTextLength(c.category);
  }

  lemma HeadingFits(item: ChainItem)
    requires 0 <= item.position <= 9 && (item.author.Some? ==> |item.author.value| <= 255)
    ensures |Heading(item)| <= LIMIT
  {
    EscapedTextLength(OrElse(item.author, "Неизвестный автор"));
  }

  ghost predicate AllFit(blocks: seq<string>) {
    forall i :: 0 <= i < |blocks| ==> |blocks[i]| <= LIMIT
  }

  lemma TextBlocksFit(caption: string, text: string)
    requires PayloadLimit(caption) >= 6
    ensures AllFit(TextBlocks(caption, Pieces(text, PayloadLimit(caption))))
  {
    var limit := PayloadLimit(caption);
    var pieces := Pieces(text, limit);
    forall i | 0 <= i < |pieces| ensures |TextBlock(caption, EscapeText(pieces[i]))| <= LIMIT {
      ChunksFit(text, limit, pieces[i]);
    }
  }

  lemma ItemBlocksFit(item: ChainItem)
    requires 0 <= item.position <= 9 && (item.author.Some? ==> |item.author.value| <= 255)
    ensures AllFit(ItemBlocks(item))
  {
    LabelSizes();
    HeadingFits(item);
    TextBlocksFit(ORIGINAL, item.original);
    if Shown(item).Some? {
      TextBlocksFit(TRANSLATION, Shown(item).value);
    }
  }

  lemma {:induction false} ChainBlocksFit(items: seq<ChainItem>)
    requires forall i :: 0 <= i < |items| ==>
               0 <= items[i].position <= 9 && (items[i].author.Some? ==> |items[i].author.value| <= 255)
    ensures AllFit(ChainBlocks(items))
  {
    if items != [] {
      ChainBlocksFit(items[..|items| - 1]);
      ItemBlocksFit(items[|items| - 1]);
    }
  }

  lemma BlocksFit(c: Content)
    requires WithinColumns(c)
    ensures AllFit(Blocks(c))
  {
    var items := ByPosition(c.chain);
    ByPositionSorts(c.chain);
    forall i | 0 <= i < |items|
      ensures 0 <= items[i].position <= 9 && (items[i].author.Some? ==> |items[i].author.value| <= 255)
    {
      assert items[i] in multiset(items);
      assert items[i] in c.chain;
    }
    MetadataFits(c);
    ChainBlocksFit(items);
  }

  /** Within the column limits every part fits one Telegram message, and there is at least one. */
  lemma EveryPartFits(c: Content)
    requires WithinColumns(c)
    ensures |Texts(c)| >= 1
    ensures forall i :: 0 <= i < |Texts(c)| ==> 0 < |Texts(c)[i]| <= 4096
  {
    var blocks := Blocks(c);
    BlocksFit(c);
    BlocksAreValid(c);
    PackingIsGreedy(blocks);
    forall i | 0 <= i < |Texts(c)| ensures 0 < |Texts(c)[i]| <= LIMIT {
      MessagesFit(blocks, Texts(c)[i]);
    }
  }
}
