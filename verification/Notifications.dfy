/** Rendering of operator notifications as bounded, independently valid HTML (app/bot/notifications.py). */
module Notifications {
  import opened Wrappers
  import opened GreedyGroups
  import opened HtmlReader

  const LIMIT := 4096

  datatype ChainItem = ChainItem(
    position: int, author: Option<string>, original: string, translated: Option<string>, isTarget: bool
  )

  /** Confidence is stored with four decimals: `confidence` is in ten-thousandths. */
  datatype Content = Content(
    chatTitle: string, topicTitle: Option<string>, category: string, confidence: Option<nat>, chain: seq<ChainItem>
  )

  datatype Part = Part(text: string, hasControls: bool)

  // ----- Escaping -----

  function Escape(c: char): string {
    match c
    case '&' => "&" + "amp" + ";"
    case '<' => "&" + "lt" + ";"
    case '>' => "&" + "gt" + ";"
    case '"' => "&" + "quot" + ";"
    case '\'' => "&" + "#x27" + ";"
    case _ => [c]
  }

  function EscapeText(s: string): string {
    if s == "" then "" else EscapeText(s[..|s| - 1]) + Escape(s[|s| - 1])
  }

  function EscapedLength(c: char): (n: nat)
    ensures 1 <= n <= 6
  {
    |Escape(c)|
  }

  /** One escaped character decodes to itself and opens no tag. */
  lemma EscapeSpells(c: char)
    ensures Spells(Escape(c), [c])
  {
    if c in {'&', '<', '>', '"', '\''} {
      var name := match c
        case '&' => "amp"
        case '<' => "lt"
        case '>' => "gt"
        case '"' => "quot"
        case _ => "#x27";
      forall r ensures SpellsFrom(r, Escape(c), [c]) {
        if InElementText(r) {
          ReadEntity(r, name);
          DecodesTo(r, c, name);
        }
      }
    } else {
      LiteralSpellsItself([c]);
    }
  }

  lemma DecodesTo(r: Reader, c: char, name: string)
    requires InElementText(r)
    requires (c, name) in {('&', "amp"), ('<', "lt"), ('>', "gt"), ('"', "quot"), ('\'', "#x27")}
    ensures Decoded(r, name) == Put(r, [c])
  {
  }

  /** Escaped content decodes to the content, whatever it was, and contributes no tag. */
  lemma {:induction false} EscapedTextSpells(s: string)
    ensures Spells(EscapeText(s), s)
  {
    if s == "" {
      LiteralSpellsItself("");
    } else {
      EscapedTextSpells(s[..|s| - 1]);
      EscapeSpells(s[|s| - 1]);
      SpellsConcat(EscapeText(s[..|s| - 1]), s[..|s| - 1], Escape(s[|s| - 1]), [s[|s| - 1]]);
      assert s == s[..|s| - 1] + [s[|s| - 1]];
    }
  }

  lemma {:induction false} EscapedTextLength(s: string)
    ensures |EscapeText(s)| <= 6 * |s|
    ensures |EscapeText(s)| == Cost(EscapedLength, 0, s)
  {
    if |s| == 1 {
      assert EscapeText(s[..0]) == "";
    } else if s != "" {
      EscapedTextLength(s[..|s| - 1]);
    }
  }

  // ----- Splitting one long text -----

  /** The raw pieces of `text`, each to become one blockquote. */
  function Pieces(text: string, limit: nat): (pieces: seq<string>)
    ensures pieces != []
  {
    if text == "" then [""] else Group(EscapedLength, 0, limit, text).All()
  }

  function EscapeAll(pieces: seq<string>): (r: seq<string>)
    ensures |r| == |pieces|
    ensures forall i :: 0 <= i < |r| ==> r[i] == EscapeText(pieces[i])
  {
    seq(|pieces|, i requires 0 <= i < |pieces| => EscapeText(pieces[i]))
  }

  lemma EscapeAllSnoc(pieces: seq<string>, piece: string)
    ensures EscapeAll(pieces + [piece]) == EscapeAll(pieces) + [EscapeText(piece)]
  {
  }

  lemma EscapeTextSnoc(s: string, c: char)
    ensures EscapeText(s + [c]) == EscapeText(s) + Escape(c)
  {
    assert (s + [c])[..|s|] == s;
  }

  lemma EscapeTextNotEmpty(s: string)
    requires s != ""
    ensures EscapeText(s) != ""
  {
    assert |Escape(s[|s| - 1])| >= 1;
  }

  /** One step of the grouping, seen through escaping. */
  lemma {:induction false} FeedEscaped(g: Grouping<char>, c: char, limit: nat)
    ensures var n, closes := Feed(EscapedLength, 0, limit, g, c), g.current != [] && |EscapeText(g.current)| + |Escape(c)| > limit;
            && EscapeAll(n.closed) == EscapeAll(g.closed) + (if closes then [EscapeText(g.current)] else [])
            && EscapeText(n.current) == (if closes then "" else EscapeText(g.current)) + Escape(c)
    ensures g.current != [] ==> EscapeText(g.current) != ""
  {
    EscapedTextLength(g.current);
    EscapeAllSnoc(g.closed, g.current);
    EscapeTextSnoc(g.current, c);
    EscapeTextSnoc("", c);
    assert "" + [c] == [c];
    if g.current != [] {
      EscapeTextNotEmpty(g.current);
    }
  }

  lemma {:induction false} GroupGrows(text: string, i: nat, limit: nat)
    requires i < |text|
    ensures Group(EscapedLength, 0, limit, text[..i + 1]) ==
            Feed(EscapedLength, 0, limit, Group(EscapedLength, 0, limit, text[..i]), text[i])
  {
    assert text[..i + 1][..i] == text[..i];
  }

  lemma EscapedGroups(g: Grouping<char>)
    ensures EscapeAll(g.All()) == EscapeAll(g.closed) + (if EscapeText(g.current) == "" then [] else [EscapeText(g.current)])
  {
  }

  method SplitEscapedText(text: string, limit: nat) returns (chunks: seq<string>)
    ensures chunks == EscapeAll(Pieces(text, limit))
  {
    if text == "" {
      return [""];
    }
    chunks := [];
    var current := "";
    var currentLength := 0;
    ghost var g := Group(EscapedLength, 0, limit, text[..0]);
    for i := 0 to |text|
      invariant g == Group(EscapedLength, 0, limit, text[..i])
      invariant chunks == EscapeAll(g.closed) && current == EscapeText(g.current)
      invariant currentLength == |current|
    {
      var escaped := Escape(text[i]);
      GroupGrows(text, i, limit);
      FeedEscaped(g, text[i], limit);
      if current != "" && currentLength + |escaped| > limit {
        chunks := chunks + [current];
        current := "";
        currentLength := 0;
      }
      current := current + escaped;
      currentLength := currentLength + |escaped|;
      g := Feed(EscapedLength, 0, limit, g, text[i]);
    }
    assert text[..|text|] == text;
    EscapedGroups(g);
    if current != "" {
      chunks := chunks + [current];
    }
  }

  /** The chunks of a text lose and reorder nothing. */
  lemma PiecesAreLossless(text: string, limit: nat)
    ensures Flatten(Pieces(text, limit)) == text
  {
    if text == "" {
      assert Flatten([""]) == "";
    } else {
      GroupingIsLossless(EscapedLength, 0, limit, text);
      var g := Group(EscapedLength, 0, limit, text);
      FlattenSnoc(g.closed, g.current);
    }
  }

  /** Every chunk fits once escaped, provided any single character does. */
  lemma ChunksFit(text: string, limit: nat, piece: string)
    requires limit >= 6 && piece in Pieces(text, limit)
    ensures |EscapeText(piece)| <= limit
  {
    EscapedTextLength(piece);
    if text != "" {
      GroupsFit(EscapedLength, 0, limit, text);
    }
  }

  /** No way of cutting the text into chunks that fit uses fewer of them. */
  lemma {:induction false} SplitIsMinimal(text: string, limit: nat, cut: seq<string>)
    requires text != "" && Flatten(cut) == text
    requires forall piece :: piece in cut ==> piece != "" && |EscapeText(piece)| <= limit
    ensures |EscapeAll(Pieces(text, limit))| <= |cut|
  {
    forall piece | piece in cut ensures Fits(EscapedLength, 0, limit, piece) {
      EscapedTextLength(piece);
    }
    GreedyIsMinimal(EscapedLength, 0, limit, text, cut);
  }

  // ----- Packing blocks into messages -----

  datatype Packing = Packing(messages: seq<string>, current: string) {
    function Done(): seq<string> {
      if current == "" then messages else messages + [current]
    }
  }

  function Pack(p: Packing, block: string): Packing {
    if p.current == "" then p.(current := block)
    else if |p.current| + 2 + |block| > LIMIT then Packing(p.messages + [p.current], block)
    else p.(current := p.current + "\n\n" + block)
  }

  function PackAll(blocks: seq<string>): Packing {
    if blocks == [] then Packing([], "") else Pack(PackAll(blocks[..|blocks| - 1]), blocks[|blocks| - 1])
  }

  method PackBlocks(blocks: seq<string>) returns (messages: seq<string>)
    ensures messages == PackAll(blocks).Done()
  {
    messages := [];
    var current := "";
    for i := 0 to |blocks|
      invariant Packing(messages, current) == PackAll(blocks[..i])
    {
      assert blocks[..i + 1][..i] == blocks[..i];
      var block := blocks[i];
      var separator := if current != "" then "\n\n" else "";
      if current != "" && |current| + |separator| + |block| > LIMIT {
        messages := messages + [current];
        current := block;
      } else {
        assert current == "" ==> current + separator + block == block;
        current := current + separator + block;
      }
    }
    assert blocks[..|blocks|] == blocks;
    if current != "" {
      messages := messages + [current];
    }
  }

  function BlockLength(block: string): nat {
    |block|
  }

  function JoinBlocks(blocks: seq<string>): string {
    if blocks == [] then ""
    else if |blocks| == 1 then blocks[0]
    else JoinBlocks(blocks[..|blocks| - 1]) + "\n\n" + blocks[|blocks| - 1]
  }

  function JoinAll(groups: seq<seq<string>>): (r: seq<string>)
    ensures |r| == |groups|
    ensures forall i :: 0 <= i < |r| ==> r[i] == JoinBlocks(groups[i])
  {
    seq(|groups|, i requires 0 <= i < |groups| => JoinBlocks(groups[i]))
  }

  lemma JoinAllSnoc(groups: seq<seq<string>>, g: seq<string>)
    ensures JoinAll(groups + [g]) == JoinAll(groups) + [JoinBlocks(g)]
  {
  }

  lemma JoinBlocksSnoc(blocks: seq<string>, b: string)
    ensures JoinBlocks(blocks + [b]) == if blocks == [] then b else JoinBlocks(blocks) + "\n\n" + b
  {
  }

  lemma {:induction false} JoinedLength(blocks: seq<string>)
    ensures |JoinBlocks(blocks)| == Cost(BlockLength, 2, blocks)
  {
    if |blocks| > 1 {
      JoinedLength(blocks[..|blocks| - 1]);
    }
  }

  ghost predicate NoneEmpty(blocks: seq<string>) {
    forall i :: 0 <= i < |blocks| ==> blocks[i] != ""
  }

  lemma JoinNotEmpty(blocks: seq<string>)
    requires blocks != [] && NoneEmpty(blocks)
    ensures JoinBlocks(blocks) != ""
  {
  }

  /** With no empty block, the packing is the greedy grouping of the blocks. */
  lemma {:induction false} PackingIsGreedy(blocks: seq<string>)
    requires NoneEmpty(blocks)
    ensures var p, g := PackAll(blocks), Group(BlockLength, 2, LIMIT, blocks);
            p.messages == JoinAll(g.closed) && p.current == JoinBlocks(g.current)
    ensures PackAll(blocks).Done() == JoinAll(Group(BlockLength, 2, LIMIT, blocks).All())
    ensures NoneEmpty(Group(BlockLength, 2, LIMIT, blocks).current)
  {
    if blocks != [] {
      var init, b := blocks[..|blocks| - 1], blocks[|blocks| - 1];
      PackingIsGreedy(init);
      var g := Group(BlockLength, 2, LIMIT, init);
      JoinedLength(g.current);
      JoinAllSnoc(g.closed, g.current);
      JoinBlocksSnoc(g.current, b);
      if g.current != [] {
        JoinNotEmpty(g.current);
      }
      var after := Group(BlockLength, 2, LIMIT, blocks);
      JoinNotEmpty(after.current);
      JoinAllSnoc(after.closed, after.current);
    }
  }

  lemma PackExtends(p: Packing, b: string)
    requires p.current != "" && b != ""
    ensures JoinBlocks(Pack(p, b).Done()) == JoinBlocks(p.Done()) + "\n\n" + b
  {
  }

  lemma {:induction false} PackingIsOpen(blocks: seq<string>)
    requires blocks != [] && NoneEmpty(blocks)
    ensures PackAll(blocks).current != ""
  {
  }

  /** Joining the messages back gives the joined blocks: packing loses and reorders nothing. */
  lemma {:induction false} PackingIsLossless(blocks: seq<string>)
    requires NoneEmpty(blocks)
    ensures JoinBlocks(PackAll(blocks).Done()) == JoinBlocks(blocks)
  {
    if |blocks| == 1 {
      assert PackAll(blocks[..0]) == Packing([], "");
      assert PackAll(blocks).Done() == [blocks[0]];
    } else if blocks != [] {
      var init, b := blocks[..|blocks| - 1], blocks[|blocks| - 1];
      PackingIsLossless(init);
      PackingIsOpen(init);
      PackExtends(PackAll(init), b);
    }
  }

  /** Every message fits when every block does. */
  lemma {:induction false} MessagesFit(blocks: seq<string>, message: string)
    requires NoneEmpty(blocks) && forall i :: 0 <= i < |blocks| ==> |blocks[i]| <= LIMIT
    requires message in PackAll(blocks).Done()
    ensures 0 < |message| <= LIMIT
  {
    PackingIsGreedy(blocks);
    GroupsFit(BlockLength, 2, LIMIT, blocks);
    var groups := Group(BlockLength, 2, LIMIT, blocks).All();
    var i :| 0 <= i < |groups| && JoinAll(groups)[i] == message;
    assert groups[i] in groups;
    JoinedLength(groups[i]);
    GroupBlocks(BlockLength, 2, blocks, i);
    JoinNotEmpty(groups[i]);
  }

  lemma GroupBlocks(w: string -> nat, gap: nat, blocks: seq<string>, i: nat)
    requires i < |Group(w, gap, LIMIT, blocks).All()| && NoneEmpty(blocks)
    ensures NoneEmpty(Group(w, gap, LIMIT, blocks).All()[i])
  {
  }

  lemma {:induction false} FlattenMembers(groups: seq<seq<string>>, i: nat)
    requires i < |groups|
    ensures forall b :: b in groups[i] ==> b in Flatten(groups)
  {
    if i < |groups| - 1 {
      FlattenMembers(groups[..|groups| - 1], i);
    }
  }

  /** No admissible packing of the same blocks, in order, uses fewer messages. */
  lemma {:induction false} PackingIsMinimal(blocks: seq<string>, groups: seq<seq<string>>)
    requires NoneEmpty(blocks) && Flatten(groups) == blocks
    requires forall g :: g in groups ==> g != [] && |JoinBlocks(g)| <= LIMIT
    ensures |PackAll(blocks).Done()| <= |groups|
  {
    PackingIsGreedy(blocks);
    forall g | g in groups ensures Fits(BlockLength, 2, LIMIT, g) {
      JoinedLength(g);
    }
    GreedyIsMinimal(BlockLength, 2, LIMIT, blocks, groups);
  }
}
