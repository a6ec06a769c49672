/** The whole notification, from its content to its parts (app/bot/notifications.py, `render_notification`). */
module NotificationRendering {
  import opened Wrappers
  import opened HtmlReader
  import opened Notifications

  /** The tags are the two that Telegram shows as bold text and as a quotation. */
  lemma TagsAreWritten(s: string)
    ensures Element(B, s) == "<b>" + s + "</b>"
    ensures Element(Blockquote, s) == "<blockquote>" + s + "</blockquote>"
  {
    assert "<" + "b" + ">" == "<b>" && "<" + ("/" + "b") + ">" == "</b>";
    assert "<" + "blockquote" + ">" == "<blockquote>" && "<" + ("/" + "blockquote") + ">" == "</blockquote>";
  }

  // ----- Numbers -----

  function Decimal(n: nat): (s: string)
    ensures '<' !in s && '&' !in s
    ensures |s| >= 1
    ensures n < 10 ==> |s| == 1
    ensures n < 100 ==> |s| <= 2
    ensures n < 10000 ==> |s| <= 4
    decreases n
  {
    if n < 10 then ["0123456789"[n]] else Decimal(n / 10) + ["0123456789"[n % 10]]
  }

  function SignedDecimal(n: int): (s: string)
    ensures '<' !in s && '&' !in s
    ensures 0 <= n < 100 ==> |s| <= 2
  {
    if n < 0 then "-" + Decimal(-n) else Decimal(n)
  }

  /** A confidence in ten-thousandths as a whole percentage, ties to even. */
  function Percentage(confidence: nat): (percent: nat)
    ensures -50 <= 100 * percent - confidence <= 50
    ensures confidence % 100 == 50 ==> percent % 2 == 0
  {
    var whole, rest := confidence / 100, confidence % 100;
    if rest > 50 || (rest == 50 && whole % 2 == 1) then whole + 1 else whole
  }

  // ----- Blocks -----

  const ORIGINAL := "Оригинал:"
  const TRANSLATION := "Перевод:"
  const AUTHOR := "Автор:"

  function OrElse(o: Option<string>, fallback: string): string {
    if o.Some? && o.value != "" then o.value else fallback
  }

  function Labelled(caption: string, rest: string): string {
    Element(B, caption) + " " + rest
  }

  function ConfidenceText(confidence: Option<nat>): string {
    if confidence.None? then "—" else Decimal(Percentage(confidence.value)) + "%"
  }

  function RenderMetadata(c: Content): string {
    Element(B, "Новый вопрос")
    + ("\n" + Labelled("Чат:", EscapeText(c.chatTitle)))
    + ("\n" + Labelled("Тема:", EscapeText(OrElse(c.topicTitle, "Без темы"))))
    + ("\n" + Labelled("Категория:", EscapeText(c.category)))
    + ("\n" + Labelled("Уверенность:", ConfidenceText(c.confidence)))
  }

  function TextBlock(caption: string, chunk: string): string {
    Element(B, caption) + "\n" + Element(Blockquote, chunk)
  }

  function PayloadLimit(caption: string): int {
    LIMIT - |TextBlock(caption, "")|
  }

  function TextBlocks(caption: string, pieces: seq<string>): (blocks: seq<string>)
    ensures |blocks| == |pieces|
    ensures forall i :: 0 <= i < |pieces| ==> blocks[i] == TextBlock(caption, EscapeText(pieces[i]))
  {
    seq(|pieces|, i requires 0 <= i < |pieces| => TextBlock(caption, EscapeText(pieces[i])))
  }

  method RenderTextBlocks(caption: string, text: string) returns (blocks: seq<string>)
    requires PayloadLimit(caption) >= 0
    ensures blocks == TextBlocks(caption, Pieces(text, PayloadLimit(caption)))
  {
    var chunks := SplitEscapedText(text, PayloadLimit(caption));
    blocks := seq(|chunks|, i requires 0 <= i < |chunks| => TextBlock(caption, chunks[i]));
  }

  function TargetMarker(isTarget: bool): (s: string)
    ensures '<' !in s && '&' !in s
  {
    if isTarget then " • целевое сообщение" else ""
  }

  function HeadingTitle(item: ChainItem): (s: string)
    ensures '<' !in s && '&' !in s
    ensures s != "" && s[0] == 'С'
  {
    "Сообщение " + SignedDecimal(item.position + 1) + TargetMarker(item.isTarget)
  }

  function Heading(item: ChainItem): string {
    Element(B, HeadingTitle(item)) + ("\n" + Labelled(AUTHOR, EscapeText(OrElse(item.author, "Неизвестный автор"))))
  }

  /** The translation that is shown: one that exists and differs from the original. */
  function Shown(item: ChainItem): Option<string> {
    if item.translated.Some? && item.translated.value != item.original then item.translated else None
  }

  lemma LabelSizes()
    ensures PayloadLimit(ORIGINAL) == 4054 && PayloadLimit(TRANSLATION) == 4055
  {
  }

  function TranslationBlocks(item: ChainItem): seq<string> {
    LabelSizes();
    if Shown(item).Some? then TextBlocks(TRANSLATION, Pieces(Shown(item).value, PayloadLimit(TRANSLATION)))
    else [Labelled(TRANSLATION, "недоступен")]
  }

  function ItemBlocks(item: ChainItem): seq<string> {
    LabelSizes();
    [Heading(item)] + TextBlocks(ORIGINAL, Pieces(item.original, PayloadLimit(ORIGINAL))) + TranslationBlocks(item)
  }

  method RenderChainItem(item: ChainItem) returns (blocks: seq<string>)
    ensures blocks == ItemBlocks(item)
  {
    LabelSizes();
    blocks := [Heading(item)];
    var original := RenderTextBlocks(ORIGINAL, item.original);
    blocks := blocks + original;
    if item.translated != None && item.translated.value != item.original {
      var translation := RenderTextBlocks(TRANSLATION, item.translated.value);
      blocks := blocks + translation;
    } else {
      blocks := blocks + [Labelled(TRANSLATION, "недоступен")];
    }
  }

  // ----- Ordering by position: Python's stable `sorted` -----

  function InsertByPosition(item: ChainItem, rest: seq<ChainItem>): seq<ChainItem> {
    if rest == [] || item.position <= rest[0].position then [item] + rest
    else [rest[0]] + InsertByPosition(item, rest[1..])
  }

  function ByPosition(chain: seq<ChainItem>): seq<ChainItem> {
    if chain == [] then [] else InsertByPosition(chain[0], ByPosition(chain[1..]))
  }

  ghost predicate Sorted(items: seq<ChainItem>) {
    forall i, j :: 0 <= i < j < |items| ==> items[i].position <= items[j].position
  }

  lemma {:induction false} InsertKeepsSorted(item: ChainItem, rest: seq<ChainItem>)
    requires Sorted(rest)
    ensures Sorted(InsertByPosition(item, rest))
    ensures forall x :: x in InsertByPosition(item, rest) ==> x == item || x in rest
  {
    if rest != [] && item.position > rest[0].position {
      InsertKeepsSorted(item, rest[1..]);
      assert forall x :: x in rest[1..] ==> x.position >= rest[0].position;
    }
  }

  lemma {:induction false} InsertAddsOne(item: ChainItem, rest: seq<ChainItem>)
    ensures multiset(InsertByPosition(item, rest)) == multiset(rest) + multiset{item}
  {
    if rest != [] {
      assert rest == [rest[0]] + rest[1..];
      if item.position > rest[0].position {
        InsertAddsOne(item, rest[1..]);
      }
    }
  }

  /** The rendered order is the chain's, sorted by position, with nothing added or dropped. */
  lemma {:induction false} ByPositionSorts(chain: seq<ChainItem>)
    ensures Sorted(ByPosition(chain)) && multiset(ByPosition(chain)) == multiset(chain)
  {
    if chain != [] {
      ByPositionSorts(chain[1..]);
      InsertKeepsSorted(chain[0], ByPosition(chain[1..]));
      InsertAddsOne(chain[0], ByPosition(chain[1..]));
      assert chain == [chain[0]] + chain[1..];
    }
  }

  // ----- The whole notification -----

  function ChainBlocks(items: seq<ChainItem>): seq<string> {
    if items == [] then [] else ChainBlocks(items[..|items| - 1]) + ItemBlocks(items[|items| - 1])
  }

  function Blocks(c: Content): seq<string> {
    [RenderMetadata(c)] + ChainBlocks(ByPosition(c.chain))
  }

  function Texts(c: Content): seq<string> {
    PackAll(Blocks(c)).Done()
  }

  lemma ChainBlocksGrow(items: seq<ChainItem>, i: nat)
    requires i < |items|
    ensures ChainBlocks(items[..i + 1]) == ChainBlocks(items[..i]) + ItemBlocks(items[i])
  {
    assert items[..i + 1][..i] == items[..i];
  }

  method RenderChain(items: seq<ChainItem>) returns (blocks: seq<string>)
    ensures blocks == ChainBlocks(items)
  {
    blocks := [];
    var i := 0;
    while i < |items|
      invariant 0 <= i <= |items|
      invariant blocks == ChainBlocks(items[..i])
    {
      var more := RenderChainItem(items[i]);
      ChainBlocksGrow(items, i);
      blocks := blocks + more;
      i := i + 1;
    }
    assert items[..|items|] == items;
  }

  method RenderNotification(c: Content) returns (parts: seq<Part>)
    ensures |parts| == |Texts(c)|
    ensures forall i :: 0 <= i < |parts| ==> parts[i] == Part(Texts(c)[i], i == |parts| - 1)
  {
    var chain := RenderChain(ByPosition(c.chain));
    var texts := PackBlocks([RenderMetadata(c)] + chain);
    parts := seq(|texts|, i requires 0 <= i < |texts| => Part(texts[i], i == |texts| - 1));
  }
}
