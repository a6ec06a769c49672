/** The JSON hand-off of a loaded chain (app/listener/reply_chain.py) and its Stage-2 rendering. */
module ReplyChainSnapshots {
  import opened Wrappers
  import opened Calendar
  import opened ReplyChains

  /** Object keys; every key the snapshot does not know is `Extra`. */
  datatype FieldName =
    | ChatIdKey | ItemsKey | TopicTitleKey | StopReasonKey
    | MessageIdKey | ReplyToKey | TopicIdKey | ReplyToTopKey | AuthorIdKey | AuthorNameKey
    | CreatedAtKey | TextKey | IsTargetKey | IsUnavailableKey
    | Extra(name: string)

  datatype Json =
    | JNull
    | JBool(flag: bool)
    | JInt(number: int)
    | JString(text: string)
    | JArray(elements: seq<Json>)
    | JObject(fields: map<FieldName, Json>)

  // ----- Leaves -----

  function IntJson(o: Option<int>): Json {
    if o.Some? then JInt(o.value) else JNull
  }

  function ReadInt(j: Json): Option<Option<int>> {
    match j
    case JNull => Some(None)
    case JInt(n) => Some(Some(n))
    case _ => None
  }

  function StringJson(o: Option<string>): Json {
    if o.Some? then JString(o.value) else JNull
  }

  function ReadString(j: Json): Option<Option<string>> {
    match j
    case JNull => Some(None)
    case JString(s) => Some(Some(s))
    case _ => None
  }

  function TimeJson(o: Option<DateTime>): Json {
    if o.Some? then JString(FormatIso(o.value)) else JNull
  }

  function ReadTime(j: Json): Option<Option<DateTime>> {
    match j
    case JNull => Some(None)
    case JString(s) => var t := ParseIso(s); if t.Some? then Some(t) else None
    case _ => None
  }

  function StopName(r: StopReason): string {
    match r
    case MissingParent => "missing_parent"
    case CrossChatParent => "cross_chat_parent"
    case CrossTopicParent => "cross_topic_parent"
    case Cycle => "cycle"
    case MaxDepth => "max_depth"
  }

  function StopJson(o: Option<StopReason>): Json {
    if o.Some? then JString(StopName(o.value)) else JNull
  }

  function ReadStop(j: Json): Option<Option<StopReason>> {
    match j
    case JNull => Some(None)
    case JString(s) =>
      if s == "missing_parent" then Some(Some(MissingParent))
      else if s == "cross_chat_parent" then Some(Some(CrossChatParent))
      else if s == "cross_topic_parent" then Some(Some(CrossTopicParent))
      else if s == "cycle" then Some(Some(Cycle))
      else if s == "max_depth" then Some(Some(MaxDepth))
      else None
    case _ => None
  }

  lemma StopRoundTrip(o: Option<StopReason>)
    ensures ReadStop(StopJson(o)) == Some(o)
  {
  }

  // ----- Items -----

  const ITEM_KEYS: set<FieldName> :=
    {MessageIdKey, ReplyToKey, TopicIdKey, ReplyToTopKey, AuthorIdKey, AuthorNameKey, CreatedAtKey, TextKey,
     IsTargetKey, IsUnavailableKey}

  const CHAIN_KEYS: set<FieldName> :=
    {ChatIdKey, ItemsKey, TopicIdKey, ReplyToTopKey, TopicTitleKey, StopReasonKey}

  function SerializeItem(i: Item): Json {
    JObject(map[
      MessageIdKey := JInt(i.messageId),
      ReplyToKey := IntJson(i.replyTo),
      TopicIdKey := IntJson(i.topicId),
      ReplyToTopKey := IntJson(i.replyToTop),
      AuthorIdKey := IntJson(i.authorId),
      AuthorNameKey := StringJson(i.authorName),
      CreatedAtKey := TimeJson(i.createdAt),
      TextKey := StringJson(i.text),
      IsTargetKey := JBool(i.isTarget),
      IsUnavailableKey := JBool(i.isUnavailable)])
  }

  /** Validation of one item: exactly the known keys, each of its declared type. */
  function DeserializeItem(j: Json): Option<Item> {
    if !j.JObject? || j.fields.Keys != ITEM_KEYS then None
    else
      var f := j.fields;
      if !f[MessageIdKey].JInt? || !f[IsTargetKey].JBool? || !f[IsUnavailableKey].JBool? then None
      else
        var replyTo, topic, top, author :=
          ReadInt(f[ReplyToKey]), ReadInt(f[TopicIdKey]), ReadInt(f[ReplyToTopKey]), ReadInt(f[AuthorIdKey]);
        var name, created, text := ReadString(f[AuthorNameKey]), ReadTime(f[CreatedAtKey]), ReadString(f[TextKey]);
        if replyTo.None? || topic.None? || top.None? || author.None? || name.None? || created.None? || text.None? then None
        else Some(Item(f[MessageIdKey].number, replyTo.value, topic.value, top.value, author.value, name.value,
                       created.value, text.value, f[IsTargetKey].flag, f[IsUnavailableKey].flag))
  }

  lemma ItemFields(i: Item)
    ensures var f := SerializeItem(i).fields;
            && f.Keys == ITEM_KEYS
            && f[MessageIdKey] == JInt(i.messageId)
            && ReadInt(f[ReplyToKey]) == Some(i.replyTo)
            && ReadInt(f[TopicIdKey]) == Some(i.topicId)
            && ReadInt(f[ReplyToTopKey]) == Some(i.replyToTop)
            && ReadInt(f[AuthorIdKey]) == Some(i.authorId)
            && ReadString(f[AuthorNameKey]) == Some(i.authorName)
            && f[CreatedAtKey] == TimeJson(i.createdAt)
            && ReadString(f[TextKey]) == Some(i.text)
            && f[IsTargetKey] == JBool(i.isTarget)
            && f[IsUnavailableKey] == JBool(i.isUnavailable)
  {
  }

  lemma ItemRoundTrip(i: Item)
    ensures DeserializeItem(SerializeItem(i)) == Some(i)
  {
    if i.createdAt.Some? {
      IsoRoundTrip(i.createdAt.value);
    }
    ItemFields(i);
  }

  function SerializeItems(items: seq<Item>): (js: seq<Json>)
    ensures |js| == |items|
  {
    if items == [] then [] else [SerializeItem(items[0])] + SerializeItems(items[1..])
  }

  function DeserializeItems(js: seq<Json>): Option<seq<Item>> {
    if js == [] then Some([])
    else
      var first, rest := DeserializeItem(js[0]), DeserializeItems(js[1..]);
      if first.Some? && rest.Some? then Some([first.value] + rest.value) else None
  }

  lemma {:induction false} ItemsRoundTrip(items: seq<Item>)
    ensures DeserializeItems(SerializeItems(items)) == Some(items)
  {
    if items != [] {
      ItemRoundTrip(items[0]);
      ItemsRoundTrip(items[1..]);
      assert SerializeItems(items)[1..] == SerializeItems(items[1..]);
      assert items == [items[0]] + items[1..];
    }
  }

  // ----- Chains -----

  function SerializeReplyChain(c: ReplyChain): Json {
    JObject(map[
      ChatIdKey := JInt(c.chatId),
      ItemsKey := JArray(SerializeItems(c.items)),
      TopicIdKey := IntJson(c.topicId),
      ReplyToTopKey := IntJson(c.replyToTop),
      TopicTitleKey := StringJson(c.topicTitle),
      StopReasonKey := StopJson(c.stopReason)])
  }

  function DeserializeReplyChain(j: Json): Option<ReplyChain> {
    if !j.JObject? || j.fields.Keys != CHAIN_KEYS then None
    else
      var f := j.fields;
      if !f[ChatIdKey].JInt? || !f[ItemsKey].JArray? then None
      else
        var items := DeserializeItems(f[ItemsKey].elements);
        var topic, top := ReadInt(f[TopicIdKey]), ReadInt(f[ReplyToTopKey]);
        var title, stop := ReadString(f[TopicTitleKey]), ReadStop(f[StopReasonKey]);
        if items.None? || topic.None? || top.None? || title.None? || stop.None? then None
        else Some(ReplyChain(f[ChatIdKey].number, items.value, topic.value, top.value, title.value, stop.value))
  }

  lemma ChainFields(c: ReplyChain)
    ensures var f := SerializeReplyChain(c).fields;
            && f.Keys == CHAIN_KEYS
            && f[ChatIdKey] == JInt(c.chatId)
            && f[ItemsKey] == JArray(SerializeItems(c.items))
            && ReadInt(f[TopicIdKey]) == Some(c.topicId)
            && ReadInt(f[ReplyToTopKey]) == Some(c.replyToTop)
            && ReadString(f[TopicTitleKey]) == Some(c.topicTitle)
            && f[StopReasonKey] == StopJson(c.stopReason)
  {
  }

  /** Every chain survives the temporary PostgreSQL hand-off unchanged. */
  lemma SnapshotRoundTrip(c: ReplyChain)
    ensures DeserializeReplyChain(SerializeReplyChain(c)) == Some(c)
  {
    ItemsRoundTrip(c.items);
    StopRoundTrip(c.stopReason);
    ChainFields(c);
  }

  /** A snapshot with any key beyond the declared ones is rejected. */
  lemma ExtraKeyIsRejected(c: ReplyChain, name: string, extra: Json)
    ensures DeserializeReplyChain(JObject(SerializeReplyChain(c).fields[Extra(name) := extra])) == None
  {
    assert Extra(name) in SerializeReplyChain(c).fields[Extra(name) := extra].Keys;
  }

  // ----- Only snapshots are accepted -----

  lemma IntInverse(j: Json)
    ensures ReadInt(j).Some? ==> IntJson(ReadInt(j).value) == j
  {
  }

  lemma StringInverse(j: Json)
    ensures ReadString(j).Some? ==> StringJson(ReadString(j).value) == j
  {
  }

  lemma StopInverse(j: Json)
    ensures ReadStop(j).Some? ==> StopJson(ReadStop(j).value) == j
  {
  }

  lemma TimeInverse(j: Json)
    ensures ReadTime(j).Some? ==> TimeJson(ReadTime(j).value) == j
  {
    if j.JString? && ParseIso(j.text).Some? {
      IsoInverse(j.text);
    }
  }

  lemma SameMap<K, V>(a: map<K, V>, b: map<K, V>)
    requires a.Keys == b.Keys && forall k :: k in a.Keys ==> a[k] == b[k]
    ensures a == b
  {
  }

  lemma ItemInverse(j: Json)
    requires DeserializeItem(j).Some?
    ensures SerializeItem(DeserializeItem(j).value) == j
  {
    var f, g := j.fields, SerializeItem(DeserializeItem(j).value).fields;
    IntInverse(f[ReplyToKey]);
    IntInverse(f[TopicIdKey]);
    IntInverse(f[ReplyToTopKey]);
    IntInverse(f[AuthorIdKey]);
    StringInverse(f[AuthorNameKey]);
    TimeInverse(f[CreatedAtKey]);
    StringInverse(f[TextKey]);
    assert g.Keys == ITEM_KEYS;
    SameMap(g, f);
  }

  lemma {:induction false} ItemsInverse(js: seq<Json>)
    requires DeserializeItems(js).Some?
    ensures SerializeItems(DeserializeItems(js).value) == js
  {
    if js != [] {
      ItemInverse(js[0]);
      ItemsInverse(js[1..]);
      var items := DeserializeItems(js).value;
      assert items[1..] == DeserializeItems(js[1..]).value;
      assert js == [js[0]] + js[1..];
    }
  }

  lemma ChainInverse(j: Json)
    requires DeserializeReplyChain(j).Some?
    ensures SerializeReplyChain(DeserializeReplyChain(j).value) == j
  {
    var f, g := j.fields, SerializeReplyChain(DeserializeReplyChain(j).value).fields;
    ItemsInverse(f[ItemsKey].elements);
    IntInverse(f[TopicIdKey]);
    IntInverse(f[ReplyToTopKey]);
    StringInverse(f[TopicTitleKey]);
    StopInverse(f[StopReasonKey]);
    assert g.Keys == CHAIN_KEYS;
    SameMap(g, f);
  }

  /** Validation accepts exactly the serialized chains, and gives each one back. */
  lemma AcceptedExactlyWhenSerialized(j: Json, c: ReplyChain)
    ensures DeserializeReplyChain(j) == Some(c) <==> j == SerializeReplyChain(c)
  {
    SnapshotRoundTrip(c);
    if DeserializeReplyChain(j) == Some(c) {
      ChainInverse(j);
    }
  }

  // ----- Stage-2 input -----

  datatype FormatError = WrongLength | WrongTarget | MissingText

  function TargetCount(items: seq<Item>): nat {
    if items == [] then 0 else (if items[0].isTarget then 1 else 0) + TargetCount(items[1..])
  }

  function Block(i: Item): string
    requires i.isUnavailable || i.text.Some?
  {
    (if i.isTarget then "[TARGET]" else "[CONTEXT]") + "\n"
    + (if i.isUnavailable then "[unavailable message]" else i.text.value)
  }

  predicate Complete(items: seq<Item>) {
    forall i :: 0 <= i < |items| ==> items[i].isUnavailable || items[i].text.Some?
  }

  /** The blocks of `items`, separated by blank lines. */
  function Joined(items: seq<Item>): string
    requires Complete(items)
  {
    if items == [] then ""
    else if |items| == 1 then Block(items[0])
    else Joined(items[..|items| - 1]) + "\n\n" + Block(items[|items| - 1])
  }

  lemma JoinedGrows(items: seq<Item>, k: nat)
    requires k < |items| && Complete(items[..k]) && (items[k].isUnavailable || items[k].text.Some?)
    ensures Complete(items[..k + 1])
    ensures Joined(items[..k + 1]) ==
            if k == 0 then Block(items[k]) else Joined(items[..k]) + "\n\n" + Block(items[k])
  {
    assert items[..k + 1][..k] == items[..k];
    forall i | 0 <= i < k ensures items[i].isUnavailable || items[i].text.Some? {
      assert items[..k][i] == items[i];
    }
  }

  /** What the Stage-2 formatter accepts. */
  predicate Stage2Ready(c: ReplyChain) {
    && 1 <= |c.items| <= 10
    && TargetCount(c.items) == 1
    && c.items[|c.items| - 1].isTarget
    && Complete(c.items)
  }

  // ----- The rendering, described on its own -----

  /** Exactly the last item is the target. */
  ghost predicate EndsInOnlyTarget(items: seq<Item>) {
    forall i :: 0 <= i < |items| ==> (items[i].isTarget <==> i == |items| - 1)
  }

  lemma {:induction false} TargetIsCounted(items: seq<Item>, i: nat)
    requires i < |items| && items[i].isTarget
    ensures TargetCount(items) >= 1
  {
    if i > 0 {
      TargetIsCounted(items[1..], i - 1);
    }
  }

  /** Counting targets finds exactly one, at the end, exactly when the last item is the only target. */
  lemma {:induction false} OneTargetAtEnd(items: seq<Item>)
    requires items != []
    ensures TargetCount(items) == 1 && items[|items| - 1].isTarget <==> EndsInOnlyTarget(items)
  {
    if |items| == 1 {
      assert TargetCount(items[1..]) == 0;
    } else {
      var rest := items[1..];
      OneTargetAtEnd(rest);
      if items[|items| - 1].isTarget {
        TargetIsCounted(rest, |rest| - 1);
      }
      if TargetCount(items) == 1 && items[|items| - 1].isTarget {
        forall i | 0 <= i < |items| ensures items[i].isTarget <==> i == |items| - 1 {
          assert i > 0 ==> items[i] == rest[i - 1];
        }
      }
      if EndsInOnlyTarget(items) {
        assert !items[0].isTarget;
      }
    }
  }

  /** Pieces of text with a blank line between each two. */
  function Paragraphs(pieces: seq<string>): string {
    if pieces == [] then ""
    else if |pieces| == 1 then pieces[0]
    else pieces[0] + "\n\n" + Paragraphs(pieces[1..])
  }

  /** One piece per item, in order: the last one is marked as the target, all others as context. */
  ghost predicate ArePieces(items: seq<Item>, pieces: seq<string>) {
    && |pieces| == |items|
    && forall i :: 0 <= i < |items| ==>
         IsPiece(items[i], if i == |items| - 1 then "[TARGET]\n" else "[CONTEXT]\n", pieces[i])
  }

  predicate IsPiece(item: Item, marker: string, piece: string) {
    if item.isUnavailable then piece == marker + "[unavailable message]"
    else item.text.Some? && piece == marker + item.text.value
  }

  lemma {:induction false} ParagraphsSnoc(pieces: seq<string>, last: string)
    ensures Paragraphs(pieces + [last]) == if pieces == [] then last else Paragraphs(pieces) + "\n\n" + last
  {
    if |pieces| > 1 {
      assert (pieces + [last])[1..] == pieces[1..] + [last];
      ParagraphsSnoc(pieces[1..], last);
    } else if |pieces| == 1 {
      assert (pieces + [last])[1..] == [last];
    }
  }

  lemma BlockIsPiece(item: Item)
    requires item.isUnavailable || item.text.Some?
    ensures IsPiece(item, if item.isTarget then "[TARGET]\n" else "[CONTEXT]\n", Block(item))
  {
    assert "[TARGET]" + "\n" == "[TARGET]\n" && "[CONTEXT]" + "\n" == "[CONTEXT]\n";
  }

  lemma {:induction false} JoinedIsParagraphs(items: seq<Item>) returns (pieces: seq<string>)
    requires Complete(items)
    ensures |pieces| == |items| && Joined(items) == Paragraphs(pieces)
    ensures forall i :: 0 <= i < |items| ==>
              IsPiece(items[i], if items[i].isTarget then "[TARGET]\n" else "[CONTEXT]\n", pieces[i])
  {
    pieces := [];
    if items != [] {
      var init, last := items[..|items| - 1], items[|items| - 1];
      var before := JoinedIsParagraphs(init);
      BlockIsPiece(last);
      ParagraphsSnoc(before, Block(last));
      pieces := before + [Block(last)];
      forall i | 0 <= i < |items|
        ensures IsPiece(items[i], if items[i].isTarget then "[TARGET]\n" else "[CONTEXT]\n", pieces[i])
      {
        assert i < |init| ==> items[i] == init[i];
      }
    }
  }

  method FormatStage2Input(c: ReplyChain) returns (r: Result<string, FormatError>)
    ensures r == Err(WrongLength) <==> !(1 <= |c.items| <= 10)
    ensures r == Err(WrongTarget) <==> 1 <= |c.items| <= 10 && !EndsInOnlyTarget(c.items)
    ensures r == Err(MissingText) <==> 1 <= |c.items| <= 10 && EndsInOnlyTarget(c.items) && !Complete(c.items)
    ensures r.Ok? ==> exists pieces :: ArePieces(c.items, pieces) && r.value == Paragraphs(pieces)
    ensures r.Ok? ==> Complete(c.items) && r.value == Joined(c.items)
    ensures r.Ok? <==> Stage2Ready(c)
  {
    if !(1 <= |c.items| <= 10) {
      return Err(WrongLength);
    }
    OneTargetAtEnd(c.items);
    if TargetCount(c.items) != 1 || !c.items[|c.items| - 1].isTarget {
      return Err(WrongTarget);
    }
    var rendered := "";
    for k := 0 to |c.items|
      invariant Complete(c.items[..k]) && rendered == Joined(c.items[..k])
    {
      var item := c.items[k];
      if !item.isUnavailable && item.text.None? {
        return Err(MissingText);
      }
      JoinedGrows(c.items, k);
      rendered := if k == 0 then Block(item) else rendered + "\n\n" + Block(item);
    }
    assert c.items[..|c.items|] == c.items;
    ghost var pieces := JoinedIsParagraphs(c.items);
    assert ArePieces(c.items, pieces);
    return Ok(rendered);
  }

  /**
   * What the model is asked about a chain it accepts: its items in order, separated by blank lines,
   * each under its marker, the last as the target.
   */
  lemma Stage2InputIsMarked(c: ReplyChain) returns (pieces: seq<string>)
    requires Stage2Ready(c)
    ensures ArePieces(c.items, pieces) && Joined(c.items) == Paragraphs(pieces)
  {
    OneTargetAtEnd(c.items);
    pieces := JoinedIsParagraphs(c.items);
  }

  /** A message on its own is the target. */
  lemma SingleMessageIsTarget(c: ReplyChain)
    requires Stage2Ready(c) && |c.items| == 1 && !c.items[0].isUnavailable
    ensures Joined(c.items) == "[TARGET]\n" + c.items[0].text.value
  {
    var pieces := Stage2InputIsMarked(c);
  }

  /** Every chain the loader returns is accepted by the formatter. */
  lemma LoadedChainIsStage2Ready(c: ReplyChain, target: int)
    requires WellShaped(c, target, MAX_DEPTH)
    ensures Stage2Ready(c)
  {
    OneTargetAtEnd(c.items);
  }

  predicate SameForClassifier(a: Item, b: Item) {
    a.isTarget == b.isTarget && a.isUnavailable == b.isUnavailable && (a.isUnavailable || a.text == b.text)
  }

  /** The rendering depends on no profile metadata: only markers and available texts matter. */
  lemma {:induction false} RenderingIgnoresMetadata(a: seq<Item>, b: seq<Item>)
    requires Complete(a) && Complete(b) && |a| == |b|
    requires forall i :: 0 <= i < |a| ==> SameForClassifier(a[i], b[i])
    ensures Joined(a) == Joined(b)
  {
    if |a| > 1 {
      RenderingIgnoresMetadata(a[..|a| - 1], b[..|b| - 1]);
    }
  }
}
