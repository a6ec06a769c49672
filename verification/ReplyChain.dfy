/**
 * Bounded reconstruction of explicit reply chains (app/listener/reply_chain.py): the loader's
 * loop, an independent description of the chain it must return, and a proof that the
 * description has exactly one solution and that the loader finds it.
 */
module ReplyChains {
  import opened Wrappers
  import opened Calendar

  const MAX_DEPTH := 10

  datatype StopReason = MissingParent | CrossChatParent | CrossTopicParent | Cycle | MaxDepth

  datatype ReplyMessage = ReplyMessage(
    chatId: int,
    messageId: int,
    replyTo: Option<int>,
    topicId: Option<int>,
    replyToTop: Option<int>,
    authorId: Option<int>,
    authorName: Option<string>,
    createdAt: DateTime,
    text: string
  )

  datatype Item = Item(
    messageId: int,
    replyTo: Option<int>,
    topicId: Option<int>,
    replyToTop: Option<int>,
    authorId: Option<int>,
    authorName: Option<string>,
    createdAt: Option<DateTime>,
    text: Option<string>,
    isTarget: bool,
    isUnavailable: bool
  )

  datatype ReplyChain = ReplyChain(
    chatId: int,
    items: seq<Item>,
    topicId: Option<int>,
    replyToTop: Option<int>,
    topicTitle: Option<string>,
    stopReason: Option<StopReason>
  )

  /** What Telegram answers during one load: messages by requested id, titles by topic id. */
  datatype Source = Source(messages: map<int, ReplyMessage>, titles: map<int, string>)

  /** Telegram returns the message that was asked for. */
  ghost predicate Honest(src: Source) {
    forall id :: id in src.messages ==> src.messages[id].messageId == id
  }

  datatype DepthError = DepthOutOfRange

  function AvailableItem(m: ReplyMessage): Item {
    Item(m.messageId, m.replyTo, m.topicId, m.replyToTop, m.authorId, m.authorName,
         Some(m.createdAt), Some(m.text), false, false)
  }

  function UnavailableItem(id: int): Item {
    Item(id, None, None, None, None, None, None, None, false, true)
  }

  // ----- The declarative description -----

  /** `id` answers with a message of this chat. */
  predicate InChat(src: Source, chatId: int, id: int) {
    id in src.messages && src.messages[id].chatId == chatId
  }

  /** `id` may be walked through, given that the walk began at `target`. */
  predicate Usable(src: Source, chatId: int, target: int, id: int) {
    && InChat(src, chatId, target)
    && InChat(src, chatId, id)
    && src.messages[id].topicId == src.messages[target].topicId
  }

  predicate Distinct(path: seq<int>) {
    forall i, j :: 0 <= i < j < |path| ==> path[i] != path[j]
  }

  /** Ids from the target upwards, each the reply link of the usable message before it. */
  ghost predicate IsParentPath(src: Source, chatId: int, target: int, path: seq<int>) {
    && |path| >= 1
    && path[0] == target
    && Distinct(path)
    && forall i :: 0 <= i < |path| - 1 ==>
         Usable(src, chatId, target, path[i]) && src.messages[path[i]].replyTo == Some(path[i + 1])
  }

  /** Why a walk that has reached the end of `path` can go no further; None when it can. */
  function Ending(src: Source, chatId: int, maxDepth: int, path: seq<int>): Option<Option<StopReason>>
    requires |path| >= 1
  {
    var id := path[|path| - 1];
    if id !in src.messages then Some(Some(MissingParent))
    else if src.messages[id].chatId != chatId then Some(Some(CrossChatParent))
    else if !Usable(src, chatId, path[0], id) then Some(Some(CrossTopicParent))
    else if src.messages[id].replyTo == None then Some(None)
    else if |path| >= maxDepth then Some(Some(MaxDepth))
    else if src.messages[id].replyTo.value in path then Some(Some(Cycle))
    else None
  }

  /** `path` is the walk from `target`, bounded by `maxDepth`, and `stop` is why it ended. */
  ghost predicate IsBoundedWalk(
    src: Source, chatId: int, target: int, maxDepth: int, path: seq<int>, stop: Option<StopReason>
  ) {
    && IsParentPath(src, chatId, target, path)
    && |path| <= maxDepth
    && Ending(src, chatId, maxDepth, path) == Some(stop)
  }

  /** The chain item for one id of a walk that began at `target`. */
  function ItemFor(src: Source, chatId: int, target: int, id: int): Item {
    (if Usable(src, chatId, target, id) then AvailableItem(src.messages[id]) else UnavailableItem(id))
    .(isTarget := id == target)
  }

  /** The chain of a walk, oldest item first. */
  function ChainOf(src: Source, chatId: int, path: seq<int>, stop: Option<StopReason>): (c: ReplyChain)
    requires |path| >= 1
    ensures |c.items| == |path|
    ensures forall i :: 0 <= i < |path| ==> c.items[i] == ItemFor(src, chatId, path[0], path[|path| - 1 - i])
  {
    var root := path[0];
    var topic := if InChat(src, chatId, root) then src.messages[root].topicId else None;
    var top := if InChat(src, chatId, root) then src.messages[root].replyToTop else None;
    ReplyChain(
      chatId,
      seq(|path|, i requires 0 <= i < |path| => ItemFor(src, chatId, root, path[|path| - 1 - i])),
      topic,
      top,
      if topic.Some? && topic.value in src.titles then Some(src.titles[topic.value]) else None,
      stop)
  }

  /** At most one path meets the description. */
  lemma WalkIsUnique(
    src: Source, chatId: int, target: int, maxDepth: int,
    p: seq<int>, ps: Option<StopReason>, q: seq<int>, qs: Option<StopReason>
  )
    requires IsBoundedWalk(src, chatId, target, maxDepth, p, ps)
    requires IsBoundedWalk(src, chatId, target, maxDepth, q, qs)
    ensures p == q && ps == qs
  {
    if |p| <= |q| {
      PathsAgree(src, chatId, target, p, q, |p|);
      EndedWalkIsWhole(src, chatId, target, maxDepth, p, ps, q);
    } else {
      PathsAgree(src, chatId, target, q, p, |q|);
      EndedWalkIsWhole(src, chatId, target, maxDepth, q, qs, p);
    }
  }

  lemma {:induction false} PathsAgree(src: Source, chatId: int, target: int, p: seq<int>, q: seq<int>, n: nat)
    requires IsParentPath(src, chatId, target, p) && IsParentPath(src, chatId, target, q)
    requires n <= |p| && n <= |q|
    ensures p[..n] == q[..n]
  {
    if n >= 2 {
      PathsAgree(src, chatId, target, p, q, n - 1);
      assert p[n - 2] == p[..n - 1][n - 2] == q[..n - 1][n - 2] == q[n - 2];
      assert p[..n] == p[..n - 1] + [p[n - 1]];
      assert q[..n] == q[..n - 1] + [q[n - 1]];
    }
  }

  /** A walk that goes on from the end of `p` shows that `p` is not where it ended. */
  lemma ContinuedWalkHasNotEnded(src: Source, chatId: int, target: int, maxDepth: int, p: seq<int>, q: seq<int>)
    requires IsParentPath(src, chatId, target, q) && 1 <= |p| < |q| <= maxDepth
    requires q[..|p|] == p
    ensures Ending(src, chatId, maxDepth, p) == None
  {
    var last := |p| - 1;
    assert q[last] == p[last];
    assert p[0] == q[0];
    assert src.messages[q[last]].replyTo == Some(q[|p|]);
    assert forall k :: 0 <= k < |p| ==> p[k] == q[k] != q[|p|];
  }

  lemma EndedWalkIsWhole(
    src: Source, chatId: int, target: int, maxDepth: int, p: seq<int>, stop: Option<StopReason>, q: seq<int>
  )
    requires IsBoundedWalk(src, chatId, target, maxDepth, p, stop)
    requires IsParentPath(src, chatId, target, q) && |p| <= |q| <= maxDepth
    requires q[..|p|] == p
    ensures p == q
  {
    if |p| < |q| {
      ContinuedWalkHasNotEnded(src, chatId, target, maxDepth, p, q);
    }
  }

  // ----- The walk as a function -----

  /** The bounded walk that goes on from the end of `path`, and why it ends. */
  function Walk(src: Source, chatId: int, path: seq<int>): (r: (seq<int>, Option<StopReason>))
    requires 1 <= |path| <= MAX_DEPTH
    ensures path <= r.0
    decreases MAX_DEPTH - |path|
  {
    var ending := Ending(src, chatId, MAX_DEPTH, path);
    if ending.Some? then (path, ending.value)
    else Walk(src, chatId, path + [src.messages[path[|path| - 1]].replyTo.value])
  }

  lemma {:induction false} WalkIsBounded(src: Source, chatId: int, target: int, path: seq<int>)
    requires IsParentPath(src, chatId, target, path) && |path| <= MAX_DEPTH
    ensures var (walk, stop) := Walk(src, chatId, path); IsBoundedWalk(src, chatId, target, MAX_DEPTH, walk, stop)
    decreases MAX_DEPTH - |path|
  {
    if Ending(src, chatId, MAX_DEPTH, path).None? {
      var next := src.messages[path[|path| - 1]].replyTo.value;
      ParentPathGrows(src, chatId, target, path, next);
      WalkIsBounded(src, chatId, target, path + [next]);
    }
  }

  /** The chain that loading a message to the full depth returns. */
  function LoadedChain(src: Source, chatId: int, target: int): ReplyChain {
    var (walk, stop) := Walk(src, chatId, [target]);
    ChainOf(src, chatId, walk, stop)
  }

  /** It is the chain of the one bounded walk. */
  lemma LoadedChainIsTheWalk(src: Source, chatId: int, target: int, path: seq<int>, stop: Option<StopReason>)
    requires IsBoundedWalk(src, chatId, target, MAX_DEPTH, path, stop)
    ensures LoadedChain(src, chatId, target) == ChainOf(src, chatId, path, stop)
  {
    WalkIsBounded(src, chatId, target, [target]);
    var (walk, walkStop) := Walk(src, chatId, [target]);
    WalkIsUnique(src, chatId, target, MAX_DEPTH, walk, walkStop, path, stop);
  }

  // ----- The loader -----

  function Reversed(items: seq<Item>): (r: seq<Item>)
    ensures |r| == |items|
    ensures forall i :: 0 <= i < |r| ==> r[i] == items[|items| - 1 - i]
  {
    seq(|items|, i requires 0 <= i < |items| => items[|items| - 1 - i])
  }

  /** The walk may step from the end of `path` to the new id its last message replies to. */
  lemma ParentPathGrows(src: Source, chatId: int, target: int, path: seq<int>, next: int)
    requires next !in path
    requires path == [] ==> next == target
    requires path != [] ==>
               && IsParentPath(src, chatId, target, path)
               && Usable(src, chatId, target, path[|path| - 1])
               && src.messages[path[|path| - 1]].replyTo == Some(next)
    ensures IsParentPath(src, chatId, target, path + [next])
  {
  }

  /** The loader's list is the chain of the walk once reversed and marked. */
  lemma MarkedItems(src: Source, chatId: int, path: seq<int>, stop: Option<StopReason>, newestFirst: seq<Item>)
    requires |newestFirst| == |path| >= 1 && Distinct(path)
    requires forall i :: 0 <= i < |path| ==>
               newestFirst[i] == ItemFor(src, chatId, path[0], path[i]).(isTarget := false)
    ensures var ordered := Reversed(newestFirst);
            ordered[|path| - 1 := ordered[|path| - 1].(isTarget := true)] == ChainOf(src, chatId, path, stop).items
  {
  }

  class ReplyChainLoader {
    const source: Source

    constructor (source: Source)
      ensures this.source == source
    {
      this.source := source;
    }

    /**
     * Returns the chain of the one bounded walk, or rejects the depth. The ghost result is that
     * walk; it is unique by `WalkIsUnique`.
     */
    method GetReplyChain(chatId: int, messageId: int, maxDepth: int := MAX_DEPTH)
      returns (r: Result<ReplyChain, DepthError>, ghost path: seq<int>)
      ensures r.Ok? <==> 1 <= maxDepth <= MAX_DEPTH
      ensures r.Ok? ==> IsBoundedWalk(source, chatId, messageId, maxDepth, path, r.value.stopReason)
      ensures r.Ok? ==> r.value == ChainOf(source, chatId, path, r.value.stopReason)
    {
      path := [];
      if maxDepth < 1 || maxDepth > MAX_DEPTH {
        return Err(DepthOutOfRange), path;
      }

      var newestFirst: seq<Item> := [];
      var visited: set<int> := {};
      var currentId := messageId;
      var stopReason: Option<StopReason> := None;
      var targetTopic: Option<int> := None;
      var targetTop: Option<int> := None;
      var broke := false;

      while |newestFirst| < maxDepth && !broke
        invariant |newestFirst| == |path| <= maxDepth
        invariant forall id :: id in visited <==> id in path
        invariant forall i :: 0 <= i < |path| ==>
                    newestFirst[i] == ItemFor(source, chatId, messageId, path[i]).(isTarget := false)
        invariant path != [] ==> IsParentPath(source, chatId, messageId, path)
        invariant path == [] ==>
                    currentId == messageId && !broke && stopReason == None && targetTopic == None && targetTop == None
        invariant path != [] ==>
                    && targetTopic == (if InChat(source, chatId, messageId) then source.messages[messageId].topicId else None)
                    && targetTop == (if InChat(source, chatId, messageId) then source.messages[messageId].replyToTop else None)
        invariant broke ==> path != [] && Ending(source, chatId, maxDepth, path) == Some(stopReason)
        invariant !broke && path != [] ==>
                    && stopReason == None
                    && Usable(source, chatId, messageId, path[|path| - 1])
                    && source.messages[path[|path| - 1]].replyTo == Some(currentId)
        decreases maxDepth - |newestFirst|, !broke
      {
        if currentId in visited {
          stopReason := Some(Cycle);
          broke := true;
        } else {
          visited := visited + {currentId};
          ParentPathGrows(source, chatId, messageId, path, currentId);
          path := path + [currentId];
          if currentId !in source.messages {
            newestFirst := newestFirst + [UnavailableItem(currentId)];
            stopReason := Some(MissingParent);
            broke := true;
          } else {
            var message := source.messages[currentId];
            if message.chatId != chatId {
              newestFirst := newestFirst + [UnavailableItem(currentId)];
              stopReason := Some(CrossChatParent);
              broke := true;
            } else if newestFirst != [] && message.topicId != targetTopic {
              newestFirst := newestFirst + [UnavailableItem(currentId)];
              stopReason := Some(CrossTopicParent);
              broke := true;
            } else {
              if newestFirst == [] {
                targetTopic := message.topicId;
                targetTop := message.replyToTop;
              }
              newestFirst := newestFirst + [AvailableItem(message)];
              if message.replyTo == None {
                broke := true;
              } else {
                currentId := message.replyTo.value;
              }
            }
          }
        }
      }
      if !broke && newestFirst[|newestFirst| - 1].replyTo != None {
        stopReason := Some(MaxDepth);
      }

      var ordered := Reversed(newestFirst);
      ordered := ordered[|ordered| - 1 := ordered[|ordered| - 1].(isTarget := true)];
      var title := if targetTopic.Some? && targetTopic.value in source.titles
        then Some(source.titles[targetTopic.value]) else None;
      var chain := ReplyChain(chatId, ordered, targetTopic, targetTop, title, stopReason);
      MarkedItems(source, chatId, path, stopReason, newestFirst);
      return Ok(chain), path;
    }
  }

  // ----- What every loaded chain looks like -----

  ghost predicate WellShaped(c: ReplyChain, target: int, maxDepth: int) {
    && 1 <= |c.items| <= maxDepth
    // no message appears twice
    && (forall i, j :: 0 <= i < j < |c.items| ==> c.items[i].messageId != c.items[j].messageId)
    // each item replies to the item before it
    && (forall i :: 1 <= i < |c.items| ==> c.items[i].replyTo == Some(c.items[i - 1].messageId))
    // only the oldest item may be unavailable, and an available one is complete and on topic
    && (forall i :: 0 <= i < |c.items| && c.items[i].isUnavailable ==> i == 0)
    && (forall i :: 0 <= i < |c.items| && !c.items[i].isUnavailable ==>
          c.items[i].text.Some? && c.items[i].createdAt.Some? && c.items[i].topicId == c.topicId)
    // exactly the last item is the target
    && (forall i :: 0 <= i < |c.items| ==> (c.items[i].isTarget <==> i == |c.items| - 1))
    && c.items[|c.items| - 1].messageId == target
  }

  /** The chain of any bounded walk, whatever the message graph, cycles included. */
  lemma LoadedChainIsWellShaped(
    src: Source, chatId: int, target: int, maxDepth: int, path: seq<int>, stop: Option<StopReason>
  )
    requires Honest(src)
    requires IsBoundedWalk(src, chatId, target, maxDepth, path, stop)
    ensures WellShaped(ChainOf(src, chatId, path, stop), target, maxDepth)
  {
  }

  /** The item repeats what Telegram answered for its message. */
  predicate Carries(item: Item, m: ReplyMessage) {
    && item.messageId == m.messageId && item.replyTo == m.replyTo
    && item.topicId == m.topicId && item.replyToTop == m.replyToTop
    && item.authorId == m.authorId && item.authorName == m.authorName
    && item.createdAt == Some(m.createdAt) && item.text == Some(m.text)
    && !item.isUnavailable
  }

  /** Nothing is known of the item's message but its id. */
  predicate IsBlank(item: Item, id: int) {
    && item.messageId == id && item.isUnavailable
    && item.replyTo == None && item.topicId == None && item.replyToTop == None
    && item.authorId == None && item.authorName == None && item.createdAt == None && item.text == None
  }

  /**
   * Every item of a loaded chain carries its own message, from the oldest to the target, or is blank
   * when Telegram has no such message in the target's chat and topic. The chain's topic is the
   * target's, its title the one Telegram gives for it.
   */
  lemma LoadedChainCarriesMessages(
    src: Source, chatId: int, target: int, maxDepth: int, path: seq<int>, stop: Option<StopReason>
  )
    requires Honest(src)
    requires IsBoundedWalk(src, chatId, target, maxDepth, path, stop)
    ensures var c, ms := ChainOf(src, chatId, path, stop), src.messages;
            var readable := target in ms && ms[target].chatId == chatId;
            && c.chatId == chatId && c.stopReason == stop
            && c.topicId == (if readable then ms[target].topicId else None)
            && c.replyToTop == (if readable then ms[target].replyToTop else None)
            && c.topicTitle == (if c.topicId.Some? && c.topicId.value in src.titles then Some(src.titles[c.topicId.value]) else None)
            && forall i :: 0 <= i < |path| ==>
                 var id := path[|path| - 1 - i];
                 if readable && id in ms && ms[id].chatId == chatId && ms[id].topicId == ms[target].topicId
                 then Carries(c.items[i], ms[id]) && c.items[i].messageId == id
                 else IsBlank(c.items[i], id)
  {
  }

  /** The stop reason says exactly what is at the oldest end of the chain. */
  lemma StopReasonIsExact(
    src: Source, chatId: int, target: int, maxDepth: int, path: seq<int>, stop: Option<StopReason>
  )
    requires Honest(src)
    requires IsBoundedWalk(src, chatId, target, maxDepth, path, stop)
    ensures var c := ChainOf(src, chatId, path, stop);
            var oldest := c.items[0];
            && (stop == Some(MissingParent) <==> oldest.messageId !in src.messages)
            && (stop == Some(CrossChatParent) <==>
                  oldest.messageId in src.messages && src.messages[oldest.messageId].chatId != chatId)
            && (stop == Some(CrossTopicParent) <==>
                  InChat(src, chatId, oldest.messageId) && src.messages[oldest.messageId].topicId != c.topicId)
            && (oldest.isUnavailable <==> stop in {Some(MissingParent), Some(CrossChatParent), Some(CrossTopicParent)})
            && (stop == None <==> !oldest.isUnavailable && oldest.replyTo == None)
            && (stop == Some(MaxDepth) <==> oldest.replyTo.Some? && |c.items| == maxDepth)
            && (stop == Some(Cycle) <==>
                  && oldest.replyTo.Some?
                  && |c.items| < maxDepth
                  && exists i :: 0 <= i < |c.items| && c.items[i].messageId == oldest.replyTo.value)
  {
    var c := ChainOf(src, chatId, path, stop);
    var oldest := path[|path| - 1];
    assert InChat(src, chatId, oldest) ==> Usable(src, chatId, target, target) by {
      if |path| > 1 {
        assert Usable(src, chatId, target, path[0]);
      }
    }
    forall i | 0 <= i < |path| ensures c.items[i].messageId == path[|path| - 1 - i] {
    }
    if Usable(src, chatId, target, oldest) && src.messages[oldest].replyTo.Some? {
      var next := src.messages[oldest].replyTo.value;
      if next in path {
        var k :| 0 <= k < |path| && path[k] == next;
        assert c.items[|path| - 1 - k].messageId == next;
      }
    }
  }

  /** Loading to the full depth always gives a chain of that shape. */
  lemma LoadingIsWellShaped(src: Source, chatId: int, target: int)
    requires Honest(src)
    ensures WellShaped(LoadedChain(src, chatId, target), target, MAX_DEPTH)
    ensures LoadedChain(src, chatId, target).chatId == chatId
  {
    WalkIsBounded(src, chatId, target, [target]);
    var (walk, stop) := Walk(src, chatId, [target]);
    LoadedChainIsWellShaped(src, chatId, target, MAX_DEPTH, walk, stop);
  }
}
