/** The bounded LRU cache of forum topic titles (app/listener/mtproto/client.py). */
module TopicTitles {
  import opened Wrappers

  datatype Key = Key(chatId: int, topicId: int)

  /** A cached `None` is a negative lookup: the topic has no title. */
  type Title = Option<string>

  datatype Entry = Entry(key: Key, title: Title)

  // ----- Key sequences -----

  ghost predicate NoDuplicates(s: seq<Key>) {
    forall k :: multiset(s)[k] <= 1
  }

  lemma NoDuplicatesConcat(a: seq<Key>, b: seq<Key>)
    requires NoDuplicates(a + b)
    ensures NoDuplicates(a) && NoDuplicates(b)
    ensures forall k :: k in a ==> k !in b
  {
    assert multiset(a + b) == multiset(a) + multiset(b);
    forall k ensures multiset(a)[k] <= 1 && multiset(b)[k] <= 1 && !(k in a && k in b) {
      assert multiset(a + b)[k] == multiset(a)[k] + multiset(b)[k];
    }
  }

  lemma AppendFresh(s: seq<Key>, k: Key)
    requires NoDuplicates(s) && k !in s
    ensures NoDuplicates(s + [k])
  {
  }

  function Without(s: seq<Key>, k: Key): seq<Key> {
    if s == [] then [] else (if s[0] == k then [] else [s[0]]) + Without(s[1..], k)
  }

  lemma {:induction false} WithoutCounts(s: seq<Key>, k: Key)
    ensures multiset(Without(s, k)) == multiset(s)[k := 0]
    ensures forall x :: x in Without(s, k) <==> x in s && x != k
  {
    if s != [] {
      assert s == [s[0]] + s[1..];
      WithoutCounts(s[1..], k);
    }
  }

  lemma {:induction false} WithoutConcat(a: seq<Key>, b: seq<Key>, k: Key)
    ensures Without(a + b, k) == Without(a, k) + Without(b, k)
  {
    if a == [] {
      assert a + b == b;
    } else {
      assert (a + b)[1..] == a[1..] + b;
      WithoutConcat(a[1..], b, k);
    }
  }

  lemma {:induction false} WithoutAbsent(s: seq<Key>, k: Key)
    requires k !in s
    ensures Without(s, k) == s
  {
    if s != [] {
      WithoutAbsent(s[1..], k);
    }
  }

  lemma WithoutLength(s: seq<Key>, k: Key)
    requires NoDuplicates(s) && k in s
    ensures |Without(s, k)| == |s| - 1
  {
    WithoutCounts(s, k);
    assert k in multiset(s) && multiset(s)[k] == 1;
    assert multiset(Without(s, k)) == multiset(s) - multiset{k};
    assert |Without(s, k)| == |multiset(Without(s, k))|;
    assert |s| == |multiset(s)|;
  }

  function LastN<T>(s: seq<T>, n: nat): seq<T> {
    if |s| <= n then s else s[|s| - n..]
  }

  // ----- The cache as a value: an ordered dictionary, oldest entry first -----

  function KeysOf(items: seq<Entry>): (keys: seq<Key>)
    ensures |keys| == |items|
    ensures forall i :: 0 <= i < |items| ==> keys[i] == items[i].key
  {
    seq(|items|, i requires 0 <= i < |items| => items[i].key)
  }

  predicate Has(items: seq<Entry>, k: Key) {
    exists i :: 0 <= i < |items| && items[i].key == k
  }

  function TitleOf(items: seq<Entry>, k: Key): (title: Title)
    requires Has(items, k)
    ensures Entry(k, title) in items
  {
    if items[|items| - 1].key == k then items[|items| - 1].title else TitleOf(items[..|items| - 1], k)
  }

  function Drop(items: seq<Entry>, k: Key): seq<Entry> {
    if items == [] then [] else (if items[0].key == k then [] else [items[0]]) + Drop(items[1..], k)
  }

  lemma {:induction false} DropMembers(items: seq<Entry>, k: Key)
    ensures forall e :: e in Drop(items, k) <==> e in items && e.key != k
  {
    if items != [] {
      assert items == [items[0]] + items[1..];
      DropMembers(items[1..], k);
    }
  }

  lemma {:induction false} DropIsWithout(items: seq<Entry>, k: Key)
    ensures KeysOf(Drop(items, k)) == Without(KeysOf(items), k)
  {
    if items != [] {
      assert KeysOf(items)[1..] == KeysOf(items[1..]);
      DropIsWithout(items[1..], k);
    }
  }

  lemma DropKeys(items: seq<Entry>, k: Key)
    ensures KeysOf(Drop(items, k)) == Without(KeysOf(items), k)
    ensures forall e :: e in Drop(items, k) <==> e in items && e.key != k
  {
    DropMembers(items, k);
    DropIsWithout(items, k);
  }

  lemma {:induction false} DropAbsent(items: seq<Entry>, k: Key)
    requires !Has(items, k)
    ensures Drop(items, k) == items
  {
    if items != [] {
      assert items[0].key != k;
      assert forall i :: 0 <= i < |items[1..]| ==> items[1..][i] == items[i + 1];
      DropAbsent(items[1..], k);
    }
  }

  lemma KeysOfAppend(items: seq<Entry>, e: Entry)
    ensures KeysOf(items + [e]) == KeysOf(items) + [e.key]
  {
  }

  lemma KeysOfLastN(items: seq<Entry>, n: nat)
    ensures KeysOf(LastN(items, n)) == LastN(KeysOf(items), n)
  {
  }

  lemma TailKeepsDistinct(items: seq<Entry>)
    requires items != [] && NoDuplicates(KeysOf(items))
    ensures NoDuplicates(KeysOf(items[1..]))
  {
    assert KeysOf(items) == [items[0].key] + KeysOf(items[1..]);
    NoDuplicatesConcat([items[0].key], KeysOf(items[1..]));
  }

  /** `items[k] = title`: in place for a present key, at the end for a new one. */
  function SetTitle(items: seq<Entry>, k: Key, title: Title): seq<Entry> {
    if Has(items, k) then Retitled(items, k, title) else items + [Entry(k, title)]
  }

  function Retitled(items: seq<Entry>, k: Key, title: Title): (r: seq<Entry>)
    ensures |r| == |items|
    ensures forall i :: 0 <= i < |r| ==> r[i] == if items[i].key == k then Entry(k, title) else items[i]
  {
    seq(|items|, i requires 0 <= i < |items| => if items[i].key == k then Entry(k, title) else items[i])
  }

  lemma {:induction false} DropIgnoresTitle(items: seq<Entry>, others: seq<Entry>, k: Key)
    requires |items| == |others|
    requires forall i :: 0 <= i < |items| ==> items[i].key == others[i].key && (items[i].key != k ==> items[i] == others[i])
    ensures Drop(items, k) == Drop(others, k)
  {
    if items != [] {
      DropIgnoresTitle(items[1..], others[1..], k);
    }
  }

  lemma {:induction false} DropLast(items: seq<Entry>, e: Entry)
    ensures Drop(items + [e], e.key) == Drop(items, e.key)
  {
    if items != [] {
      assert (items + [e])[1..] == items[1..] + [e];
      DropLast(items[1..], e);
    } else {
      assert (items + [e])[1..] == [];
    }
  }

  lemma SetTitleKeys(items: seq<Entry>, k: Key, title: Title)
    ensures var r := SetTitle(items, k, title);
            && KeysOf(r) == (if Has(items, k) then KeysOf(items) else KeysOf(items) + [k])
            && Has(r, k) && TitleOf(r, k) == title && Drop(r, k) == Drop(items, k)
  {
    var r := SetTitle(items, k, title);
    if Has(items, k) {
      var i :| 0 <= i < |items| && items[i].key == k;
      assert r[i].key == k;
      DropIgnoresTitle(r, items, k);
    } else {
      assert r[|items|].key == k;
      DropLast(items, Entry(k, title));
      KeysOfAppend(items, Entry(k, title));
    }
  }

  lemma SetTitleStaysDistinct(items: seq<Entry>, k: Key, title: Title)
    requires NoDuplicates(KeysOf(items))
    ensures NoDuplicates(KeysOf(SetTitle(items, k, title)))
  {
    SetTitleKeys(items, k, title);
    HasIsMember(items, k);
    if !Has(items, k) {
      AppendFresh(KeysOf(items), k);
    }
  }

  /** One `get_forum_topic_title` call; `loaded` is what Telegram would answer if asked now. */
  function Request(items: seq<Entry>, maxSize: nat, k: Key, loaded: Title): (seq<Entry>, Title) {
    if Has(items, k) then
      (Drop(items, k) + [Entry(k, TitleOf(items, k))], TitleOf(items, k))
    else
      (LastN(items + [Entry(k, loaded)], maxSize), loaded)
  }

  // ----- The cache itself -----

  datatype SizeError = SizeMustBePositive

  class TopicTitleCache {
    const maxSize: nat
    var items: seq<Entry>

    ghost predicate Valid()
      reads this
    {
      maxSize >= 1 && NoDuplicates(KeysOf(items)) && |items| <= maxSize
    }

    constructor (maxSize: nat)
      requires maxSize >= 1
      ensures Valid() && this.maxSize == maxSize && items == []
    {
      this.maxSize := maxSize;
      items := [];
    }

    static method Create(maxSize: int) returns (r: Result<TopicTitleCache, SizeError>)
      ensures r.Ok? <==> maxSize >= 1
      ensures r.Ok? ==> fresh(r.value) && r.value.Valid() && r.value.maxSize == maxSize && r.value.items == []
    {
      if maxSize < 1 {
        return Err(SizeMustBePositive);
      }
      var cache := new TopicTitleCache(maxSize);
      return Ok(cache);
    }

    method MoveToEnd(k: Key)
      requires NoDuplicates(KeysOf(items)) && Has(items, k)
      modifies this`items
      ensures NoDuplicates(KeysOf(items)) && |items| == |old(items)|
      ensures items == Drop(old(items), k) + [Entry(k, TitleOf(old(items), k))]
    {
      ghost var before := KeysOf(items);
      DropKeys(items, k);
      HasIsMember(items, k);
      WithoutCounts(before, k);
      WithoutLength(before, k);
      AppendFresh(Without(before, k), k);
      KeysOfAppend(Drop(items, k), Entry(k, TitleOf(items, k)));
      items := Drop(items, k) + [Entry(k, TitleOf(items, k))];
    }

    method Get(k: Key) returns (cached: bool, title: Title)
      requires Valid()
      modifies this`items
      ensures Valid()
      ensures cached <==> Has(old(items), k)
      ensures cached ==> (items, title) == Request(old(items), maxSize, k, None)
      ensures !cached ==> items == old(items) && title == None
    {
      if !Has(items, k) {
        return false, None;
      }
      title := TitleOf(items, k);
      MoveToEnd(k);
      return true, title;
    }

    method Put(k: Key, title: Title)
      requires Valid()
      modifies this`items
      ensures Valid()
      ensures items == LastN(Drop(old(items), k) + [Entry(k, title)], maxSize)
    {
      SetTitleKeys(items, k, title);
      SetTitleStaysDistinct(items, k, title);
      items := SetTitle(items, k, title);
      MoveToEnd(k);
      EvictOldest();
    }

    /** `popitem(last=False)` while there are too many. */
    method EvictOldest()
      requires maxSize >= 1 && NoDuplicates(KeysOf(items))
      modifies this`items
      ensures Valid()
      ensures items == LastN(old(items), maxSize)
    {
      while |items| > maxSize
        invariant |items| >= maxSize || items == old(items)
        invariant items == LastN(old(items), |items|)
        invariant NoDuplicates(KeysOf(items))
      {
        TailKeepsDistinct(items);
        items := items[1..];
      }
    }
  }

  // ----- Whole histories of answered calls -----

  datatype Call = Call(key: Key, loaded: Title)

  /** The distinct requested keys, least recently requested first. */
  function Recency(calls: seq<Call>): seq<Key> {
    if calls == [] then []
    else Without(Recency(calls[..|calls| - 1]), calls[|calls| - 1].key) + [calls[|calls| - 1].key]
  }

  /** The cache after any number of calls to an initially empty one. */
  function After(maxSize: nat, calls: seq<Call>): seq<Entry> {
    if calls == [] then []
    else Request(After(maxSize, calls[..|calls| - 1]), maxSize, calls[|calls| - 1].key, calls[|calls| - 1].loaded).0
  }

  predicate Requested(calls: seq<Call>, k: Key) {
    calls != [] && (calls[|calls| - 1].key == k || Requested(calls[..|calls| - 1], k))
  }

  /** The other keys asked for since the last request of `k`. */
  function DistinctSince(calls: seq<Call>, k: Key): set<Key> {
    if calls == [] || calls[|calls| - 1].key == k then {}
    else {calls[|calls| - 1].key} + DistinctSince(calls[..|calls| - 1], k)
  }

  /** The answer of the most recent call for `k` that really went to Telegram. */
  function LatestLoad(maxSize: nat, calls: seq<Call>, k: Key): Option<Title> {
    if calls == [] then None
    else
      var init, last := calls[..|calls| - 1], calls[|calls| - 1];
      if last.key == k && !Has(After(maxSize, init), k) then Some(last.loaded)
      else LatestLoad(maxSize, init, k)
  }

  lemma {:induction false} RecencyIsDistinct(calls: seq<Call>)
    ensures NoDuplicates(Recency(calls))
  {
    if calls != [] {
      var init, k := calls[..|calls| - 1], calls[|calls| - 1].key;
      RecencyIsDistinct(init);
      WithoutCounts(Recency(init), k);
      AppendFresh(Without(Recency(init), k), k);
    }
  }

  lemma {:induction false} RecencyMembers(calls: seq<Call>, k: Key)
    ensures k in Recency(calls) <==> Requested(calls, k)
  {
    if calls != [] {
      var init, last := calls[..|calls| - 1], calls[|calls| - 1].key;
      RecencyMembers(init, k);
      WithoutCounts(Recency(init), last);
    }
  }

  lemma LastNOfConcat(a: seq<Key>, b: seq<Key>, n: nat)
    requires |b| >= n || a == []
    ensures LastN(a + b, n) == LastN(b, n)
  {
  }

  lemma LastNTouch(older: seq<Key>, kept: seq<Key>, n: nat, k: Key)
    requires NoDuplicates(older + kept) && k in kept && (|kept| == n || (older == [] && |kept| < n))
    ensures LastN(Without(older + kept, k) + [k], n) == Without(kept, k) + [k]
  {
    NoDuplicatesConcat(older, kept);
    WithoutConcat(older, kept, k);
    WithoutAbsent(older, k);
    WithoutLength(kept, k);
    assert Without(older + kept, k) + [k] == older + (Without(kept, k) + [k]);
    LastNOfConcat(older, Without(kept, k) + [k], n);
  }

  lemma LastNInsert(older: seq<Key>, kept: seq<Key>, n: nat, k: Key)
    requires k !in kept && (|kept| == n || (older == [] && |kept| < n))
    ensures LastN(Without(older + kept, k) + [k], n) == LastN(kept + [k], n)
  {
    WithoutConcat(older, kept, k);
    WithoutAbsent(kept, k);
    assert Without(older + kept, k) + [k] == Without(older, k) + (kept + [k]);
    LastNOfConcat(Without(older, k), kept + [k], n);
  }

  /** Touching or inserting `k` commutes with keeping only the most recent keys. */
  lemma LastNStep(r: seq<Key>, n: nat, k: Key)
    requires NoDuplicates(r)
    ensures LastN(Without(r, k) + [k], n) ==
            if k in LastN(r, n) then Without(LastN(r, n), k) + [k] else LastN(LastN(r, n) + [k], n)
  {
    var cut := |r| - |LastN(r, n)|;
    assert r == r[..cut] + LastN(r, n);
    if k in LastN(r, n) {
      LastNTouch(r[..cut], LastN(r, n), n, k);
    } else {
      LastNInsert(r[..cut], LastN(r, n), n, k);
    }
  }

  /** What one call does to the cached keys, in order. */
  lemma RequestKeys(items: seq<Entry>, n: nat, k: Key, loaded: Title)
    ensures KeysOf(Request(items, n, k, loaded).0) ==
            if k in KeysOf(items) then Without(KeysOf(items), k) + [k] else LastN(KeysOf(items) + [k], n)
  {
    HasIsMember(items, k);
    if Has(items, k) {
      DropKeys(items, k);
      KeysOfAppend(Drop(items, k), Entry(k, TitleOf(items, k)));
    } else {
      KeysOfAppend(items, Entry(k, loaded));
      KeysOfLastN(items + [Entry(k, loaded)], n);
    }
  }

  /** The cache holds exactly the last `maxSize` distinct requested keys, in recency order. */
  lemma {:induction false} HoldsMostRecentKeys(maxSize: nat, calls: seq<Call>)
    requires maxSize >= 1
    ensures KeysOf(After(maxSize, calls)) == LastN(Recency(calls), maxSize)
  {
    if calls != [] {
      var init, last := calls[..|calls| - 1], calls[|calls| - 1];
      HoldsMostRecentKeys(maxSize, init);
      RecencyIsDistinct(init);
      LastNStep(Recency(init), maxSize, last.key);
      RequestKeys(After(maxSize, init), maxSize, last.key, last.loaded);
    }
  }

  lemma HasIsMember(items: seq<Entry>, k: Key)
    ensures Has(items, k) <==> k in KeysOf(items)
  {
  }

  lemma WithoutAround(older: seq<Key>, k: Key, newer: seq<Key>, gone: Key)
    requires gone != k
    ensures Without(older + [k] + newer, gone) == Without(older, gone) + [k] + Without(newer, gone)
  {
    WithoutConcat(older + [k], newer, gone);
    WithoutConcat(older, [k], gone);
  }

  lemma ConcatAssociative(a: seq<Key>, b: seq<Key>, c: seq<Key>)
    ensures a + b + c == a + (b + c)
  {
  }

  /** The keys requested after the last request of `k`, in recency order. */
  function Newer(calls: seq<Call>, k: Key): seq<Key> {
    if calls == [] || calls[|calls| - 1].key == k then []
    else Without(Newer(calls[..|calls| - 1], k), calls[|calls| - 1].key) + [calls[|calls| - 1].key]
  }

  lemma {:induction false} RecencySplits(calls: seq<Call>, k: Key) returns (older: seq<Key>)
    requires Requested(calls, k)
    ensures Recency(calls) == older + [k] + Newer(calls, k)
  {
    var init, last := calls[..|calls| - 1], calls[|calls| - 1].key;
    if last == k {
      older := Without(Recency(init), k);
    } else {
      var o := RecencySplits(init, k);
      WithoutAround(o, k, Newer(init, k), last);
      older := Without(o, last);
      ConcatAssociative(older + [k], Without(Newer(init, k), last), [last]);
    }
  }

  lemma {:induction false} NewerMembers(calls: seq<Call>, k: Key)
    ensures forall x :: x in Newer(calls, k) <==> x in DistinctSince(calls, k)
  {
    if calls != [] && calls[|calls| - 1].key != k {
      NewerMembers(calls[..|calls| - 1], k);
      WithoutCounts(Newer(calls[..|calls| - 1], k), calls[|calls| - 1].key);
    }
  }

  lemma {:induction false} DistinctCount(s: seq<Key>, keys: set<Key>)
    requires NoDuplicates(s)
    requires forall x :: x in s <==> x in keys
    ensures |s| == |keys|
  {
    if s == [] {
      assert keys == {};
    } else {
      var init, last := s[..|s| - 1], s[|s| - 1];
      assert s == init + [last];
      NoDuplicatesConcat(init, [last]);
      assert forall x :: x in init ==> x in s;
      assert forall x :: x in s ==> x in init || x == last;
      assert last in keys;
      DistinctCount(init, keys - {last});
    }
  }

  /** A call hits iff the key was requested before and fewer than `maxSize` other keys were since. */
  lemma {:induction false} HitExactlyWhenRecent(maxSize: nat, calls: seq<Call>, k: Key)
    requires maxSize >= 1
    ensures Has(After(maxSize, calls), k) <==> Requested(calls, k) && |DistinctSince(calls, k)| < maxSize
  {
    HoldsMostRecentKeys(maxSize, calls);
    HasIsMember(After(maxSize, calls), k);
    RecencyIsDistinct(calls);
    RecencyMembers(calls, k);
    var r := Recency(calls);
    if k in r {
      var older := RecencySplits(calls, k);
      var newer := Newer(calls, k);
      NewerMembers(calls, k);
      NoDuplicatesConcat(older + [k], newer);
      assert k in older + [k];
      DistinctCount(newer, DistinctSince(calls, k));
      if |newer| < maxSize {
        assert LastN(r, maxSize)[|LastN(r, maxSize)| - |newer| - 1] == k;
      } else {
        assert LastN(r, maxSize) == newer[|newer| - maxSize..];
      }
    }
  }

  /** A hit answers with the title that the latest real load for its key returned. */
  lemma {:induction false} HitAnswersLatestLoad(maxSize: nat, calls: seq<Call>, e: Entry)
    requires maxSize >= 1
    requires e in After(maxSize, calls)
    ensures LatestLoad(maxSize, calls, e.key) == Some(e.title)
  {
    var init, last := calls[..|calls| - 1], calls[|calls| - 1];
    var before := After(maxSize, init);
    DropKeys(before, last.key);
    if Has(before, last.key) {
      HitAnswersLatestLoad(maxSize, init, if e.key == last.key then Entry(e.key, TitleOf(before, e.key)) else e);
    } else if e.key != last.key {
      HitAnswersLatestLoad(maxSize, init, e);
    } else {
      assert forall i :: 0 <= i < |before| ==> before[i].key != e.key;
    }
  }

  // ----- Calls that raise -----

  /** A call as it is made: `load` is None when asking Telegram would raise. */
  datatype Asking = Asking(key: Key, load: Option<Title>)

  /** A raising load leaves the cache as it was: the miss changed nothing and nothing is stored. */
  function AfterAsking(maxSize: nat, asked: seq<Asking>): seq<Entry> {
    if asked == [] then []
    else
      var before, last := AfterAsking(maxSize, asked[..|asked| - 1]), asked[|asked| - 1];
      if Raises(before, last) then before
      else Request(before, maxSize, last.key, if last.load.Some? then last.load.value else None).0
  }

  predicate Raises(items: seq<Entry>, a: Asking) {
    !Has(items, a.key) && a.load.None?
  }

  /** The calls that were answered, from the cache or by Telegram. */
  function Answered(maxSize: nat, asked: seq<Asking>): seq<Call> {
    if asked == [] then []
    else
      var before, last := Answered(maxSize, asked[..|asked| - 1]), asked[|asked| - 1];
      if Raises(AfterAsking(maxSize, asked[..|asked| - 1]), last) then before
      else before + [Call(last.key, if last.load.Some? then last.load.value else None)]
  }

  /** A call goes unanswered exactly when asking Telegram raises and its key is not among the recent ones. */
  lemma UnansweredExactlyWhenRaising(maxSize: nat, asked: seq<Asking>)
    requires maxSize >= 1 && asked != []
    ensures var before, last := Answered(maxSize, asked[..|asked| - 1]), asked[|asked| - 1];
            var isRecent := Requested(before, last.key) && |DistinctSince(before, last.key)| < maxSize;
            Answered(maxSize, asked) ==
            if last.load == None && !isRecent then before
            else before + [Call(last.key, if last.load.Some? then last.load.value else None)]
  {
    var before, last := Answered(maxSize, asked[..|asked| - 1]), asked[|asked| - 1];
    RaisingLeavesNoTrace(maxSize, asked[..|asked| - 1]);
    HitExactlyWhenRecent(maxSize, before, last.key);
  }

  /** So what holds of histories of answered calls holds of all: raising calls leave no trace. */
  lemma {:induction false} RaisingLeavesNoTrace(maxSize: nat, asked: seq<Asking>)
    ensures AfterAsking(maxSize, asked) == After(maxSize, Answered(maxSize, asked))
  {
    if asked != [] {
      RaisingLeavesNoTrace(maxSize, asked[..|asked| - 1]);
      var before := Answered(maxSize, asked[..|asked| - 1]);
      assert forall c: Call :: (before + [c])[..|before|] == before;
    }
  }

  /** Over any calls, a call is answered from the cache iff its key was answered and is still recent. */
  lemma HitsAmongAllCalls(maxSize: nat, asked: seq<Asking>, k: Key)
    requires maxSize >= 1
    ensures var calls := Answered(maxSize, asked);
            && KeysOf(AfterAsking(maxSize, asked)) == LastN(Recency(calls), maxSize)
            && (Has(AfterAsking(maxSize, asked), k) <==> Requested(calls, k) && |DistinctSince(calls, k)| < maxSize)
  {
    RaisingLeavesNoTrace(maxSize, asked);
    HoldsMostRecentKeys(maxSize, Answered(maxSize, asked));
    HitExactlyWhenRecent(maxSize, Answered(maxSize, asked), k);
  }

  /** The client side: every title lookup goes through the one shared cache. */
  class ForumTopicClient {
    const cache: TopicTitleCache
    ghost var calls: seq<Call>  // the answered ones

    ghost predicate Valid()
      reads this, cache
    {
      cache.Valid() && cache.items == After(cache.maxSize, calls)
    }

    constructor (cache: TopicTitleCache)
      requires cache.Valid() && cache.items == []
      ensures Valid() && this.cache == cache && calls == []
    {
      this.cache := cache;
      calls := [];
    }

    /** `load` is what asking Telegram would give, None if it would raise; so is the answer. */
    method GetForumTopicTitle(k: Key, load: Option<Title>) returns (answer: Option<Title>)
      requires Valid()
      modifies this`calls, cache`items
      ensures Valid()
      ensures calls == if answer.None? then old(calls) else old(calls) + [Call(k, if load.Some? then load.value else None)]
      ensures answer.None? ==> cache.items == old(cache.items)
      ensures if Requested(old(calls), k) && |DistinctSince(old(calls), k)| < cache.maxSize
              then answer.Some? && LatestLoad(cache.maxSize, old(calls), k) == answer
              else answer == load
    {
      HitExactlyWhenRecent(cache.maxSize, calls, k);
      ghost var before := cache.items;
      if Has(before, k) {
        HitAnswersLatestLoad(cache.maxSize, calls, Entry(k, TitleOf(before, k)));
      }
      var cached, title := cache.Get(k);
      if !cached {
        if load.None? {
          return None;
        }
        title := load.value;
        DropAbsent(cache.items, k);
        cache.Put(k, title);
      }
      calls := calls + [Call(k, if load.Some? then load.value else None)];
      assert calls[..|calls| - 1] == old(calls);
      return Some(title);
    }
  }
}
