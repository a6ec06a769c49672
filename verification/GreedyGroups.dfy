/**
 * Greedy left-to-right grouping, the shape shared by `_split_escaped_text` and `_pack_blocks`
 * (app/bot/notifications.py). Elements have weights; a group costs the sum of its weights plus
 * `gap` between neighbours; a group is closed when the next element would push it over `limit`.
 */
module GreedyGroups {
  datatype Grouping<T> = Grouping(closed: seq<seq<T>>, current: seq<T>) {
    /** All groups; the open one exists only once an element has been seen. */
    function All(): seq<seq<T>> {
      if current == [] then closed else closed + [current]
    }
  }

  function Cost<T>(w: T -> nat, gap: nat, group: seq<T>): nat {
    if group == [] then 0
    else if |group| == 1 then w(group[0])
    else Cost(w, gap, group[..|group| - 1]) + gap + w(group[|group| - 1])
  }

  function Flatten<T>(groups: seq<seq<T>>): seq<T> {
    if groups == [] then [] else Flatten(groups[..|groups| - 1]) + groups[|groups| - 1]
  }

  function Feed<T>(w: T -> nat, gap: nat, limit: nat, g: Grouping<T>, x: T): Grouping<T> {
    if g.current != [] && Cost(w, gap, g.current) + gap + w(x) > limit
    then Grouping(g.closed + [g.current], [x])
    else g.(current := g.current + [x])
  }

  /** The greedy grouping of a whole sequence. */
  function Group<T>(w: T -> nat, gap: nat, limit: nat, xs: seq<T>): (g: Grouping<T>)
    ensures g.current == [] <==> xs == []
    ensures xs == [] ==> g.closed == []
  {
    if xs == [] then Grouping([], []) else Feed(w, gap, limit, Group(w, gap, limit, xs[..|xs| - 1]), xs[|xs| - 1])
  }

  lemma {:induction false} GroupIsNotEmpty<T>(w: T -> nat, gap: nat, limit: nat, xs: seq<T>, i: nat)
    requires i < |Group(w, gap, limit, xs).All()|
    ensures Group(w, gap, limit, xs).All()[i] != []
  {
    if xs != [] {
      var before := Group(w, gap, limit, xs[..|xs| - 1]);
      if i < |before.closed| {
        GroupIsNotEmpty(w, gap, limit, xs[..|xs| - 1], i);
      }
    }
  }

  lemma CostOfSnoc<T>(w: T -> nat, gap: nat, group: seq<T>, x: T)
    ensures Cost(w, gap, group + [x]) == if group == [] then w(x) else Cost(w, gap, group) + gap + w(x)
  {
  }

  lemma FlattenSnoc<T>(groups: seq<seq<T>>, g: seq<T>)
    ensures Flatten(groups + [g]) == Flatten(groups) + g
  {
  }

  // ----- Nothing is lost or reordered, and every group fits -----

  lemma ConcatAssociative<T>(a: seq<T>, b: seq<T>, c: seq<T>)
    ensures a + b + c == a + (b + c)
  {
  }

  lemma SplitLast<T>(s: seq<T>)
    requires s != []
    ensures s[..|s| - 1] + [s[|s| - 1]] == s
  {
  }

  /** What the groups hold, in order. */
  function Held<T>(g: Grouping<T>): seq<T> {
    Flatten(g.closed) + g.current
  }

  /** One more element is one more element of what the groups hold. */
  lemma FeedIsLossless<T>(w: T -> nat, gap: nat, limit: nat, g: Grouping<T>, x: T)
    ensures Held(Feed(w, gap, limit, g, x)) == Held(g) + [x]
  {
    FlattenSnoc(g.closed, g.current);
    ConcatAssociative(Flatten(g.closed), g.current, [x]);
  }

  lemma {:induction false} GroupHoldsAll<T>(w: T -> nat, gap: nat, limit: nat, xs: seq<T>)
    ensures Held(Group(w, gap, limit, xs)) == xs
  {
    if xs != [] {
      GroupHoldsAll(w, gap, limit, xs[..|xs| - 1]);
      FeedIsLossless(w, gap, limit, Group(w, gap, limit, xs[..|xs| - 1]), xs[|xs| - 1]);
      SplitLast(xs);
    }
  }

  lemma GroupingIsLossless<T>(w: T -> nat, gap: nat, limit: nat, xs: seq<T>)
    ensures Flatten(Group(w, gap, limit, xs).closed) + Group(w, gap, limit, xs).current == xs
  {
    GroupHoldsAll(w, gap, limit, xs);
  }

  ghost predicate Fits<T>(w: T -> nat, gap: nat, limit: nat, group: seq<T>) {
    group != [] && Cost(w, gap, group) <= limit
  }

  lemma {:induction false} GroupsFit<T>(w: T -> nat, gap: nat, limit: nat, xs: seq<T>)
    requires forall x :: x in xs ==> w(x) <= limit
    ensures forall g :: g in Group(w, gap, limit, xs).All() ==> Fits(w, gap, limit, g)
  {
    if xs != [] {
      var init, x := xs[..|xs| - 1], xs[|xs| - 1];
      GroupsFit(w, gap, limit, init);
      CostOfSnoc(w, gap, Group(w, gap, limit, init).current, x);
      CostOfSnoc(w, gap, [], x);
      assert [] + [x] == [x];
    }
  }

  // ----- No admissible grouping uses fewer groups -----

  ghost predicate Admissible<T(!new)>(w: T -> nat, gap: nat, limit: nat, xs: seq<T>, groups: seq<seq<T>>) {
    Flatten(groups) == xs && forall g :: g in groups ==> Fits(w, gap, limit, g)
  }

  lemma {:induction false} CostOfSuffix<T>(w: T -> nat, gap: nat, long: seq<T>, n: nat)
    requires n <= |long|
    ensures Cost(w, gap, long[|long| - n..]) <= Cost(w, gap, long)
  {
    if n >= 2 {
      var init := long[..|long| - 1];
      CostOfSuffix(w, gap, init, n - 1);
      assert long[|long| - n..] == init[|init| - (n - 1)..] + [long[|long| - 1]];
      assert long == init + [long[|long| - 1]];
      CostOfSnoc(w, gap, init[|init| - (n - 1)..], long[|long| - 1]);
      CostOfSnoc(w, gap, init, long[|long| - 1]);
    }
  }

  /** An admissible grouping of `init + [x]`, with `x` taken off its last group. */
  function Shortened<T>(groups: seq<seq<T>>): seq<seq<T>>
    requires groups != [] && groups[|groups| - 1] != []
  {
    var last := groups[|groups| - 1];
    if |last| == 1 then groups[..|groups| - 1] else groups[..|groups| - 1] + [last[..|last| - 1]]
  }

  lemma ShortenedIsAdmissible<T(!new)>(w: T -> nat, gap: nat, limit: nat, init: seq<T>, x: T, groups: seq<seq<T>>)
    requires Admissible(w, gap, limit, init + [x], groups)
    ensures groups != [] && groups[|groups| - 1] != [] && groups[|groups| - 1][|groups[|groups| - 1]| - 1] == x
    ensures Admissible(w, gap, limit, init, Shortened(groups))
  {
    var front, last := groups[..|groups| - 1], groups[|groups| - 1];
    assert last in groups && Fits(w, gap, limit, last);
    var cut := last[..|last| - 1];
    assert last == cut + [last[|last| - 1]];
    assert Flatten(front) + last == Flatten(front) + cut + [last[|last| - 1]];
    assert Flatten(front) + cut == (init + [x])[..|init|] == init;
    assert (init + [x])[|init|] == (Flatten(front) + last)[|init|];
    FlattenSnoc(front, cut);
    CostOfSnoc(w, gap, cut, last[|last| - 1]);
  }

  lemma OpenGroupIsSuffix<T>(w: T -> nat, gap: nat, limit: nat, xs: seq<T>, front: seq<seq<T>>, last: seq<T>)
    requires Flatten(front) + last == xs
    requires |last| >= |Group(w, gap, limit, xs).current|
    ensures last[|last| - |Group(w, gap, limit, xs).current|..] == Group(w, gap, limit, xs).current
  {
    var current := Group(w, gap, limit, xs).current;
    GroupingIsLossless(w, gap, limit, xs);
    assert xs[|xs| - |current|..] == current;
    assert last[|last| - |current|..] == xs[|xs| - |current|..];
  }

  /** If the elements of some last group still fit with `x`, so do those of the open group. */
  lemma {:induction false} OpenGroupHasRoom<T>(
    w: T -> nat, gap: nat, limit: nat, init: seq<T>, x: T, front: seq<seq<T>>, cut: seq<T>
  )
    requires cut != [] && Flatten(front) + cut == init && |cut| >= |Group(w, gap, limit, init).current|
    requires Cost(w, gap, cut + [x]) <= limit
    ensures Cost(w, gap, Group(w, gap, limit, init).current) + gap + w(x) <= limit
  {
    OpenGroupIsSuffix(w, gap, limit, init, front, cut);
    CostOfSuffix(w, gap, cut, |Group(w, gap, limit, init).current|);
    CostOfSnoc(w, gap, cut, x);
  }

  /** The greedy grouping is level with or ahead of `groups`: fewer groups, or as many with no longer a last one. */
  ghost predicate Ahead<T>(g: Grouping<T>, groups: seq<seq<T>>) {
    groups != []
    && |groups| >= |g.closed| + 1
    && (|groups| == |g.closed| + 1 ==> |groups[|groups| - 1]| >= |g.current|)
  }

  /** Being ahead of the shortened grouping, greedy stays ahead once `x` is back. */
  lemma {:induction false} StaysAheadWith<T(!new)>(
    w: T -> nat, gap: nat, limit: nat, init: seq<T>, x: T, front: seq<seq<T>>, last: seq<T>
  )
    requires init != [] && Admissible(w, gap, limit, init + [x], front + [last])
    requires last != [] && last[|last| - 1] == x
    requires Ahead(Group(w, gap, limit, init), Shortened(front + [last]))
    ensures Ahead(Feed(w, gap, limit, Group(w, gap, limit, init), x), front + [last])
  {
    var g := Group(w, gap, limit, init);
    var cut := last[..|last| - 1];
    assert (front + [last])[..|front|] == front;
    if |last| > 1 && |front| == |g.closed| {
      assert last == cut + [x];
      WithoutLast(front, cut, x, init);
      assert last in front + [last] && Fits(w, gap, limit, last);
      OpenGroupHasRoom(w, gap, limit, init, x, front, cut);
    }
  }

  lemma {:induction false} WithoutLast<T>(front: seq<seq<T>>, cut: seq<T>, x: T, init: seq<T>)
    requires Flatten(front + [cut + [x]]) == init + [x]
    ensures Flatten(front) + cut == init
  {
    FlattenSnoc(front, cut + [x]);
    ConcatAssociative(Flatten(front), cut, [x]);
    assert (Flatten(front) + cut + [x])[..|Flatten(front) + cut|] == Flatten(front) + cut;
    assert (init + [x])[..|init|] == init;
  }

  lemma {:induction false} GreedyStaysAhead<T(!new)>(w: T -> nat, gap: nat, limit: nat, xs: seq<T>, groups: seq<seq<T>>)
    requires xs != [] && Admissible(w, gap, limit, xs, groups)
    ensures Ahead(Group(w, gap, limit, xs), groups)
  {
    var init, x := xs[..|xs| - 1], xs[|xs| - 1];
    assert xs == init + [x];
    ShortenedIsAdmissible(w, gap, limit, init, x, groups);
    var front, last := groups[..|groups| - 1], groups[|groups| - 1];
    assert groups == front + [last];
    if init != [] {
      GreedyStaysAhead(w, gap, limit, init, Shortened(groups));
      StaysAheadWith(w, gap, limit, init, x, front, last);
    }
  }

  /** The greedy grouping uses the fewest groups of any admissible contiguous grouping. */
  lemma GreedyIsMinimal<T(!new)>(w: T -> nat, gap: nat, limit: nat, xs: seq<T>, groups: seq<seq<T>>)
    requires Admissible(w, gap, limit, xs, groups)
    ensures |Group(w, gap, limit, xs).All()| <= |groups|
  {
    if xs != [] {
      GreedyStaysAhead(w, gap, limit, xs, groups);
    }
  }
}
