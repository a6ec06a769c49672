/** The bounded deletion shared by all retention rules (app/database/repositories/retention.py, `_delete_batch`). */
module Retention {
  /** The `batchSize` candidates that come first by `order`, or all of them if there are fewer. */
  ghost predicate IsOldestBatch<K(!new)>(order: map<K, int>, candidates: set<K>, batchSize: nat, batch: set<K>) {
    && batch <= candidates <= order.Keys
    && |batch| == (if |candidates| < batchSize then |candidates| else batchSize)
    && forall x, y :: x in batch && y in candidates - batch ==> order[x] <= order[y]
  }

  lemma {:induction false} OldestExists<K>(order: map<K, int>, candidates: set<K>) returns (oldest: K)
    requires candidates != {} && candidates <= order.Keys
    ensures oldest in candidates && forall y :: y in candidates ==> order[oldest] <= order[y]
  {
    var k :| k in candidates;
    if candidates == {k} {
      oldest := k;
    } else {
      var rest := OldestExists(order, candidates - {k});
      oldest := if order[k] <= order[rest] then k else rest;
    }
  }

  method OldestBatch<K(!new, ==)>(order: map<K, int>, candidates: set<K>, batchSize: nat) returns (batch: set<K>)
    requires candidates <= order.Keys
    ensures IsOldestBatch(order, candidates, batchSize, batch)
  {
    var left := candidates;
    batch := {};
    while |batch| < batchSize && left != {}
      invariant left == candidates - batch && batch <= candidates && |batch| <= batchSize
      invariant |batch| + |left| == |candidates|
      invariant forall x, y :: x in batch && y in left ==> order[x] <= order[y]
      decreases left
    {
      ghost var first := OldestExists(order, left);
      var oldest :| oldest in left && forall y :: y in left ==> order[oldest] <= order[y];
      batch := batch + {oldest};
      left := left - {oldest};
    }
  }
}
