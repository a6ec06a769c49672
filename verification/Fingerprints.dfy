/**
 * Rolling-window message deduplication (app/database/queue.py, `register_fingerprint`) together
 * with the batched retention cleanup of its table (app/database/repositories/retention.py).
 * Times are whole microseconds of one clock.
 */
module Fingerprints {
  import opened Wrappers
  import opened Retention

  datatype Key = Key(chatId: int, fingerprint: string)

  /** `recent_message_fingerprints`: when each fingerprint was last seen. */
  type Table = map<Key, int>

  predicate Admits(seen: Table, k: Key, now: int, window: int) {
    k in seen ==> seen[k] <= now - window
  }

  function Expired(seen: Table, now: int, ttl: int, locked: set<Key>): set<Key> {
    set k | k in seen && seen[k] < now - ttl && k !in locked
  }

  /** What one bounded deletion removes: the oldest expired rows that no one has locked. */
  ghost predicate IsBatch(seen: Table, now: int, ttl: int, batchSize: nat, locked: set<Key>, removed: set<Key>) {
    IsOldestBatch(seen, Expired(seen, now, ttl, locked), batchSize, removed)
  }

  class FingerprintRepository {
    var seen: Table

    constructor ()
      ensures seen == map[]
    {
      seen := map[];
    }

    /** Upserts the sighting and reports whether the previous one is absent or old enough. */
    method RegisterFingerprint(k: Key, now: int, window: int) returns (admitted: bool)
      modifies this
      ensures seen == old(seen)[k := now]
      ensures admitted <==> Admits(old(seen), k, now, window)
    {
      var prior := if k in seen then Some(seen[k]) else None;
      seen := seen[k := now];
      admitted := prior == None || prior.value <= now - window;
    }

    method DeleteBatch(now: int, ttl: int, batchSize: nat, locked: set<Key>) returns (removed: set<Key>)
      modifies this
      ensures IsBatch(old(seen), now, ttl, batchSize, locked, removed)
      ensures seen == old(seen) - removed
    {
      removed := OldestBatch(seen, Expired(seen, now, ttl, locked), batchSize);
      seen := seen - removed;
    }
  }

  // ----- Histories: sightings interleaved with cleanups -----

  datatype Event =
    | Sighting(now: int, key: Key)
    | Cleanup(now: int, locked: set<Key>, removed: set<Key>)

  function After(h: seq<Event>): Table {
    if h == [] then map[]
    else
      var before := After(h[..|h| - 1]);
      match h[|h| - 1]
      case Sighting(now, k) => before[k := now]
      case Cleanup(_, _, removed) => before - removed
  }

  /** Time never runs backwards and every cleanup is one bounded batch. */
  ghost predicate Legal(h: seq<Event>, ttl: int, batchSize: nat) {
    h != [] ==>
      && Legal(h[..|h| - 1], ttl, batchSize)
      && (|h| > 1 ==> h[|h| - 2].now <= h[|h| - 1].now)
      && (h[|h| - 1].Cleanup? ==>
            IsBatch(After(h[..|h| - 1]), h[|h| - 1].now, ttl, batchSize, h[|h| - 1].locked, h[|h| - 1].removed))
  }

  /** Whether the last event of `h`, a sighting, is admitted. */
  predicate Admitted(h: seq<Event>, window: int)
    requires h != [] && h[|h| - 1].Sighting?
  {
    Admits(After(h[..|h| - 1]), h[|h| - 1].key, h[|h| - 1].now, window)
  }

  /** Reference: no earlier sighting of it, admitted or suppressed, lies inside the preceding window. */
  predicate Fresh(h: seq<Event>, window: int)
    requires h != [] && h[|h| - 1].Sighting?
  {
    !exists e :: e in h[..|h| - 1] && e.Sighting? && e.key == h[|h| - 1].key && e.now > h[|h| - 1].now - window
  }

  function LastSighting(h: seq<Event>, k: Key): Option<int> {
    if h == [] then None
    else if h[|h| - 1].Sighting? && h[|h| - 1].key == k then Some(h[|h| - 1].now)
    else LastSighting(h[..|h| - 1], k)
  }

  /** A row holds the last sighting, and is missing only if that sighting has outlived the ttl. */
  lemma {:induction false} TableTracksLastSighting(h: seq<Event>, ttl: int, batchSize: nat, k: Key)
    requires h != [] && Legal(h, ttl, batchSize)
    ensures k in After(h) ==> LastSighting(h, k) == Some(After(h)[k])
    ensures k !in After(h) && LastSighting(h, k).Some? ==> LastSighting(h, k).value < h[|h| - 1].now - ttl
  {
    if |h| > 1 {
      TableTracksLastSighting(h[..|h| - 1], ttl, batchSize, k);
    }
  }

  lemma {:induction false} EventsPrecedeLast(h: seq<Event>, ttl: int, batchSize: nat, e: Event)
    requires Legal(h, ttl, batchSize) && e in h
    ensures e.now <= h[|h| - 1].now
  {
    assert h == h[..|h| - 1] + [h[|h| - 1]];
    if e in h[..|h| - 1] {
      EventsPrecedeLast(h[..|h| - 1], ttl, batchSize, e);
    }
  }

  lemma {:induction false} LastSightingIsSeen(h: seq<Event>, k: Key)
    ensures LastSighting(h, k).Some? ==> Sighting(LastSighting(h, k).value, k) in h
  {
    if h != [] {
      assert h == h[..|h| - 1] + [h[|h| - 1]];
      LastSightingIsSeen(h[..|h| - 1], k);
    }
  }

  lemma {:induction false} LastSightingIsLatest(h: seq<Event>, ttl: int, batchSize: nat, e: Event)
    requires Legal(h, ttl, batchSize)
    requires e in h && e.Sighting?
    ensures LastSighting(h, e.key).Some? && e.now <= LastSighting(h, e.key).value
  {
    var init, last := h[..|h| - 1], h[|h| - 1];
    assert h == init + [last];
    if last.Sighting? && last.key == e.key {
      EventsPrecedeLast(h, ttl, batchSize, e);
    } else {
      LastSightingIsLatest(init, ttl, batchSize, e);
    }
  }

  /** With a ttl no shorter than the window, interleaved cleanups never change an admission. */
  lemma {:induction false} AdmittedExactlyWhenFresh(h: seq<Event>, window: int, ttl: int, batchSize: nat)
    requires h != [] && h[|h| - 1].Sighting? && Legal(h, ttl, batchSize)
    requires window <= ttl + 1
    ensures Admitted(h, window) <==> Fresh(h, window)
  {
    var init, last := h[..|h| - 1], h[|h| - 1];
    if init != [] {
      TableTracksLastSighting(init, ttl, batchSize, last.key);
      LastSightingIsSeen(init, last.key);
      forall e | e in init && e.Sighting? && e.key == last.key
        ensures LastSighting(init, e.key).Some? && e.now <= LastSighting(init, e.key).value
      {
        LastSightingIsLatest(init, ttl, batchSize, e);
      }
    }
  }

  /** Two admissions of one fingerprint are at least one window apart. */
  lemma AdmissionsAreOneWindowApart(h: seq<Event>, i: nat, window: int, ttl: int, batchSize: nat)
    requires i < |h| - 1 && h[|h| - 1].Sighting? && Legal(h, ttl, batchSize)
    requires window <= ttl + 1
    requires h[i].Sighting? && h[i].key == h[|h| - 1].key
    requires Admitted(h, window)
    ensures h[i].now + window <= h[|h| - 1].now
  {
    AdmittedExactlyWhenFresh(h, window, ttl, batchSize);
    assert h[..|h| - 1][i] == h[i];
  }

  /** A history without its cleanups. */
  function Sightings(h: seq<Event>): (r: seq<Event>)
    ensures forall e :: e in r <==> e in h && e.Sighting?
    ensures h != [] && h[|h| - 1].Sighting? ==> r != [] && r[|r| - 1] == h[|h| - 1]
  {
    if h == [] then []
    else
      assert h == h[..|h| - 1] + [h[|h| - 1]];
      Sightings(h[..|h| - 1]) + (if h[|h| - 1].Sighting? then [h[|h| - 1]] else [])
  }

  lemma {:induction false} SightingsAreLegal(h: seq<Event>, ttl: int, batchSize: nat)
    requires Legal(h, ttl, batchSize)
    ensures Legal(Sightings(h), ttl, batchSize)
  {
    if h != [] {
      var before, last := Sightings(h[..|h| - 1]), h[|h| - 1];
      SightingsAreLegal(h[..|h| - 1], ttl, batchSize);
      if last.Sighting? {
        if before != [] {
          EventsPrecedeLast(h[..|h| - 1], ttl, batchSize, before[|before| - 1]);
        }
        LegalGrows(before, last, ttl, batchSize);
      } else {
        assert Sightings(h) == before;
      }
    }
  }

  lemma LegalGrows(h: seq<Event>, e: Event, ttl: int, batchSize: nat)
    requires Legal(h, ttl, batchSize) && e.Sighting?
    requires h != [] ==> h[|h| - 1].now <= e.now
    ensures Legal(h + [e], ttl, batchSize)
  {
  }

  /** Erasing the cleanups from a history leaves its last admission unchanged. */
  lemma CleanupIsInvisible(h: seq<Event>, window: int, ttl: int, batchSize: nat)
    requires h != [] && h[|h| - 1].Sighting? && Legal(h, ttl, batchSize)
    requires window <= ttl + 1
    ensures Admitted(h, window) <==> Admitted(Sightings(h), window)
  {
    SightingsAreLegal(h, ttl, batchSize);
    AdmittedExactlyWhenFresh(h, window, ttl, batchSize);
    AdmittedExactlyWhenFresh(Sightings(h), window, ttl, batchSize);
    assert Sightings(h)[..|Sightings(h)| - 1] == Sightings(h[..|h| - 1]);
  }

  /** A shorter ttl does show: the forgotten fingerprint is admitted inside its window. */
  lemma ShortTtlIsVisible(k: Key, window: int, ttl: int, batchSize: nat) returns (h: seq<Event>)
    requires 0 <= ttl && ttl + 1 < window && batchSize >= 1
    ensures |h| == 3 && h[2].Sighting? && Legal(h, ttl, batchSize)
    ensures Admitted(h, window) && !Fresh(h, window)
  {
    var first := [Sighting(0, k)];
    h := first + [Cleanup(ttl + 1, {}, {k})] + [Sighting(ttl + 1, k)];
    assert h[..2][..1] == first && h[..1] == first && first[..0] == [];
    assert After(first) == map[k := 0];
    assert Expired(After(first), ttl + 1, ttl, {}) == {k};
    assert Legal(first, ttl, batchSize);
    assert Legal(h[..2], ttl, batchSize);
    assert After(h[..2]) == map[];
    assert h[0] in h[..2];
  }

  ghost predicate AlwaysExact(window: int, ttl: int, batchSize: nat) {
    forall h: seq<Event> :: h != [] && h[|h| - 1].Sighting? && Legal(h, ttl, batchSize) ==> (Admitted(h, window) <==> Fresh(h, window))
  }

  /** Retention is invisible to deduplication exactly when the ttl covers the window. */
  lemma RetentionInvisibleIffTtlCoversWindow(window: int, ttl: int, batchSize: nat)
    requires 0 <= ttl && batchSize >= 1
    ensures AlwaysExact(window, ttl, batchSize) <==> window <= ttl + 1
  {
    if window <= ttl + 1 {
      forall h: seq<Event> | h != [] && h[|h| - 1].Sighting? && Legal(h, ttl, batchSize)
        ensures Admitted(h, window) <==> Fresh(h, window)
      {
        AdmittedExactlyWhenFresh(h, window, ttl, batchSize);
      }
    } else {
      var h := ShortTtlIsVisible(Key(0, ""), window, ttl, batchSize);
    }
  }
}
