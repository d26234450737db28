/**
  The two in-memory folds the aggregate endpoints run over a query result:
  keep-the-first-scan-per-bag over a newest-first sequence, and count each
  (gate, bag tag) key once per gate.
 */
module Aggregation {
  import opened Scans
  import opened Queries

  /**
    Walks newest-first scans keeping a set of bag tags already seen and
    emitting an entry for each bag the first time it shows up. That first
    scan is the bag's newest: every entry is taken from some scan, no scan of
    the same bag is newer, every bag of `scans` has an entry, no bag has two,
    and the entries stay newest first.
   */
  method LatestPerBag(scans: seq<Scan>) returns (r: seq<ActiveBag>)
    requires Descending(scans)
    ensures IsFirstPerBag(scans, r)
    ensures forall a, b :: 0 <= a < b < |r| ==> r[a].lastScanAt >= r[b].lastScanAt
  {
    var seen: set<string> := {};
    r := [];
    var i := 0;
    while i < |scans|
      invariant 0 <= i <= |scans|
      invariant seen == set j | 0 <= j < i :: scans[j].bagTagId
      invariant seen == TagsOf(r)
      invariant DistinctTags(r)
      invariant forall e :: e in r ==> exists j :: 0 <= j < i && EntryOf(scans[j]) == e
      invariant forall e, k :: e in r && 0 <= k < |scans| && scans[k].bagTagId == e.bagTagId ==>
                  scans[k].timestamp <= e.lastScanAt
      invariant forall a, b :: 0 <= a < b < |r| ==> r[a].lastScanAt >= r[b].lastScanAt
      invariant i < |scans| ==> forall e :: e in r ==> e.lastScanAt >= scans[i].timestamp
    {
      var s := scans[i];
      if s.bagTagId !in seen {
        seen := seen + {s.bagTagId};
        assert TagsOf(r + [EntryOf(s)]) == TagsOf(r) + {s.bagTagId};
        r := r + [EntryOf(s)];
      }
      i := i + 1;
    }
    assert forall s :: s in scans <==> exists j :: 0 <= j < i && scans[j] == s;
  }

  /**
    `r` keeps one entry per bag of `scans`, reports exactly their bags, and
    takes each entry from a scan of `scans` that no scan of the same bag is
    newer than.
   */
  ghost predicate IsFirstPerBag(scans: seq<Scan>, r: seq<ActiveBag>) {
    && DistinctTags(r)
    && TagsOf(r) == (set s | s in scans :: s.bagTagId)
    && (forall e :: e in r ==> exists j :: 0 <= j < |scans| && EntryOf(scans[j]) == e)
    && (forall e, k :: e in r && 0 <= k < |scans| && scans[k].bagTagId == e.bagTagId ==>
          scans[k].timestamp <= e.lastScanAt)
  }

  /**
    Folding a newest-first arrangement of the qualifying scans `w` with
    `LatestPerBag` yields an active-bags view of `w`.
   */
  lemma SortedViewIsActiveView(w: seq<Scan>, scans: seq<Scan>, r: seq<ActiveBag>)
    requires multiset(scans) == multiset(w)
    requires IsFirstPerBag(scans, r)
    ensures IsActiveView(w, r)
  {
    assert forall s :: s in scans <==> s in w by {
      forall s ensures s in scans <==> s in w {
        assert s in scans <==> s in multiset(scans);
        assert s in w <==> s in multiset(w);
      }
    }
    forall s | s in w ensures exists i :: 0 <= i < |r| && r[i].bagTagId == s.bagTagId {
      assert s.bagTagId in TagsOf(r);
    }
  }

  /** What the counting fold knows after walking the scans `done`. */
  ghost predicate Tallied(done: seq<Scan>, seen: set<(string, string)>, counts: map<string, nat>) {
    && seen == GateBagPairs(done)
    && counts.Keys == Gates(done)
    && forall g :: g in counts ==> counts[g] == |BagsToward(done, g)|
  }

  /** One step of the counting fold keeps `Tallied`. */
  lemma TallyStep(done: seq<Scan>, s: Scan, seen: set<(string, string)>, counts: map<string, nat>)
    requires Tallied(done, seen, counts)
    ensures (s.destinationGate, s.bagTagId) in seen ==> Tallied(done + [s], seen, counts)
    ensures (s.destinationGate, s.bagTagId) !in seen ==>
              Tallied(done + [s], seen + {(s.destinationGate, s.bagTagId)},
                      counts[s.destinationGate := (if s.destinationGate in counts then counts[s.destinationGate] else 0) + 1])
  {
    KeySetsSnoc(done, s);
    PairsAndBags(done, s.destinationGate, s.bagTagId);
  }

  /**
    Walks the scans keeping a set of (gate, bag tag) keys already seen and
    adding 1 to a gate's count the first time one of its keys shows up. The
    gates counted are exactly the gates of `w`, and each count is the number
    of distinct bags routed to that gate, so at least 1.
   */
  method CountPerGate(w: seq<Scan>) returns (counts: map<string, nat>)
    ensures counts.Keys == Gates(w)
    ensures forall g :: g in counts ==> counts[g] == |BagsToward(w, g)|
    ensures forall g :: g in counts ==> counts[g] >= 1
  {
    counts := map[];
    var seen: set<(string, string)> := {};
    var i := 0;
    while i < |w|
      invariant 0 <= i <= |w|
      invariant Tallied(w[..i], seen, counts)
    {
      var s := w[i];
      var key := (s.destinationGate, s.bagTagId);
      assert w[..i + 1] == w[..i] + [s];
      TallyStep(w[..i], s, seen, counts);
      if key !in seen {
        seen := seen + {key};
        counts := counts[s.destinationGate := (if s.destinationGate in counts then counts[s.destinationGate] else 0) + 1];
      }
      i := i + 1;
    }
    assert w[..i] == w;
    forall g | g in counts ensures counts[g] >= 1 {
      PairsAndBags(w, g, "");
    }
  }
}
