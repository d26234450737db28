/**
  The read side of the scan log: the filter-then-order queries the endpoints
  issue against the `bag_scans` table, the sets that say what the aggregate
  views must contain, and the lemmas relating the two aggregate views.
 */
module Queries {
  import opened Scans

  /**
    A conjunction of the filter conditions the endpoints use: an optional
    bag tag, an optional destination gate and an optional window start
    (`timestamp >= since`).
   */
  datatype Query = Query(bag: Option<string>, gate: Option<string>, since: Option<int>)

  function ByBag(bag: string): Query { Query(Some(bag), None, None) }
  function ByGate(gate: string): Query { Query(None, Some(gate), None) }
  function AtOrAfter(since: int): Query { Query(None, None, Some(since)) }
  function GateAtOrAfter(gate: string, since: int): Query { Query(None, Some(gate), Some(since)) }

  predicate Matches(q: Query, s: Scan) {
    && (q.bag.Some? ==> s.bagTagId == q.bag.value)
    && (q.gate.Some? ==> s.destinationGate == q.gate.value)
    && (q.since.Some? ==> s.timestamp >= q.since.value)
  }

  /** The rows of `s` that satisfy `q`, each as often as it occurs in `s`. */
  function Filter(s: seq<Scan>, q: Query): (r: seq<Scan>)
    ensures forall x :: multiset(r)[x] == (if Matches(q, x) then multiset(s)[x] else 0)
    ensures forall x :: x in r <==> x in s && Matches(q, x)
  {
    if s == [] then []
    else
      assert s == [s[0]] + s[1..];
      (if Matches(q, s[0]) then [s[0]] else []) + Filter(s[1..], q)
  }

  /** Newest first: `ORDER BY timestamp DESC`. */
  predicate Descending(s: seq<Scan>) {
    forall i, j :: 0 <= i < j < |s| ==> s[i].timestamp >= s[j].timestamp
  }

  /**
    Places `x` in the newest-first sequence `r` after every row at least as
    new as itself.
   */
  function Insert(x: Scan, r: seq<Scan>): (t: seq<Scan>)
    requires Descending(r)
    ensures Descending(t)
    ensures multiset(t) == multiset(r) + multiset{x}
    ensures forall y :: y in t ==> y == x || y in r
  {
    if r == [] || r[0].timestamp < x.timestamp then
      ConsDescending(x, r);
      [x] + r
    else
      var rest := Insert(x, r[1..]);
      ConsDescending(r[0], rest);
      assert r == [r[0]] + r[1..];
      [r[0]] + rest
  }

  /** Putting in front a scan no older than any of `rest` keeps the order. */
  lemma ConsDescending(h: Scan, rest: seq<Scan>)
    requires Descending(rest)
    requires forall y :: y in rest ==> y.timestamp <= h.timestamp
    ensures Descending([h] + rest)
  {
  }

  /**
    The order a database returns for `ORDER BY timestamp DESC`. The source
    leaves the order among equal timestamps to the database; this model
    puts the later-logged row first, and nothing proved below depends on it.
   */
  function SortByTimeDesc(s: seq<Scan>): (r: seq<Scan>)
    ensures Descending(r)
    ensures multiset(r) == multiset(s)
  {
    if s == [] then []
    else
      assert s == [s[0]] + s[1..];
      Insert(s[0], SortByTimeDesc(s[1..]))
  }

  lemma HeadIsNewest(s: seq<Scan>)
    requires Descending(s) && s != []
    ensures forall x :: x in s ==> x.timestamp <= s[0].timestamp
  {
  }

  /** All scans of a bag, newest first. */
  function BagScans(log: seq<Scan>, bag: string): (r: seq<Scan>)
    ensures Descending(r)
    ensures forall x :: multiset(r)[x] == (if x.bagTagId == bag then multiset(log)[x] else 0)
    ensures forall x :: x in r <==> x in log && x.bagTagId == bag
  {
    SortByTimeDesc(Filter(log, ByBag(bag)))
  }

  /**
    The bag lookup: the bag's whole history newest first, or with `latest`
    only its newest scan, and not-found when the bag has no scan at all.
   */
  function GetBagScans(log: seq<Scan>, bag: string, latest: bool := false): (r: Result<seq<Scan>>)
    ensures !latest ==> r.Ok? && Descending(r.value)
    ensures !latest ==> forall x :: multiset(r.value)[x] == (if x.bagTagId == bag then multiset(log)[x] else 0)
    ensures !latest && (forall s :: s in log ==> s.bagTagId != bag) ==> r == Ok([])
    ensures latest ==> (r.Err? <==> forall s :: s in log ==> s.bagTagId != bag)
    ensures latest && r.Err? ==> r.error == NotFound(NO_SCANS_FOUND)
    ensures latest && r.Ok? ==> |r.value| == 1 && r.value[0] in log && r.value[0].bagTagId == bag
    ensures latest && r.Ok? ==> forall s :: s in log && s.bagTagId == bag ==> s.timestamp <= r.value[0].timestamp
  {
    var scans := BagScans(log, bag);
    if latest then
      if scans == [] then Err(NotFound(NO_SCANS_FOUND))
      else
        HeadIsNewest(scans);
        Ok([scans[0]])
    else Ok(scans)
  }

  /** The gate history: every scan routed to the gate, newest first. */
  function GetScansForGate(log: seq<Scan>, gate: string): (r: seq<Scan>)
    ensures Descending(r)
    ensures forall x :: multiset(r)[x] == (if x.destinationGate == gate then multiset(log)[x] else 0)
  {
    SortByTimeDesc(Filter(log, ByGate(gate)))
  }

  /** The distinct bag tags among the scans of `w` routed to `gate`. */
  ghost function BagsToward(w: seq<Scan>, gate: string): set<string> {
    set s | s in w && s.destinationGate == gate :: s.bagTagId
  }

  /** The gates at least one scan of `w` is routed to. */
  ghost function Gates(w: seq<Scan>): set<string> {
    set s | s in w :: s.destinationGate
  }

  /** The distinct (gate, bag tag) keys of the scans of `w`. */
  ghost function GateBagPairs(w: seq<Scan>): set<(string, string)> {
    set s | s in w :: (s.destinationGate, s.bagTagId)
  }

  /** How the three key sets grow when one more scan is folded in. */
  lemma KeySetsSnoc(w: seq<Scan>, x: Scan)
    ensures GateBagPairs(w + [x]) == GateBagPairs(w) + {(x.destinationGate, x.bagTagId)}
    ensures Gates(w + [x]) == Gates(w) + {x.destinationGate}
    ensures BagsToward(w + [x], x.destinationGate) == BagsToward(w, x.destinationGate) + {x.bagTagId}
    ensures forall g :: g != x.destinationGate ==> BagsToward(w + [x], g) == BagsToward(w, g)
  {
  }

  /** A (gate, bag) key has been seen exactly when the bag is among the gate's bags. */
  lemma PairsAndBags(w: seq<Scan>, gate: string, bag: string)
    ensures (gate, bag) in GateBagPairs(w) <==> bag in BagsToward(w, gate)
    ensures gate !in Gates(w) ==> BagsToward(w, gate) == {}
    ensures gate in Gates(w) ==> |BagsToward(w, gate)| >= 1
  {
    if gate in Gates(w) {
      var s :| s in w && s.destinationGate == gate;
      assert s.bagTagId in BagsToward(w, gate);
    }
  }

  /** The bag tags an active-bags view reports. */
  ghost function TagsOf(r: seq<ActiveBag>): set<string> {
    set e | e in r :: e.bagTagId
  }

  predicate DistinctTags(r: seq<ActiveBag>) {
    forall i, j :: 0 <= i < j < |r| ==> r[i].bagTagId != r[j].bagTagId
  }

  /**
    `r` is an active-bags view of the qualifying scans `w`: one entry per bag,
    every entry taken from a qualifying scan, that scan the newest of its bag,
    and no bag with a qualifying scan left out.
   */
  ghost predicate IsActiveView(w: seq<Scan>, r: seq<ActiveBag>) {
    && DistinctTags(r)
    && (forall e :: e in r ==> exists s :: s in w && EntryOf(s) == e)
    && (forall e, s :: e in r && s in w && s.bagTagId == e.bagTagId ==> s.timestamp <= e.lastScanAt)
    && (forall s :: s in w ==> exists i :: 0 <= i < |r| && r[i].bagTagId == s.bagTagId)
  }

  /** A view with one entry per bag tag has as many entries as tags. */
  lemma {:induction false} DistinctTagsCount(r: seq<ActiveBag>)
    requires DistinctTags(r)
    ensures |TagsOf(r)| == |r|
  {
    if r != [] {
      DistinctTagsCount(r[1..]);
      assert TagsOf(r) == {r[0].bagTagId} + TagsOf(r[1..]);
      assert r[0].bagTagId !in TagsOf(r[1..]);
    }
  }

  /** An active-bags view of `w` reports exactly the bags of `w`. */
  lemma ActiveViewTags(w: seq<Scan>, r: seq<ActiveBag>)
    requires IsActiveView(w, r)
    ensures TagsOf(r) == set s | s in w :: s.bagTagId
  {
  }

  /**
    Two active-bags views of the same scans report the same bags and have
    the same length.
   */
  lemma ActiveViewsSameBags(w: seq<Scan>, r1: seq<ActiveBag>, r2: seq<ActiveBag>)
    requires IsActiveView(w, r1) && IsActiveView(w, r2)
    ensures TagsOf(r1) == TagsOf(r2) && |r1| == |r2|
  {
    ActiveViewTags(w, r1);
    ActiveViewTags(w, r2);
    DistinctTagsCount(r1);
    DistinctTagsCount(r2);
  }

  /**
    Two active-bags views of the same scans give each bag the same last scan
    time; only the location of a bag whose two newest scans share an instant
    may differ.
   */
  lemma ActiveViewsSameTimes(w: seq<Scan>, r1: seq<ActiveBag>, r2: seq<ActiveBag>)
    requires IsActiveView(w, r1) && IsActiveView(w, r2)
    ensures forall e1, e2 :: e1 in r1 && e2 in r2 && e1.bagTagId == e2.bagTagId ==> e1.lastScanAt == e2.lastScanAt
  {
  }

  /** A view with distinct tags, all of them `bag`, has at most one entry. */
  lemma OneTagAtMostOneEntry(r: seq<ActiveBag>, bag: string)
    requires DistinctTags(r)
    requires forall e :: e in r ==> e.bagTagId == bag
    ensures |r| <= 1
  {
    DistinctTagsCount(r);
    assert TagsOf(r) == {} || TagsOf(r) == {bag};
  }

  /**
    When every qualifying scan is of one bag and `x` is strictly its newest,
    the active-bags view is that bag alone, at `x`.
   */
  lemma SingleBagView(w: seq<Scan>, x: Scan, r: seq<ActiveBag>)
    requires IsActiveView(w, r)
    requires x in w
    requires forall s :: s in w ==> s.bagTagId == x.bagTagId && (s == x || s.timestamp < x.timestamp)
    ensures r == [EntryOf(x)]
  {
    OneTagAtMostOneEntry(r, x.bagTagId);
    var i :| 0 <= i < |r| && r[i].bagTagId == x.bagTagId;
    assert r[0] in r;
    var s :| s in w && EntryOf(s) == r[0];
  }

  /**
    The gate count and the active-bags view agree: for the same log and the
    same window start, the number of distinct bags counted toward `gate` is
    the length of the gate's active-bags view, and the gate is missing from
    the counts exactly when that view is empty.
   */
  lemma GateCountMatchesActiveBags(log: seq<Scan>, gate: string, since: int, r: seq<ActiveBag>)
    requires IsActiveView(Filter(log, GateAtOrAfter(gate, since)), r)
    ensures |r| == |BagsToward(Filter(log, AtOrAfter(since)), gate)|
    ensures r == [] <==> gate !in Gates(Filter(log, AtOrAfter(since)))
  {
    var w := Filter(log, GateAtOrAfter(gate, since));
    var all := Filter(log, AtOrAfter(since));
    ActiveViewTags(w, r);
    assert TagsOf(r) == BagsToward(all, gate);
    DistinctTagsCount(r);
    if r != [] {
      assert r[0] in r;
    }
  }

  /** A longer trailing window ending at the same `now` starts no later. */
  lemma WiderWindowStartsEarlier(now: int, m1: int, m2: int)
    requires m1 <= m2
    ensures SinceTime(now, m2) <= SinceTime(now, m1)
  {
  }

  /** A subset of a finite set is no larger. */
  lemma {:induction false} SubsetCard<T>(a: set<T>, b: set<T>)
    requires a <= b
    ensures |a| <= |b|
  {
    if a != {} {
      var x :| x in a;
      SubsetCard(a - {x}, b - {x});
    }
  }

  /**
    When `w2` holds every scan of `w1` and adds only scans older than the
    start `since` every scan of `w1` is at, an active-bags view of `w2` keeps
    every bag of a view of `w1`, at the same last scan time.
   */
  lemma ExtendedViewKeepsBags(w1: seq<Scan>, w2: seq<Scan>, since: int, r1: seq<ActiveBag>, r2: seq<ActiveBag>)
    requires IsActiveView(w1, r1) && IsActiveView(w2, r2)
    requires forall s :: s in w1 ==> s in w2 && s.timestamp >= since
    requires forall s :: s in w2 ==> s in w1 || s.timestamp < since
    ensures TagsOf(r1) <= TagsOf(r2)
    ensures |r1| <= |r2|
    ensures forall e1, e2 :: e1 in r1 && e2 in r2 && e1.bagTagId == e2.bagTagId ==> e1.lastScanAt == e2.lastScanAt
  {
    ActiveViewTags(w1, r1);
    ActiveViewTags(w2, r2);
    DistinctTagsCount(r1);
    DistinctTagsCount(r2);
    SubsetCard(TagsOf(r1), TagsOf(r2));
    forall e1, e2 | e1 in r1 && e2 in r2 && e1.bagTagId == e2.bagTagId
      ensures e1.lastScanAt == e2.lastScanAt
    {
      var s1 :| s1 in w1 && EntryOf(s1) == e1;
      var s2 :| s2 in w2 && EntryOf(s2) == e2;
    }
  }

  /**
    Widening the active-bags window of a gate (`m1 <= m2` minutes before the
    same `now`) loses no bag and moves no bag's last scan time: the older
    scans the wider window adds are all older than every scan already in.
   */
  lemma WiderWindowActiveView(log: seq<Scan>, gate: string, now: int, m1: int, m2: int,
                              r1: seq<ActiveBag>, r2: seq<ActiveBag>)
    requires m1 <= m2
    requires IsActiveView(Filter(log, GateAtOrAfter(gate, SinceTime(now, m1))), r1)
    requires IsActiveView(Filter(log, GateAtOrAfter(gate, SinceTime(now, m2))), r2)
    ensures TagsOf(r1) <= TagsOf(r2)
    ensures |r1| <= |r2|
    ensures forall e1, e2 :: e1 in r1 && e2 in r2 && e1.bagTagId == e2.bagTagId ==> e1.lastScanAt == e2.lastScanAt
  {
    WiderWindowStartsEarlier(now, m1, m2);
    ExtendedViewKeepsBags(Filter(log, GateAtOrAfter(gate, SinceTime(now, m1))),
                          Filter(log, GateAtOrAfter(gate, SinceTime(now, m2))), SinceTime(now, m1), r1, r2);
  }

  /**
    Widening the gate-count window loses no gate and no (gate, bag) key, so
    no gate's distinct-bag count goes down.
   */
  lemma WiderWindowCountsNoLess(log: seq<Scan>, now: int, m1: int, m2: int, gate: string)
    requires m1 <= m2
    ensures Gates(Filter(log, AtOrAfter(SinceTime(now, m1)))) <= Gates(Filter(log, AtOrAfter(SinceTime(now, m2))))
    ensures BagsToward(Filter(log, AtOrAfter(SinceTime(now, m1))), gate)
              <= BagsToward(Filter(log, AtOrAfter(SinceTime(now, m2))), gate)
    ensures |BagsToward(Filter(log, AtOrAfter(SinceTime(now, m1))), gate)|
              <= |BagsToward(Filter(log, AtOrAfter(SinceTime(now, m2))), gate)|
  {
    WiderWindowStartsEarlier(now, m1, m2);
    SubsetCard(BagsToward(Filter(log, AtOrAfter(SinceTime(now, m1))), gate),
               BagsToward(Filter(log, AtOrAfter(SinceTime(now, m2))), gate));
  }
}
