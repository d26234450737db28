/**
  The scan log itself: an append-only table of scans whose row ids count up
  from 1, the ingestion endpoint that appends to it, and the two endpoints
  that fold a windowed query over it (active bags at a gate, distinct bags
  per gate). The wall clock is the parameter `now` of each operation.
 */
module Store {
  import opened Scans
  import opened Queries
  import opened Aggregation

  class ScanStore {
    /** The rows of `bag_scans`, in the order they were logged. */
    var log: seq<Scan>
    /** The row id the next logged scan receives. */
    var nextId: nat

    /** Rows are never deleted, so the row ids are 1, 2, 3, ... in log order. */
    ghost predicate Valid()
      reads this
    {
      && nextId == |log| + 1
      && forall i :: 0 <= i < |log| ==> log[i].id == i + 1
    }

    constructor ()
      ensures Valid() && log == []
    {
      log := [];
      nextId := 1;
    }

    /**
      Ingestion: a request missing a field is rejected and nothing is logged;
      otherwise one scan stamped `now` is appended under a fresh id, larger
      than every id already logged, and acknowledged as logged.
     */
    method ScanBag(req: ScanRequest, now: int) returns (r: Result<Ack>)
      requires Valid()
      modifies this
      ensures Valid()
      ensures !IsComplete(req) ==> r == Err(InvalidInput) && log == old(log)
      ensures IsComplete(req) ==> r == Ok(Ack(old(nextId), LOGGED))
      ensures IsComplete(req) ==> log == old(log) + [Scan(old(nextId), req.bagTagId.value,
                                     req.destinationGate.value, req.locationScanned.value, now)]
      ensures r.Ok? ==> forall s :: s in old(log) ==> s.id < r.value.scanInternalId
    {
      if !IsComplete(req) {
        return Err(InvalidInput);
      }
      var id := nextId;
      log := log + [Scan(id, req.bagTagId.value, req.destinationGate.value, req.locationScanned.value, now)];
      nextId := nextId + 1;
      r := Ok(Ack(id, LOGGED));
    }

    /**
      The active bags of `gate`: the gate's scans in the trailing window of
      `sinceMinutes` minutes before `now`, newest first, folded so that each
      bag keeps only its first (newest) scan. The result is an active-bags
      view of the qualifying scans, listed newest first.
     */
    method ActiveBags(gate: string, now: int, sinceMinutes: int := 60) returns (r: seq<ActiveBag>)
      ensures IsActiveView(Filter(log, GateAtOrAfter(gate, SinceTime(now, sinceMinutes))), r)
      ensures forall i, j :: 0 <= i < j < |r| ==> r[i].lastScanAt >= r[j].lastScanAt
    {
      var w := Filter(log, GateAtOrAfter(gate, SinceTime(now, sinceMinutes)));
      var scans := SortByTimeDesc(w);
      r := LatestPerBag(scans);
      SortedViewIsActiveView(w, scans, r);
    }

    /**
      The distinct-bag count per gate: over the scans in the trailing window,
      each (gate, bag tag) key is counted once toward its gate. Every gate
      with a scan in the window has an entry, at least 1, equal to the
      number of distinct bags routed to it; no other gate has one.
     */
    method CountBagsByGate(now: int, sinceMinutes: int := 60) returns (counts: map<string, nat>)
      ensures counts.Keys == Gates(Filter(log, AtOrAfter(SinceTime(now, sinceMinutes))))
      ensures forall g :: g in counts ==>
                counts[g] == |BagsToward(Filter(log, AtOrAfter(SinceTime(now, sinceMinutes))), g)|
      ensures forall g :: g in counts ==> counts[g] >= 1
    {
      counts := CountPerGate(Filter(log, AtOrAfter(SinceTime(now, sinceMinutes))));
    }
  }

  /** Logs a check-in scan at `t1` and a security scan at `t2` of bag B001, both toward gate G1. */
  method CheckinThenSecurity(t1: int, t2: int) returns (store: ScanStore)
    ensures store.Valid()
    ensures store.log == [Scan(1, "B001", "G1", "Checkin", t1), Scan(2, "B001", "G1", "Security", t2)]
  {
    store := new ScanStore();
    var ack1 := store.ScanBag(ScanRequest(Some("B001"), Some("G1"), Some("Checkin")), t1);
    var ack2 := store.ScanBag(ScanRequest(Some("B001"), Some("G1"), Some("Security")), t2);
  }

  /**
    After a check-in at `t1` and a later security scan at `t2`, the
    latest-scan lookup of B001 answers the security scan.
   */
  method LatestScanScenario(t1: int, t2: int)
    requires t1 < t2
  {
    var store := CheckinThenSecurity(t1, t2);
    var security := Scan(2, "B001", "G1", "Security", t2);
    var latest := GetBagScans(store.log, "B001", latest := true);
    assert security in store.log;
    assert latest == Ok([security]);
  }

  /**
    After a check-in at `t1` and a later security scan at `t2`, the one-hour
    active-bags view of G1 at `t2` holds B001 once, at security, whether or
    not the check-in still falls inside the hour.
   */
  method ActiveBagsScenario(t1: int, t2: int)
    requires t1 < t2
  {
    var store := CheckinThenSecurity(t1, t2);
    var security := Scan(2, "B001", "G1", "Security", t2);
    var active := store.ActiveBags("G1", t2);
    ghost var w := Filter(store.log, GateAtOrAfter("G1", SinceTime(t2, 60)));
    assert security in w;
    SingleBagView(w, security, active);
    assert active == [ActiveBag("B001", t2, "Security")];
  }
}
