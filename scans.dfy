/**
  The records of the baggage scan log: one immutable scan event per row of the
  `bag_scans` table, the request that creates one, the acknowledgement the
  ingestion endpoint returns, and the entries of the active-bags view.
 */
module Scans {

  datatype Option<T> = None | Some(value: T)

  /** The two ways a request can fail before or instead of producing a value. */
  datatype Error =
    | InvalidInput              // a required field of the scan request is missing
    | NotFound(detail: string)  // a single-scan lookup found nothing

  datatype Result<T> = Ok(value: T) | Err(error: Error)

  /** The detail text of the not-found answer of the latest-scan lookup. */
  const NO_SCANS_FOUND: string := "No scans found"

  /** The status the ingestion endpoint reports for a stored scan. */
  const LOGGED: string := "logged"

  /**
    Timestamps are counted in microseconds, the resolution of a `datetime`;
    a window of `m` minutes spans `m * TICKS_PER_MINUTE` of them.
   */
  const TICKS_PER_MINUTE: int := 60_000_000

  /** One stored scan event: bag tag, destination gate, scan point, time and row id. */
  datatype Scan = Scan(
    id: nat,
    bagTagId: string,
    destinationGate: string,
    locationScanned: string,
    timestamp: int)

  /** The body of an ingestion request; a `None` field is a field the caller left out. */
  datatype ScanRequest = ScanRequest(
    bagTagId: Option<string>,
    destinationGate: Option<string>,
    locationScanned: Option<string>)

  /** The request carries all three required fields. */
  predicate IsComplete(req: ScanRequest) {
    req.bagTagId.Some? && req.destinationGate.Some? && req.locationScanned.Some?
  }

  /** The acknowledgement of a stored scan: its row id and the status text. */
  datatype Ack = Ack(scanInternalId: nat, status: string)

  /** One entry of the active-bags view of a gate. */
  datatype ActiveBag = ActiveBag(bagTagId: string, lastScanAt: int, lastLocation: string)

  /** The entry a scan contributes to the active-bags view when it is its bag's latest. */
  function EntryOf(s: Scan): ActiveBag {
    ActiveBag(s.bagTagId, s.timestamp, s.locationScanned)
  }

  /** The start of the trailing window of `sinceMinutes` minutes that ends at `now`. */
  function SinceTime(now: int, sinceMinutes: int): int {
    now - sinceMinutes * TICKS_PER_MINUTE
  }
}
