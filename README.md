# Baggage scan log — a Dafny model

The system tracks bags through an airport as an append-only log of scan
events. Each scan records a bag tag, the gate the bag is routed to, the
place it was scanned, a time and a row id. Four read endpoints derive views
from that log:

- a bag's history, newest first, or only its latest scan;
- a gate's history, newest first;
- the bags active at a gate in a trailing window, one entry per bag, at its newest scan;
- the number of distinct bags routed to each gate in a trailing window.

This project models that core, all of it in `main.py`, in four modules:

- `Scans` (`scans.dfy`) holds the records. It has the scan, the ingestion
  request, the acknowledgement, the active-bag entry and the two error kinds.
  It also fixes the window start: `now - sinceMinutes` minutes, with
  timestamps counted in microseconds.

Three definitions in `Scans` carry no contract of their own; the contracts
of the other members are stated through them:

- `IsComplete`: the request carries all three required fields of the input
  model (main.py:29-32).
- `EntryOf`: the active-bags entry built from a scan, with its bag tag, its
  time as the last scan time and its location as the last location
  (main.py:84-88).
- `SinceTime`: the window start `now` minus `sinceMinutes` minutes
  (main.py:73 and main.py:94).
- `Queries` (`queries.dfy`) holds the database queries as functions over the
  log: filter, then order by timestamp descending. It also holds the sets
  that specify the two aggregate views (`BagsToward`, `Gates`,
  `GateBagPairs`), the predicate `IsActiveView`, and the lemmas about them.
- `Aggregation` (`aggregation.dfy`) holds the two in-memory folds as methods
  with loops. One keeps a `seen` set of bag tags. The other keeps a `seen`
  set of (gate, bag tag) keys and a per-gate counter map.
- `Store` (`store.dfy`) holds the class `ScanStore`. Its fields are the log
  and the next row id. Its methods are ingestion, which appends, and the two
  aggregate endpoints, which run a query and then a fold. Beside the class
  are two client scenarios: a check-in followed by a security scan.

The wall clock is a parameter `now`. A new scan is stamped with the `now`
of its ingestion, as the column default `datetime.utcnow` does.

Three behaviours one might expect are not what the code does, and the model
follows the code:

- One might expect timestamp ties to be broken by the larger id. The code
  orders by timestamp only, so the order among ties is up to the database.
  The model's sort puts the later-logged row first, and no proved property
  depends on that.
- One might expect a scan whose time is after `now` to stay out of the
  window. The code's window has only a lower bound (`timestamp >= since`),
  so such a scan is in the window. The model has only the lower bound too.
- One might expect a request to carry its own timestamp. The code's request
  has no timestamp field, so every scan is stamped at ingestion.

The endpoints' defaults are kept as default arguments: `latest` is `false`
and `sinceMinutes` is 60.

## Model

| member | source | states |
|---|---|---|
| `Store.ScanStore.constructor` | main.py:18-26 | the table starts empty and the first row id will be 1 |
| `Store.ScanStore.ScanBag` | main.py:41-51 | a request missing a field is rejected with `InvalidInput` and logs nothing. Otherwise exactly one scan is appended. It carries the request's bag, gate and location, the time `now`, and the id `nextId`. That id is larger than every id already logged. Earlier rows are unchanged, the acknowledgement is `(id, "logged")`, and ids stay 1, 2, 3, … |
| `Queries.Filter` | main.py:74-77 | the result holds each row that satisfies the conditions exactly as often as the log does, and no other row |
| `Queries.SortByTimeDesc` | main.py:77 | the result is newest first and is a permutation of its input |
| `Queries.BagScans` | main.py:56 | exactly the bag's scans, as a permutation of that filter, newest first |
| `Queries.GetBagScans` | main.py:55-62 | `latest` defaults to false. Without `latest`: always succeeds. The result is the bag's scans newest first, and an unknown bag gets an empty list. With `latest`: fails with `NotFound("No scans found")` exactly when the bag has no scan. Otherwise the result is one scan of that bag, taken from the log, with no scan of the bag newer |
| `Queries.GetScansForGate` | main.py:66-68 | exactly the gate's scans, as a permutation of that filter, newest first |
| `Aggregation.LatestPerBag` | main.py:79-89 | over newest-first scans, the fold emits one entry per distinct bag and reports exactly the bags of its input. Each entry is taken from a scan, and no scan of that bag is newer. Entries come out newest first |
| `Aggregation.SortedViewIsActiveView` | main.py:74-89 | folding any newest-first permutation of the qualifying scans yields an active-bags view of them: distinct bags, each entry from a qualifying scan, latest wins, and every qualifying bag present |
| `Store.ScanStore.ActiveBags` | main.py:72-89 | `sinceMinutes` defaults to 60. The result is an active-bags view of the gate's scans with `timestamp >= now - sinceMinutes`, listed newest first |
| `Queries.ActiveViewTags` | main.py:79-88 | an active-bags view reports exactly the bag tags of the qualifying scans |
| `Queries.DistinctTagsCount` | main.py:82-84 | a view with one entry per bag has as many entries as distinct bag tags |
| `Queries.ActiveViewsSameBags` | main.py:74-88 | any two active-bags views of the same scans report the same bags and have the same length |
| `Queries.ActiveViewsSameTimes` | main.py:74-88 | any two active-bags views of the same scans give each bag the same last scan time. Only the location may differ, between scans at the same instant |
| `Queries.SingleBagView` | main.py:79-88 | when every qualifying scan is of one bag and one scan is strictly its newest, the view is that bag alone, at that scan |
| `Queries.KeySetsSnoc` | main.py:100-104 | one more scan adds its (gate, bag) key and its gate. It adds its bag to its own gate's distinct bags and leaves every other gate's bags unchanged, so a re-routed bag counts once at each gate |
| `Queries.PairsAndBags` | main.py:101-104 | a (gate, bag) key has been seen exactly when the bag is among the gate's distinct bags. A gate without scans has no bags, and a gate with scans has at least one |
| `Aggregation.TallyStep` | main.py:100-104 | one step of the counting fold, seen key or new key, keeps the seen set and the counts equal to the key set, the gate set and the distinct-bag counts of the scans walked so far |
| `Aggregation.CountPerGate` | main.py:97-106 | the counted gates are exactly the gates of the scans. Each count is the number of distinct bags routed to that gate, so it is at least 1, and no gate appears with 0 |
| `Store.ScanStore.CountBagsByGate` | main.py:93-106 | `sinceMinutes` defaults to 60. The counts are as for `CountPerGate`, over the log's scans with `timestamp >= now - sinceMinutes` |
| `Queries.WiderWindowStartsEarlier` | main.py:73 | a longer window ending at the same `now` starts no later; the same start is computed at main.py:94 for the gate counts |
| `Queries.ExtendedViewKeepsBags` | main.py:79-88 | when a second set of qualifying scans adds only scans older than every scan of the first, its active-bags view keeps every bag of the first view, at the same last scan time, and is no shorter |
| `Queries.WiderWindowActiveView` | main.py:73-76 | widening a gate's active-bags window loses no bag, never shortens the view, and leaves each kept bag's last scan time unchanged |
| `Queries.WiderWindowCountsNoLess` | main.py:94-95 | widening the gate-count window loses no gate and no (gate, bag) key, so no gate's distinct-bag count goes down |
| `Queries.GateCountMatchesActiveBags` | main.py:72-106 | for the same log and window, a gate's distinct-bag count equals the length of its active-bags view. The gate is absent from the counts exactly when that view is empty |

## Left out

- HTTP routing, status codes and request parsing are not modelled. The 404 of the latest lookup is the `NotFound` error, and a request missing a field is the `InvalidInput` error.
- The response models are not modelled. The bag and gate histories are returned as whole scan records, while the endpoint's output type drops the row id. The active-bags and gate-count responses are returned as a sequence and a map rather than JSON lists.
- The database engine, session, `commit` and `refresh` are replaced by the in-memory log field. A storage failure is never modelled, because it surfaces only from the engine.
- `datetime.utcnow()` is replaced by the parameter `now`.
- `Queries.SortByTimeDesc`: the order among scans with equal timestamps is up to the database in the source. The model's later-logged-first order is a modelling choice that no lemma relies on.
- `Store.ScanStore.CountBagsByGate`: the order of the gates in the response comes from dict insertion order, so the result is a map from gate to count. The windowed query is unordered, and the model walks it in log order.
- `Store.ScanStore.ScanBag`: row ids and timestamps are unbounded integers. The 64-bit id column and the `datetime` range are not modelled.
- `Store.ScanStore.ActiveBags`: the window start is an unbounded integer. In the source, `now - timedelta(minutes=since_minutes)` raises an overflow error once the start would fall before year 1 or after year 9999, roughly `since_minutes` above 1.06e9 or below -4.2e9. That error path is not modelled.
- `Store.ScanStore.CountBagsByGate`: the same overflow of the window start, and the same omission.
- `Store.ScanStore.constructor`: models only a fresh database. The source opens the file `./baggage.db` and `create_all` keeps existing rows, so after a restart the table may be non-empty and ids continue from the stored ones. `Valid()` still holds across a restart, because no row is ever deleted.
- The shared global session and concurrent requests are not modelled, because each operation is taken to run alone.
- Reads never change the log: the query functions are pure, and the aggregate methods carry no `modifies` clause. For two active-bags reads with no append in between, what is proved is that they report the same bags, the same length and the same last scan times (`ActiveViewsSameBags`, `ActiveViewsSameTimes`). That they are equal follows from the method's deterministic body, not from a proved contract.
