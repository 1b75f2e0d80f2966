# ai-fe-debugger core in Dafny

This project models the two stateful components of the ai-fe-debugger telemetry system
and the code that sits between them.

- **The browser-side event buffer.** `EventTracker` (sdk/src/eventTracker.ts, bundled
  unchanged in frontend/public/ai-fe-debugger.js) appends tracked events to a buffer.
  On a timer it flushes the buffer: it swaps the buffer out, POSTs the batch, and puts
  the batch back at the front of the buffer when the `fetch` rejects.
- **The server-side aggregation store.** `MemoryStore` (backend/src/storage/memoryStore.ts,
  compiled twin backend/dist/storage/memoryStore.js) maps session ids to sessions. Each
  session holds an ordered event log, a cumulative error counter and the time of its
  last batch. One global counter stamps every stored event with an id.
- **The ingestion and query handlers.** backend/dist/controllers/eventsController.js
  validates a whole batch before storing any of it, answers 404 for unknown sessions,
  and projects sessions to summaries.
- **The error-analysis fan-out.** backend/src/controllers/aiController.ts pairs each
  error event of a session with the analyzer's answer for it.

## Files

- `wrappers.dfy` (module `Wrappers`): `Option`.
- `json.dfy` (module `Json`): the parsed JSON values the endpoint reads, JavaScript
  truthiness, and property access, which throws on `null`/`undefined`.
- `sessions.dfy` (module `Sessions`): the store as values. It has the records, the
  abstract state `StoreState`, the transitions `GetOrCreated`/`AddedEvents`, the views
  (`ValuesOf`, `SortByRecency`, totals), the store invariant `Inv`, and the lemmas.
- `store.dfy` (module `Store`): class `MemoryStore`. It keeps the real fields in place:
  `sessions`, `eventIdCounter`, and `order` for the Map's insertion order.
  `GetOrCreateSession` and `AddEvents` are proved equal to the matching `Sessions`
  transition and to keep `Inv`. The helpers `AppendAll` and `PushAll`, the two halves of
  `addEvents`, are proved equal to `Appended` and `Pushed`; between them `Inv` does not
  hold, because the error counter is added only at the end.
- `events_controller.dfy` (module `EventsController`): the ingestion validation as
  functions, and the three handlers.
- `ai_controller.dfy` (module `AiController`): `analyzeSessionErrors` and
  `getSessionInsights`. The analyzer and the session analyzer are function parameters.
- `tracker.dfy`: module `Delivery` holds the event flow as values, with conservation and
  ordering lemmas. Module `Tracker` holds class `EventTracker`, whose asynchronous
  `flush` is split at its `await` into `BeginFlush` and `CompleteFlush`.
- `wire.dfy` (module `Wire`): a tracker batch as the server parses it. It proves that
  such a batch passes validation and is stored in order.

The store's clock (`new Date()`) and the tracker's `Date.now()` are explicit `now`
parameters. The store assumes its clock does not go back for a session (`ClockNotBehind`).
The outcome of `fetch` is the boolean `resolved` given to `CompleteFlush`. The host's
`setInterval` handle is a constructor parameter.

## Model

| member | source | states |
|---|---|---|
| `Json.Property` | backend/dist/controllers/eventsController.js:19 | reading a property throws exactly on null/undefined; on an object it gives the own field |
| `Sessions.EmptyStore` | backend/dist/storage/memoryStore.js:5-8 | a new store has no sessions and the counter at 1, and satisfies the store invariant |
| `Sessions.StampAllRoundTrip` | backend/src/storage/memoryStore.ts:47-57 | stamping a batch keeps every item's type, timestamp and data in the given order, numbers the items consecutively from the counter, and records the session and append time |
| `Sessions.GetOrCreatedSpec` | backend/src/storage/memoryStore.ts:25-39 | lookup-or-insert keeps the invariant and is idempotent. A known id leaves the store unchanged, so the first user agent stays. An unknown id adds one session `{errorCount: 0, events: []}` with the given user agent or "unknown". No other session, the counter and the log change |
| `Sessions.AddedEventsKeepsInv` | backend/src/storage/memoryStore.ts:42-70 | `addEvents` keeps the invariant: each session's log is its events in arrival order, its `errorCount` is its number of "error" events, ids are numbered from 1 without gaps, and every event belongs to a stored session |
| `Sessions.AddedEventsSpec` | backend/src/storage/memoryStore.ts:42-70 | after `addEvents` (the transition `AddedEvents`, counting with `CountErrors`) the session's log is its old log followed by the stamped batch in order. `errorCount` grows by the batch's "error" items, `lastEventAt` is the append time, and the user agent and creation time are the first ones. Other sessions are unchanged and the counter advances by the batch length |
| `Sessions.StoredInLog` | backend/src/storage/memoryStore.ts:49 | every stored event's id was handed out by the counter and names its position in global arrival order |
| `Sessions.SessionIdsIncrease` | backend/src/storage/memoryStore.ts:57 | within a session, ids strictly increase in append order |
| `Sessions.EventIdsUnique` | backend/src/storage/memoryStore.ts:22 | two stored events with the same id, in any sessions, are the same event in the same session |
| `Sessions.FreshSessionCounts` | backend/dist/storage/memoryStore.js:26-47 | one batch into an empty store gives its session exactly the batch's length of events, the batch's number of "error" items, and the batch's fields with ids from 1 |
| `Sessions.TwoBatchesInOrder` | backend/dist/storage/memoryStore.js:38 | two batches appended to one session follow its earlier events in the order B1 ++ B2 |
| `Sessions.RedeliveryDuplicates` | backend/dist/storage/memoryStore.js:29-42 | appending the same batch twice stores it twice, as two runs with equal fields and different ids |
| `Sessions.ErrorEvents` | backend/src/controllers/aiController.ts:15 | the filter keeps an event exactly when it is in the list and has type "error", and the result is no longer than the list |
| `Sessions.ValuesOf` | backend/src/storage/memoryStore.ts:79 | the Map's values in insertion order: element i is the session stored under the i-th inserted id |
| `Sessions.ValuesOfMembers` | backend/src/storage/memoryStore.ts:86 | with the invariant, the Map's values are exactly the stored sessions, each under its own id |
| `Sessions.SortByRecencySpec` | backend/src/storage/memoryStore.ts:78-82 | the stable sort `SortByRecency` (insertion sort by `InsertByRecency`) gives a list that is newest first by `lastEventAt`, is a permutation of its input, is stable among sessions with equal times, and keeps the totals |
| `Sessions.StatsSpec` | backend/src/storage/memoryStore.ts:85-95 | the totals `TotalEvents` and `TotalErrors` summed over the sessions are the session count, the number of events ever stored (counter − 1), and the number of "error" events ever stored |
| `Store.MemoryStore.constructor` | backend/src/storage/memoryStore.ts:21-22 | an empty Map and `eventIdCounter = 1` |
| `Store.MemoryStore.GetOrCreateSession` | backend/dist/storage/memoryStore.js:10-24 | performs the lookup-or-insert transition in place, keeps the invariant, and returns the stored session |
| `Store.MemoryStore.AddEvents` | backend/src/storage/memoryStore.ts:42-70 | performs the `addEvents` transition in place, keeps the invariant, and returns `events.length` |
| `Store.MemoryStore.AppendAll` | backend/dist/storage/memoryStore.js:43-46 | after the push loop it sets the time and adds the local error count once, then returns the batch length |
| `Store.MemoryStore.PushAll` | backend/dist/storage/memoryStore.js:28-42 | the `forEach` loop pushes each item stamped with `eventIdCounter++` in order. It counts exactly the "error" items and leaves the session's `errorCount` untouched |
| `Store.MemoryStore.GetSession` | backend/src/storage/memoryStore.ts:73-75 | returns none exactly for an unseen id, otherwise the stored session; reads only |
| `Store.MemoryStore.GetAllSessions` | backend/dist/storage/memoryStore.js:53-55 | every stored session exactly once, newest first, stable among equal times |
| `Store.MemoryStore.GetStats` | backend/dist/storage/memoryStore.js:57-66 | `totalSessions` is the session count, `totalEvents` the number of events stored, `totalErrors` the number of "error" events stored |
| `EventsController.ReadEvent` | backend/dist/controllers/eventsController.js:18-19 | reading `type`, `timestamp` and `data` off an item fails exactly on null/undefined items |
| `EventsController.CheckEvents` | backend/dist/controllers/eventsController.js:18-24 | the batch passes exactly when every item has truthy `type`, `timestamp` and `data`. Otherwise the first failing item decides the answer. A passing batch reaches the store item for item |
| `EventsController.CheckRequestSpec` | backend/dist/controllers/eventsController.js:9-24 | for the validation `CheckRequest`: a request is stored exactly when it has a truthy session id and a non-empty array of valid items. A missing id or non-array gives 400 "Invalid request", an empty array 400 "cannot be empty", and a 500 only from a null/undefined item |
| `EventsController.ZeroTimestampRejects` | backend/dist/controllers/eventsController.js:19 | an item with `timestamp: 0` rejects the whole batch |
| `EventsController.UserAgentOf` | backend/dist/controllers/eventsController.js:26 | the user agent is the header when present and non-empty, "unknown" otherwise |
| `EventsController.IngestEvents` | backend/dist/controllers/eventsController.js:5-40 | a rejected request leaves the store exactly as it was. An accepted one is one `addEvents` call and answers `eventsReceived` = batch length |
| `EventsController.GetSession` | backend/dist/controllers/eventsController.js:42-55 | 404 exactly when the store has no such id, the stored session otherwise |
| `EventsController.Summaries` | backend/dist/controllers/eventsController.js:62-69 | one summary per session, in the same order |
| `EventsController.SummariesTotals` | backend/dist/controllers/eventsController.js:67-68 | the summaries' event and error counts add up to the sessions' totals |
| `EventsController.GetAllSessions` | backend/dist/controllers/eventsController.js:57-77 | the summaries are the store's list projected one for one, so newest first with ties in the store's Map order, one per stored session. Each has `eventCount = events.length` and an `errorCount` equal to the session's number of error events. The stats agree with the summaries |
| `AiController.Pair` | backend/src/controllers/aiController.ts:37-41 | entry i carries the i-th error's id and data and the i-th analysis |
| `AiController.AnalyzeSessionErrors` | backend/src/controllers/aiController.ts:5-47 | 404 exactly for an unknown id, and an empty answer exactly when the session has no error event. Otherwise there is one analyzer call per error event, in session order, each given the session id and its full event list |
| `AiController.EntriesCoverErrors` | backend/src/controllers/aiController.ts:15 | entries that follow the filtered error list `ErrorEvents` report every error event and nothing else, in increasing id order |
| `AiController.AnalysesCoverErrors` | backend/src/controllers/aiController.ts:34-42 | with the store invariant, the reported `errorCount` is the session's own counter, and the analyses cover its error events one for one |
| `AiController.GetSessionInsights` | backend/src/controllers/aiController.ts:49-71 | 404 exactly for an unknown id, otherwise the analyzer gets the session's full events and `errorCount` |
| `AiController.InsightsAgreeWithAnalyses` | backend/src/controllers/aiController.ts:58-61 | the error counter passed to the insights analyzer equals the scanned error count, and it is zero exactly when the analysis finds no errors |
| `Delivery.TypeNameInjective` | sdk/src/types.ts:8 | the five event types have distinct, non-empty names |
| `Delivery.FreshConserved` | sdk/src/eventTracker.ts:4 | a new tracker conserves its (no) events |
| `Delivery.TrackedConserves` | sdk/src/eventTracker.ts:17-22 | `track` keeps every event in exactly one place |
| `Delivery.BegunConserves` | frontend/public/ai-fe-debugger.js:62-65 | the swap moves the buffer to a new in-flight batch without losing or adding events |
| `Delivery.CompletedConserves` | sdk/src/eventTracker.ts:39-54 | settling any in-flight batch keeps every event in exactly one place, whether it is delivered or put back, and whatever other batches are in flight |
| `Delivery.NothingLost` | sdk/src/eventTracker.ts:33-55 | a tracked event is in the buffer, an in-flight batch or delivered, and nothing else is anywhere |
| `Delivery.FreshSequential` | sdk/src/eventTracker.ts:4 | a new tracker is in tracking order |
| `Delivery.TrackedKeepsOrder` | frontend/public/ai-fe-debugger.js:47-52 | with flushes not overlapping, tracking keeps delivered ++ in-flight ++ buffer equal to the tracking order |
| `Delivery.BegunKeepsOrder` | sdk/src/eventTracker.ts:34-37 | starting a flush while none is in flight keeps tracking order |
| `Delivery.CompletedKeepsOrder` | frontend/public/ai-fe-debugger.js:66-81 | settling the single in-flight batch keeps tracking order, both when it is delivered and when it is put back |
| `Delivery.OverlapReorders` | sdk/src/eventTracker.ts:50-54 | when two overlapping flushes both fail, the buffer holds the later event before the earlier one |
| `Delivery.OverlapDeliversOutOfOrder` | sdk/src/eventTracker.ts:39-54 | when the second of two overlapping flushes resolves and the first fails, delivery order differs from tracking order |
| `Tracker.EventTracker.constructor` | frontend/public/ai-fe-debugger.js:40-46 | an empty buffer, the given interval or 5000, and the interval started |
| `Tracker.EventTracker.Track` | frontend/public/ai-fe-debugger.js:47-52 | exactly one event `{type, timestamp: now, data}` at the end of the buffer, earlier entries unchanged, conservation kept |
| `Tracker.EventTracker.BeginFlush` | sdk/src/eventTracker.ts:33-37 | an empty buffer sends nothing and changes nothing. Otherwise the batch is the whole buffer, the buffer becomes empty, and the batch is in flight |
| `Tracker.EventTracker.CompleteFlush` | sdk/src/eventTracker.ts:39-54 | a resolved send leaves the buffer alone. A rejected one makes it batch ++ (events tracked since). Conservation is kept |
| `Tracker.EventTracker.Tick` | sdk/src/eventTracker.ts:27-31 | the interval callback starts a flush |
| `Tracker.EventTracker.Destroy` | frontend/public/ai-fe-debugger.js:84-88 | the interval is cleared when a handle is set, then one final flush starts |
| `Wire.ReceivedErrors` | backend/src/storage/memoryStore.ts:59-61 | the server's "error" count (`CountErrors`) of a tracker batch is the number of events tracked with type `error` |
| `Wire.SentBatchAccepted` | sdk/src/eventTracker.ts:40-47 | a non-empty tracker batch with a non-empty session id and non-zero timestamps passes validation whole, with its items in order |
| `Wire.SentBatchStored` | backend/dist/controllers/eventsController.js:28 | once stored, a tracker batch ends the session's log in tracking order, and the error counter grows by its error events |

## Left out

- Console logging, Express routing, CORS and server start-up are not modelled. So are the
  `initDebugger` wrapper with its DOM listeners and random session id, the React
  dashboard, and the Postgres module.
- The AI service is not part of this model. `analyzeError` and `analyzeSession` are
  total function parameters, and their fallback payload is inside them.
- Time is an integer parameter, and all events of one `addEvents` call share one clock
  reading. The source calls `new Date()` once per event, so times within a batch may
  differ by the clock's progress.
- The timer is reduced to its handle and whether the host still runs it. `Tick` may
  only run while it runs. Real scheduling, and where `destroy` is called, are left out.
- `fetch` is the boolean `resolved`. Request serialisation is the identity on the data
  record: `JSON.stringify` of values that do not survive a round trip (`undefined`,
  functions, cycles) is not modelled.
- Sessions are values in the Map. The aliasing of a returned `Session` object, which a
  caller could mutate, is not captured.
- The body's `sessionId` is a string or absent. A truthy non-string id, which the handler
  accepts, is not modelled. JSON numbers are integers: NaN, -0 and fractional timestamps
  are left out.
- `Store.MemoryStore.AddEvents`: requires that the clock has not gone back since the
  session's last batch (`ClockNotBehind`). The source reads the wall clock and cannot
  promise this, and without it `lastEventAt` need not be the latest append time.
- `Sessions.ErrorEvents`: its contract states which events the filter keeps, not that it
  keeps their order; the order is stated where it is used, as ascending ids in
  `AiController.EntriesCoverErrors`.
- `eventIdCounter` is an unbounded `nat`. The source's counter is a JavaScript number,
  which stops advancing past 2^53, where ids would repeat; `Sessions.EventIdsUnique`,
  `Sessions.StoredInLog` and the numbering clause of `Sessions.Inv` rely on it not doing so.
- True parallelism on the server is left out: each `addEvents` is atomic.
- Catch-all 500s that could only come from faults outside the model (a throwing store,
  a failing `res.json`) are left out. The one modelled 500 is a null/undefined batch item.

Behaviours of the code that a reader might not expect, which the model keeps:

- A send that resolves with any HTTP status, a 400 included, counts as delivered and is
  not re-queued. Only a rejected `fetch` puts the batch back.
- `sessionId` and each item's fields are checked for truthiness, not type. So a
  `timestamp` of 0 rejects a batch, and a null item answers 500 rather than 400.
- Overlapping flushes do not keep arrival order: `Delivery.OverlapReorders` and
  `Delivery.OverlapDeliversOutOfOrder` show it. Order is kept while at most one flush is
  in flight (`Delivery.Sequential`).
