/**
 * The three handlers of backend/dist/controllers/eventsController.js: batch
 * ingestion (validate everything, then one `addEvents` call), the single-session
 * lookup with its 404, and the session list projected to summaries.
 */
module EventsController {
  import opened Wrappers
  import opened Json
  import opened Sessions
  import opened Store

  const InvalidRequestMessage: string := "Invalid request. Required: sessionId (string) and events (array)"
  const EmptyBatchMessage: string := "Events array cannot be empty"
  const MissingFieldsMessage: string := "Each event must have: type, timestamp, and data"
  const IngestFailedMessage: string := "Failed to ingest events"
  const SessionNotFoundMessage: string := "Session not found"

  const BadRequest: nat := 400
  const NotFound: nat := 404
  const ServerError: nat := 500

  /**
   * The two fields of the JSON body that ingestion reads. `sessionId` is None when
   * the field is absent, null, or any other falsy non-string value.
   */
  datatype IngestBody = IngestBody(sessionId: Option<string>, events: JsValue)

  /** A session as listed by the dashboard: its fields with the event list replaced by its length. */
  datatype Summary = Summary(id: string, userAgent: string, createdAt: int, lastEventAt: int, eventCount: nat, errorCount: nat)

  datatype Response =
    | Failure(status: nat, message: string)
    | Ingested(sessionId: string, eventsReceived: nat)
    | SessionFound(session: Session)
    | SessionList(sessions: seq<Summary>, stats: Stats)

  /** The outcome of the event-list check: the first status and message that apply, or the batch to store. */
  datatype Checked = Rejected(status: nat, message: string) | Passed(batch: seq<RawEvent>)

  // ---------------------------------------------------------------------------
  // Validation of ingestEvents
  // ---------------------------------------------------------------------------

  /** `!sessionId` is false. */
  predicate HasSessionId(body: IngestBody) {
    body.sessionId.Some? && body.sessionId.value != ""
  }

  /** Reading `type`, `timestamp` and `data` off one array item; None when the read throws. */
  function ReadEvent(item: JsValue): (r: Option<RawEvent>)
    ensures r.None? <==> IsNullish(item)
    ensures item.Obj? ==> r.Some? && Some(r.value.eventType) == Property(item, "type")
                          && Some(r.value.timestamp) == Property(item, "timestamp")
                          && Some(r.value.data) == Property(item, "data")
  {
    if IsNullish(item) then None
    else Some(RawEvent(Property(item, "type").value, Property(item, "timestamp").value, Property(item, "data").value))
  }

  /** `!event.type || !event.timestamp || !event.data` is false. */
  predicate HasRequiredFields(e: RawEvent) {
    Truthy(e.eventType) && Truthy(e.timestamp) && Truthy(e.data)
  }

  /** An item that passes the per-item test. */
  predicate ItemOk(item: JsValue) {
    ReadEvent(item).Some? && HasRequiredFields(ReadEvent(item).value)
  }

  /** What a failing item answers: a thrown TypeError becomes the catch-all 500, a missing field a 400. */
  function ItemFailure(item: JsValue): Checked {
    if IsNullish(item) then Rejected(ServerError, IngestFailedMessage) else Rejected(BadRequest, MissingFieldsMessage)
  }

  /**
   * The `for (const event of events)` loop: the first failing item decides the answer;
   * when none fails the items pass unchanged, in order.
   */
  function CheckEvents(items: seq<JsValue>): (r: Checked)
    ensures r.Passed? <==> forall i :: 0 <= i < |items| ==> ItemOk(items[i])
    ensures r.Passed? ==> |r.batch| == |items| && forall i :: 0 <= i < |items| ==> ReadEvent(items[i]) == Some(r.batch[i])
    ensures r.Rejected? ==> exists i :: 0 <= i < |items| && !ItemOk(items[i]) && r == ItemFailure(items[i])
                                        && forall j :: 0 <= j < i ==> ItemOk(items[j])
  {
    if items == [] then Passed([])
    else if !ItemOk(items[0]) then ItemFailure(items[0])
    else
      var rest := CheckEvents(items[1..]);
      match rest
      case Rejected(_, _) =>
        assert exists i :: 0 <= i < |items| && !ItemOk(items[i]) && rest == ItemFailure(items[i])
                           && forall j :: 0 <= j < i ==> ItemOk(items[j]) by {
          var k :| 0 <= k < |items[1..]| && !ItemOk(items[1..][k]) && rest == ItemFailure(items[1..][k])
                   && forall j :: 0 <= j < k ==> ItemOk(items[1..][j]);
          assert items[k + 1] == items[1..][k];
          assert forall j :: 1 <= j < k + 1 ==> items[j] == items[1..][j - 1];
        }
        rest
      case Passed(batch) =>
        assert forall i :: 1 <= i < |items| ==> items[i] == items[1..][i - 1];
        Passed([ReadEvent(items[0]).value] + batch)
  }

  /** The whole validation of ingestEvents, in the order the handler performs it. */
  function CheckRequest(body: IngestBody): (r: Checked)
  {
    if !HasSessionId(body) || !Truthy(body.events) || !body.events.Arr? then Rejected(BadRequest, InvalidRequestMessage)
    else if |body.events.items| == 0 then Rejected(BadRequest, EmptyBatchMessage)
    else CheckEvents(body.events.items)
  }

  /** A request is stored exactly when it has a session id and a non-empty array of items that all pass. */
  lemma CheckRequestSpec(body: IngestBody)
    ensures CheckRequest(body).Passed?
            <==> HasSessionId(body) && body.events.Arr? && body.events.items != []
                 && forall i :: 0 <= i < |body.events.items| ==> ItemOk(body.events.items[i])
    ensures CheckRequest(body).Passed? ==>
              var items := body.events.items;
              var batch := CheckRequest(body).batch;
              |batch| == |items| && forall i :: 0 <= i < |items| ==> ReadEvent(items[i]) == Some(batch[i])
    ensures !HasSessionId(body) || !body.events.Arr? ==> CheckRequest(body) == Rejected(BadRequest, InvalidRequestMessage)
    ensures HasSessionId(body) && body.events == Arr([]) ==> CheckRequest(body) == Rejected(BadRequest, EmptyBatchMessage)
    ensures CheckRequest(body).Rejected? && CheckRequest(body).status == ServerError ==>
              body.events.Arr? && exists i :: 0 <= i < |body.events.items| && IsNullish(body.events.items[i])
  {
    if HasSessionId(body) && body.events.Arr? && body.events.items != [] {
      var r := CheckEvents(body.events.items);
      if r.Rejected? && r.status == ServerError {
        var i :| 0 <= i < |body.events.items| && !ItemOk(body.events.items[i]) && r == ItemFailure(body.events.items[i])
                 && forall j :: 0 <= j < i ==> ItemOk(body.events.items[j]);
        assert IsNullish(body.events.items[i]);
      }
    }
  }

  /** A timestamp of 0 is falsy, so an item carrying it rejects the whole batch, however complete its other fields. */
  lemma ZeroTimestampRejects(sessionId: string, items: seq<JsValue>, i: nat, t: JsValue, d: JsValue)
    requires sessionId != "" && i < |items|
    requires items[i] == Obj(map["type" := t, "timestamp" := Num(0), "data" := d])
    ensures CheckRequest(IngestBody(Some(sessionId), Arr(items))).Rejected?
  {
    assert !ItemOk(items[i]);
  }

  /** `req.headers['user-agent'] || 'unknown'`. */
  function UserAgentOf(header: Option<string>): (r: string)
    ensures r != ""
    ensures header.Some? && header.value != "" ==> r == header.value
    ensures header.None? || header.value == "" ==> r == DefaultUserAgent
  {
    if header.Some? && header.value != "" then header.value else DefaultUserAgent
  }

  // ---------------------------------------------------------------------------
  // The handlers
  // ---------------------------------------------------------------------------

  /**
   * POST of a batch: a rejected request leaves the store exactly as it was; an accepted
   * one is one `addEvents` call and answers with the number of events received.
   */
  method IngestEvents(store: MemoryStore, body: IngestBody, userAgentHeader: Option<string>, now: int) returns (res: Response)
    requires store.Valid()
    requires body.sessionId.Some? ==> ClockNotBehind(store.State(), body.sessionId.value, now)
    modifies store
    ensures store.Valid()
    ensures CheckRequest(body).Rejected? ==>
              res == Failure(CheckRequest(body).status, CheckRequest(body).message) && store.State() == old(store.State())
    ensures CheckRequest(body).Passed? ==>
              var batch := CheckRequest(body).batch;
              && res == Ingested(body.sessionId.value, |batch|)
              && store.State() == AddedEvents(old(store.State()), body.sessionId.value, batch, Some(UserAgentOf(userAgentHeader)), now)
  {
    match CheckRequest(body)
    case Rejected(status, message) =>
      res := Failure(status, message);
    case Passed(batch) =>
      var sessionId := body.sessionId.value;
      var count := store.AddEvents(sessionId, batch, Some(UserAgentOf(userAgentHeader)), now);
      res := Ingested(sessionId, count);
  }

  /** GET of one session: 404 exactly when the store has no such id, the stored session otherwise. */
  function GetSession(store: MemoryStore, sessionId: string): (r: Response)
    reads store
    ensures r == Failure(NotFound, SessionNotFoundMessage) <==> sessionId !in store.sessions
    ensures r.SessionFound? <==> sessionId in store.sessions
    ensures r.SessionFound? ==> r.session == store.sessions[sessionId]
  {
    match store.GetSession(sessionId)
    case None => Failure(NotFound, SessionNotFoundMessage)
    case Some(s) => SessionFound(s)
  }

  function Summarize(s: Session): Summary {
    Summary(s.id, s.userAgent, s.createdAt, s.lastEventAt, |s.events|, s.errorCount)
  }

  /** `sessions.map(s => ({ ... }))`. */
  function Summaries(ss: seq<Session>): (r: seq<Summary>)
    ensures |r| == |ss|
    ensures forall i :: 0 <= i < |ss| ==> r[i] == Summarize(ss[i])
  {
    seq(|ss|, i requires 0 <= i < |ss| => Summarize(ss[i]))
  }

  function SumEventCounts(rs: seq<Summary>): nat {
    if rs == [] then 0 else rs[0].eventCount + SumEventCounts(rs[1..])
  }

  function SumErrorCounts(rs: seq<Summary>): nat {
    if rs == [] then 0 else rs[0].errorCount + SumErrorCounts(rs[1..])
  }

  /** The summaries add up to the same totals as the sessions they project. */
  lemma {:induction false} SummariesTotals(ss: seq<Session>)
    ensures SumEventCounts(Summaries(ss)) == TotalEvents(ss)
    ensures SumErrorCounts(Summaries(ss)) == TotalErrors(ss)
  {
    if ss != [] {
      SummariesTotals(ss[1..]);
      assert Summaries(ss)[1..] == Summaries(ss[1..]);
    }
  }

  /** A summary of the stored session under its id: its event count, and an error count that is the number of its error events. */
  ghost predicate SummaryOfStored(store: MemoryStore, r: Summary)
    reads store
  {
    && r.id in store.sessions
    && r == Summarize(store.sessions[r.id])
    && r.eventCount == |store.sessions[r.id].events|
    && r.errorCount == |ErrorEvents(store.sessions[r.id].events)|
  }

  /**
   * GET of the list: the summaries in the store's order (newest first, ties in the
   * order the sessions were created), each one a stored session's fields with its
   * event count, and the stats agreeing with them.
   */
  function GetAllSessions(store: MemoryStore): (r: Response)
    reads store
    requires store.Valid()
    ensures r.SessionList?
    ensures r.sessions == Summaries(store.GetAllSessions())
    ensures |r.sessions| == |store.sessions|
    ensures forall i, j :: 0 <= i < j < |r.sessions| ==> r.sessions[i].lastEventAt >= r.sessions[j].lastEventAt
    ensures forall i :: 0 <= i < |r.sessions| ==> SummaryOfStored(store, r.sessions[i])
    ensures forall k :: k in store.sessions ==> Summarize(store.sessions[k]) in r.sessions
    ensures r.stats == store.GetStats()
    ensures SumEventCounts(r.sessions) == r.stats.totalEvents
    ensures SumErrorCounts(r.sessions) == r.stats.totalErrors
  {
    var sorted := store.GetAllSessions();
    SortByRecencySpec(ValuesOf(store.order, store.sessions));
    SummariesTotals(sorted);
    var rs := Summaries(sorted);
    assert forall i :: 0 <= i < |rs| ==> SummaryOfStored(store, rs[i]) by {
      forall i | 0 <= i < |rs| ensures SummaryOfStored(store, rs[i]) {
        assert sorted[i] in sorted;
        var id := sorted[i].id;
        assert Consistent(id, store.sessions[id], store.log);
      }
    }
    assert forall k :: k in store.sessions ==> Summarize(store.sessions[k]) in rs by {
      forall k | k in store.sessions ensures Summarize(store.sessions[k]) in rs {
        var i :| 0 <= i < |sorted| && sorted[i] == store.sessions[k];
        assert rs[i] == Summarize(store.sessions[k]);
      }
    }
    SessionList(rs, store.GetStats())
  }
}
