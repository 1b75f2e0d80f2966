/**
 * The two handlers of backend/src/controllers/aiController.ts. Both read one session
 * and hand parts of it to the analysis service, which is not modelled: its two entry
 * points are parameters, total functions from their input to an answer of any type.
 */
module AiController {
  import opened Json
  import opened Sessions
  import opened Store

  const SessionNotFoundMessage: string := "Session not found"
  const NoErrorsMessage: string := "No errors found in this session"
  const NotFound: nat := 404

  /** The second argument of `analyzeError`. */
  datatype AnalyzerContext = AnalyzerContext(sessionId: string, recentEvents: seq<StoredEvent>)

  /** The argument of `analyzeSession`. */
  datatype InsightsRequest = InsightsRequest(events: seq<StoredEvent>, errorCount: nat)

  /** One entry of the `analyses` list. */
  datatype ErrorAnalysis<A> = ErrorAnalysis(eventId: nat, error: JsValue, analysis: A)

  datatype AnalysisResponse<A> =
    | Failure(status: nat, message: string)
    | NoErrors(message: string, analyses: seq<ErrorAnalysis<A>>)
    | Analyzed(sessionId: string, errorCount: nat, analyses: seq<ErrorAnalysis<A>>)

  datatype InsightsResponse<I> =
    | InsightsFailure(status: nat, message: string)
    | Insights(sessionId: string, insights: I)

  /** `errors.map((error, i) => ({ eventId: error.id, error: error.data, analysis: analyses[i] }))`. */
  function Pair<A>(errors: seq<StoredEvent>, analyses: seq<A>): (r: seq<ErrorAnalysis<A>>)
    requires |errors| == |analyses|
    ensures |r| == |errors|
    ensures forall i :: 0 <= i < |r| ==> r[i].eventId == errors[i].id && r[i].error == errors[i].data && r[i].analysis == analyses[i]
  {
    seq(|errors|, i requires 0 <= i < |errors| => ErrorAnalysis(errors[i].id, errors[i].data, analyses[i]))
  }

  /**
   * `analyzeSessionErrors`: 404 for an unknown id; for a session without error events
   * an empty answer, with no analyzer call; otherwise one analyzer call per error event,
   * in session order, each with the session id and the session's whole event list.
   */
  function AnalyzeSessionErrors<A>(store: MemoryStore, sessionId: string, analyze: (StoredEvent, AnalyzerContext) -> A): (r: AnalysisResponse<A>)
    reads store
    ensures r.Failure? <==> sessionId !in store.sessions
    ensures r.Failure? ==> r == Failure(NotFound, SessionNotFoundMessage)
    ensures r.NoErrors? <==> sessionId in store.sessions && forall e :: e in store.sessions[sessionId].events ==> !IsError(e.eventType)
    ensures r.NoErrors? ==> r == NoErrors(NoErrorsMessage, [])
    ensures r.Analyzed? ==>
              var events := store.sessions[sessionId].events;
              var errors := ErrorEvents(events);
              && r.sessionId == sessionId
              && r.errorCount == |errors| == |r.analyses| > 0
              && forall i :: 0 <= i < |r.analyses| ==>
                   r.analyses[i] == ErrorAnalysis(errors[i].id, errors[i].data, analyze(errors[i], AnalyzerContext(sessionId, events)))
  {
    match store.GetSession(sessionId)
    case None => Failure(NotFound, SessionNotFoundMessage)
    case Some(session) =>
      var errors := ErrorEvents(session.events);
      if |errors| == 0 then
        assert errors == [];
        NoErrors(NoErrorsMessage, [])
      else
        assert errors[0] in session.events;
        var context := AnalyzerContext(sessionId, session.events);
        var analyses := seq(|errors|, i requires 0 <= i < |errors| => analyze(errors[i], context));
        Analyzed(sessionId, |errors|, Pair(errors, analyses))
  }

  /** Entry i reports the i-th error event of `events`: its id and its data. */
  ghost predicate FollowsErrors<A>(events: seq<StoredEvent>, entries: seq<ErrorAnalysis<A>>) {
    var errors := ErrorEvents(events);
    && |entries| == |errors|
    && forall i :: 0 <= i < |entries| ==> entries[i].eventId == errors[i].id && entries[i].error == errors[i].data
  }

  ghost predicate IdsAscend<A>(entries: seq<ErrorAnalysis<A>>) {
    forall i, j :: 0 <= i < j < |entries| ==> entries[i].eventId < entries[j].eventId
  }

  /** Some entry carries this id and this data. */
  ghost predicate Reported<A>(entries: seq<ErrorAnalysis<A>>, id: nat, data: JsValue) {
    exists i :: 0 <= i < |entries| && entries[i].eventId == id && entries[i].error == data
  }

  /** Some error event of `events` has this id and this data. */
  ghost predicate IsErrorEventOf(events: seq<StoredEvent>, id: nat, data: JsValue) {
    exists j :: 0 <= j < |events| && IsError(events[j].eventType) && events[j].id == id && events[j].data == data
  }

  /** Every error event of `events` has an entry with its id and data. */
  ghost predicate EveryErrorReported<A>(events: seq<StoredEvent>, entries: seq<ErrorAnalysis<A>>) {
    forall e :: e in events && IsError(e.eventType) ==> Reported(entries, e.id, e.data)
  }

  /** Every entry has the id and data of an error event of `events`. */
  ghost predicate OnlyErrorsReported<A>(events: seq<StoredEvent>, entries: seq<ErrorAnalysis<A>>) {
    forall i :: 0 <= i < |entries| ==> IsErrorEventOf(events, entries[i].eventId, entries[i].error)
  }

  /** Entries that follow the error events of a list one for one cover exactly those events, in increasing id order. */
  lemma EntriesCoverErrors<A>(events: seq<StoredEvent>, entries: seq<ErrorAnalysis<A>>)
    requires IdsIncrease(events)
    requires FollowsErrors(events, entries)
    ensures IdsAscend(entries)
    ensures EveryErrorReported(events, entries)
    ensures OnlyErrorsReported(events, entries)
  {
    var errors := ErrorEvents(events);
    ErrorEventsKeepIdOrder(events);
    forall e | e in events && IsError(e.eventType) ensures Reported(entries, e.id, e.data) {
      assert e in errors;
      var i :| 0 <= i < |errors| && errors[i] == e;
      assert entries[i].eventId == e.id;
    }
    forall i | 0 <= i < |entries| ensures IsErrorEventOf(events, entries[i].eventId, entries[i].error) {
      assert errors[i] in errors;
      var j :| 0 <= j < |events| && events[j] == errors[i];
    }
  }

  /**
   * With the store invariant the answer covers the session's error events one for one:
   * every error event has an entry carrying its id and data, every entry is an error
   * event of the session, the entries are in increasing id order (so no event has two),
   * and the reported count is the session's own error counter.
   */
  lemma AnalysesCoverErrors<A>(store: MemoryStore, sessionId: string, analyze: (StoredEvent, AnalyzerContext) -> A)
    requires store.Valid()
    ensures var r := AnalyzeSessionErrors(store, sessionId, analyze);
            r.Analyzed? ==>
              var events := store.sessions[sessionId].events;
              && r.errorCount == store.sessions[sessionId].errorCount
              && IdsAscend(r.analyses)
              && EveryErrorReported(events, r.analyses)
              && OnlyErrorsReported(events, r.analyses)
  {
    var r := AnalyzeSessionErrors(store, sessionId, analyze);
    if r.Analyzed? {
      var st := store.State();
      var events := st.sessions[sessionId].events;
      assert Consistent(sessionId, st.sessions[sessionId], st.log);
      SessionIdsIncrease(st, sessionId);
      assert FollowsErrors(events, r.analyses);
      EntriesCoverErrors(events, r.analyses);
    }
  }

  /** `getSessionInsights`: 404 for an unknown id, otherwise the session's full event list and error counter passed through. */
  function GetSessionInsights<I>(store: MemoryStore, sessionId: string, analyzeSession: InsightsRequest -> I): (r: InsightsResponse<I>)
    reads store
    ensures r.InsightsFailure? <==> sessionId !in store.sessions
    ensures r.InsightsFailure? ==> r == InsightsFailure(NotFound, SessionNotFoundMessage)
    ensures r.Insights? ==>
              var s := store.sessions[sessionId];
              r.sessionId == sessionId && r.insights == analyzeSession(InsightsRequest(s.events, s.errorCount))
  {
    match store.GetSession(sessionId)
    case None => InsightsFailure(NotFound, SessionNotFoundMessage)
    case Some(session) => Insights(sessionId, analyzeSession(InsightsRequest(session.events, session.errorCount)))
  }

  /**
   * The two endpoints agree: with the store invariant, the error counter handed to the
   * insights analyzer is the number of error events, which is what the error analysis
   * reports (or zero, when it reports none).
   */
  lemma InsightsAgreeWithAnalyses<A, I>(store: MemoryStore, sessionId: string,
                                        analyze: (StoredEvent, AnalyzerContext) -> A, analyzeSession: InsightsRequest -> I)
    requires store.Valid()
    requires sessionId in store.sessions
    ensures var s := store.sessions[sessionId];
            var r := AnalyzeSessionErrors(store, sessionId, analyze);
            && GetSessionInsights(store, sessionId, analyzeSession) == Insights(sessionId, analyzeSession(InsightsRequest(s.events, |ErrorEvents(s.events)|)))
            && (r.Analyzed? ==> r.errorCount == s.errorCount)
            && (r.NoErrors? <==> s.errorCount == 0)
  {
    var st := store.State();
    var s := st.sessions[sessionId];
    assert Consistent(sessionId, s, st.log);
    var errors := ErrorEvents(s.events);
    if |errors| > 0 {
      assert errors[0] in s.events;
    }
  }
}
