/**
 * The request body the tracker's `flush` sends (`JSON.stringify({sessionId, events: batch})`)
 * as the ingestion endpoint reads it back, and what the endpoint then does with a
 * batch the tracker produced.
 */
module Wire {
  import opened Wrappers
  import opened Json
  import opened Delivery
  import opened Sessions
  import opened EventsController

  /** One tracked event as a JSON object. */
  function WireEvent(e: DebugEvent): JsValue {
    Obj(map["type" := Str(TypeName(e.eventType)), "timestamp" := Num(e.timestamp), "data" := Obj(e.data)])
  }

  /** The body of the POST for `batch`. */
  function WireBody(sessionId: string, batch: seq<DebugEvent>): IngestBody {
    IngestBody(Some(sessionId), Arr(seq(|batch|, i requires 0 <= i < |batch| => WireEvent(batch[i]))))
  }

  /** The fields the store keeps of one tracked event. */
  function Received(e: DebugEvent): RawEvent {
    RawEvent(Str(TypeName(e.eventType)), Num(e.timestamp), Obj(e.data))
  }

  function ReceivedAll(batch: seq<DebugEvent>): (r: seq<RawEvent>)
    ensures |r| == |batch|
    ensures forall i :: 0 <= i < |batch| ==> r[i] == Received(batch[i])
  {
    seq(|batch|, i requires 0 <= i < |batch| => Received(batch[i]))
  }

  /** How many events of the batch have type Error. */
  function ErrorsTracked(batch: seq<DebugEvent>): nat {
    if batch == [] then 0
    else ErrorsTracked(batch[..|batch| - 1]) + (if batch[|batch| - 1].eventType == Error then 1 else 0)
  }

  /** The server's error count of a received batch is the number of Error events the tracker recorded. */
  lemma {:induction false} ReceivedErrors(batch: seq<DebugEvent>)
    ensures CountErrors(ReceivedAll(batch)) == ErrorsTracked(batch)
  {
    if batch != [] {
      var init := batch[..|batch| - 1];
      assert ReceivedAll(batch)[..|batch| - 1] == ReceivedAll(init);
      ReceivedErrors(init);
      TypeNameInjective(batch[|batch| - 1].eventType, Error);
    }
  }

  /**
   * A batch the tracker sends passes validation as one whole and reaches the store as
   * the tracked events' fields in order, provided the session id is non-empty and no
   * timestamp is 0 (0 is falsy, and an item carrying it rejects the batch).
   */
  lemma SentBatchAccepted(sessionId: string, batch: seq<DebugEvent>)
    requires sessionId != "" && batch != []
    requires forall i :: 0 <= i < |batch| ==> batch[i].timestamp != 0
    ensures CheckRequest(WireBody(sessionId, batch)) == Passed(ReceivedAll(batch))
  {
    var items := WireBody(sessionId, batch).events.items;
    forall i | 0 <= i < |items| ensures ItemOk(items[i]) && ReadEvent(items[i]) == Some(Received(batch[i])) {
      TypeNameInjective(batch[i].eventType, batch[i].eventType);
      assert items[i] == WireEvent(batch[i]);
    }
    CheckRequestSpec(WireBody(sessionId, batch));
    var r := CheckRequest(WireBody(sessionId, batch));
    assert r.batch == ReceivedAll(batch);
  }

  /**
   * Once the store accepts a batch the tracker sent, the session's log ends with the
   * batch's events in tracking order and its error counter has grown by the number of
   * Error events in it.
   */
  lemma SentBatchStored(st: StoreState, sessionId: string, batch: seq<DebugEvent>, userAgent: Option<string>, now: int)
    ensures var r := AddedEvents(st, sessionId, ReceivedAll(batch), userAgent, now);
            var before := if sessionId in st.sessions then st.sessions[sessionId] else NewSession(sessionId, userAgent.GetOr(DefaultUserAgent), now);
            var n := |before.events|;
            && |r.sessions[sessionId].events| == n + |batch|
            && Payloads(r.sessions[sessionId].events[n..]) == ReceivedAll(batch)
            && r.sessions[sessionId].errorCount == before.errorCount + ErrorsTracked(batch)
  {
    AddedEventsSpec(st, sessionId, ReceivedAll(batch), userAgent, now);
    ReceivedErrors(batch);
    var r := AddedEvents(st, sessionId, ReceivedAll(batch), userAgent, now);
    var before := if sessionId in st.sessions then st.sessions[sessionId] else NewSession(sessionId, userAgent.GetOr(DefaultUserAgent), now);
    var stored := StampAll(ReceivedAll(batch), st.counter, sessionId, now);
    assert r.sessions[sessionId].events[|before.events|..] == stored;
  }
}
