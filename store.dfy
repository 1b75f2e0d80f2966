/**
 * `MemoryStore` of backend/src/storage/memoryStore.ts: the in-memory map from
 * session id to session, and the one event-id counter shared by all sessions.
 * Its mutating methods change the fields in place; what they do is stated as the
 * transitions of module Sessions applied to the abstract state, whose invariant
 * they keep.
 */
module Store {
  import opened Wrappers
  import opened Json
  import opened Sessions

  class MemoryStore {
    /** The iteration order of the JavaScript Map: ids in first-insertion order. */
    var order: seq<string>
    var sessions: map<string, Session>
    var eventIdCounter: nat
    /** Every event stored so far, in id order (proof state: the source keeps no such list). */
    ghost var log: seq<StoredEvent>

    ghost function State(): StoreState
      reads this
    {
      StoreState(order, sessions, eventIdCounter, log)
    }

    ghost predicate Valid()
      reads this
    {
      Inv(State())
    }

    /** No sessions yet, and the counter at 1. */
    constructor ()
      ensures Valid()
      ensures State() == EmptyStore()
    {
      order := [];
      sessions := map[];
      eventIdCounter := FirstEventId;
      log := [];
    }

    /** Lookup-or-insert; `userAgent` None stands for the omitted argument, which defaults to "unknown". */
    method GetOrCreateSession(sessionId: string, userAgent: Option<string>, now: int) returns (session: Session)
      requires Valid()
      modifies this
      ensures Valid()
      ensures State() == GetOrCreated(old(State()), sessionId, userAgent, now)
      ensures sessionId in sessions && session == sessions[sessionId]
    {
      ghost var before := State();
      GetOrCreatedKeepsInv(before, sessionId, userAgent, now);
      if sessionId !in sessions {
        var created := NewSession(sessionId, userAgent.GetOr(DefaultUserAgent), now);
        sessions := sessions[sessionId := created];
        order := order + [sessionId];
      }
      session := sessions[sessionId];
      assert State() == GetOrCreated(before, sessionId, userAgent, now);
    }

    /**
     * Appends a batch: every item is stamped with the next id and pushed in order, the
     * "error" items counted on the way; then the session's time is set and its error
     * counter increased once. Returns the batch length.
     */
    method AddEvents(sessionId: string, events: seq<RawEvent>, userAgent: Option<string>, now: int) returns (count: nat)
      requires Valid()
      requires ClockNotBehind(State(), sessionId, now)
      modifies this
      ensures Valid()
      ensures State() == AddedEvents(old(State()), sessionId, events, userAgent, now)
      ensures count == |events|
    {
      ghost var st0 := State();
      AddedEventsKeepsInv(st0, sessionId, events, userAgent, now);
      var _ := GetOrCreateSession(sessionId, userAgent, now);
      count := AppendAll(sessionId, events, now);
    }

    /** `addEvents` once the session exists: push the batch, then set the time and add the errors. */
    method AppendAll(sessionId: string, events: seq<RawEvent>, now: int) returns (count: nat)
      requires sessionId in sessions
      modifies this
      ensures State() == Appended(old(State()), sessionId, events, now)
      ensures count == |events|
    {
      ghost var st1 := State();
      var session, errorCount := PushAll(sessionId, events, now);
      ghost var pushed := State();
      AppendedIsPushed(st1, sessionId, events, now);
      session := session.(lastEventAt := now, errorCount := session.errorCount + errorCount);
      sessions := sessions[sessionId := session];
      count := |events|;
      assert session == pushed.sessions[sessionId].(lastEventAt := now, errorCount := st1.sessions[sessionId].errorCount + CountErrors(events));
      assert sessions == Finished(pushed, sessionId, now, st1.sessions[sessionId].errorCount + CountErrors(events)).sessions;
    }

    /** The loop of `addEvents`: stamp and push each item, counting the "error" items. */
    method PushAll(sessionId: string, events: seq<RawEvent>, now: int) returns (session: Session, errorCount: nat)
      requires sessionId in sessions
      modifies this
      ensures State() == Pushed(old(State()), sessionId, events, now)
      ensures sessionId in sessions && session == sessions[sessionId]
      ensures session.errorCount == old(sessions[sessionId].errorCount)
      ensures errorCount == CountErrors(events)
    {
      ghost var st1 := State();
      PushedNothing(st1, sessionId, now);
      session := sessions[sessionId];
      errorCount := 0;
      var i := 0;
      assert events[..0] == [];
      while i < |events|
        invariant 0 <= i <= |events|
        invariant sessionId in st1.sessions
        invariant State() == Pushed(st1, sessionId, events[..i], now)
        invariant sessionId in sessions && session == sessions[sessionId]
        invariant errorCount == CountErrors(events[..i])
      {
        var evt := events[i];
        PushedSnoc(st1, sessionId, events[..i], evt, now);
        var event := StoredEvent(eventIdCounter, sessionId, evt.eventType, evt.timestamp, evt.data, now);
        eventIdCounter := eventIdCounter + 1;
        session := session.(events := session.events + [event]);
        sessions := sessions[sessionId := session];
        log := log + [event];
        if evt.eventType == Str(ErrorTypeName) {
          errorCount := errorCount + 1;
        }
        assert events[..i + 1] == events[..i] + [evt];
        assert events[..i + 1][..i] == events[..i];
        i := i + 1;
      }
      assert events[..|events|] == events;
    }

    /** Point lookup; it never inserts. */
    function GetSession(sessionId: string): (r: Option<Session>)
      reads this
      ensures r.None? <==> sessionId !in sessions
      ensures r.Some? ==> r.value == sessions[sessionId]
    {
      if sessionId in sessions then Some(sessions[sessionId]) else None
    }

    /**
     * All sessions, most recently active first; sessions with the same time keep the
     * Map's insertion order.
     */
    function GetAllSessions(): (r: seq<Session>)
      reads this
      requires Valid()
      ensures |r| == |sessions|
      ensures NewestFirst(r)
      ensures forall k :: k in sessions ==> sessions[k] in r
      ensures forall s :: s in r ==> s.id in sessions && sessions[s.id] == s
      ensures forall t :: AtTime(r, t) == AtTime(ValuesOf(order, sessions), t)
    {
      var v := ValuesOf(order, sessions);
      SortByRecencySpec(v);
      StatsSpec(State());
      ValuesOfMembers(State());
      assert forall s :: s in SortByRecency(v) <==> s in multiset(v);
      SortByRecency(v)
    }

    /** The session count, and the events and errors summed over all sessions. */
    function GetStats(): (r: Stats)
      reads this
      requires Valid()
      ensures r.totalSessions == |sessions|
      ensures r.totalEvents == eventIdCounter - FirstEventId
      ensures r.totalErrors == |ErrorEvents(log)|
    {
      var v := ValuesOf(order, sessions);
      StatsSpec(State());
      Stats(|v|, TotalEvents(v), TotalErrors(v))
    }
  }
}
