/**
 * The aggregation store of backend/src/storage/memoryStore.ts as values: the
 * session and event records, the store's abstract state, the two transitions
 * that change it (lookup-or-insert and batch append), the read-only views
 * (ordered list, totals), and what each of these is proved to guarantee.
 * The class MemoryStore in module Store runs these transitions in place.
 */
module Sessions {
  import opened Wrappers
  import opened Json

  /** An event as the store reads it from a request item: `evt.type`, `evt.timestamp`, `evt.data`. */
  datatype RawEvent = RawEvent(eventType: JsValue, timestamp: JsValue, data: JsValue)

  /** An event once stored: the request's fields plus the global id, the owning session and the append time. */
  datatype StoredEvent = StoredEvent(
    id: nat,
    sessionId: string,
    eventType: JsValue,
    timestamp: JsValue,
    data: JsValue,
    createdAt: int)

  datatype Session = Session(
    id: string,
    userAgent: string,
    createdAt: int,
    lastEventAt: int,
    errorCount: nat,
    events: seq<StoredEvent>)

  datatype Stats = Stats(totalSessions: nat, totalEvents: nat, totalErrors: nat)

  /**
   * The store's state: `order` is the insertion order of the JavaScript Map, `sessions`
   * its contents, `counter` the next event id. `log` is every event ever stored, in
   * the order the counter handed out their ids; the source keeps no such list, it is
   * the proof's record of the counter's history.
   */
  datatype StoreState = StoreState(
    order: seq<string>,
    sessions: map<string, Session>,
    counter: nat,
    log: seq<StoredEvent>)

  const FirstEventId: nat := 1
  const DefaultUserAgent: string := "unknown"
  const ErrorTypeName: string := "error"

  /** `evt.type === 'error'`: strict equality with the string, so no other value counts. */
  predicate IsError(t: JsValue) {
    t == Str(ErrorTypeName)
  }

  // ---------------------------------------------------------------------------
  // Stamping a batch
  // ---------------------------------------------------------------------------

  function Stamp(e: RawEvent, id: nat, sessionId: string, now: int): StoredEvent {
    StoredEvent(id, sessionId, e.eventType, e.timestamp, e.data, now)
  }

  /** The request fields of a stored event. */
  function Payload(e: StoredEvent): RawEvent {
    RawEvent(e.eventType, e.timestamp, e.data)
  }

  /** The events a batch becomes: the i-th item gets id `firstId + i`. */
  function StampAll(batch: seq<RawEvent>, firstId: nat, sessionId: string, now: int): seq<StoredEvent> {
    seq(|batch|, i requires 0 <= i < |batch| => Stamp(batch[i], firstId + i, sessionId, now))
  }

  function Payloads(s: seq<StoredEvent>): seq<RawEvent> {
    seq(|s|, i requires 0 <= i < |s| => Payload(s[i]))
  }

  /** Ids `first`, `first + 1`, ... in order. */
  ghost predicate NumberedFrom(s: seq<StoredEvent>, first: nat) {
    forall i :: 0 <= i < |s| ==> s[i].id == first + i
  }

  ghost predicate IdsIncrease(s: seq<StoredEvent>) {
    forall i, j :: 0 <= i < j < |s| ==> s[i].id < s[j].id
  }

  /** Stamping keeps every item's fields and order, and numbers the items consecutively. */
  lemma StampAllRoundTrip(batch: seq<RawEvent>, firstId: nat, sessionId: string, now: int)
    ensures Payloads(StampAll(batch, firstId, sessionId, now)) == batch
    ensures NumberedFrom(StampAll(batch, firstId, sessionId, now), firstId)
    ensures forall e :: e in StampAll(batch, firstId, sessionId, now) ==> e.sessionId == sessionId && e.createdAt == now
  {
    var r := StampAll(batch, firstId, sessionId, now);
    assert |Payloads(r)| == |batch|;
    forall i | 0 <= i < |batch| ensures Payloads(r)[i] == batch[i] {
      assert r[i] == Stamp(batch[i], firstId + i, sessionId, now);
    }
  }

  lemma StampAllSnoc(batch: seq<RawEvent>, firstId: nat, sessionId: string, now: int)
    requires |batch| > 0
    ensures StampAll(batch, firstId, sessionId, now)
         == StampAll(batch[..|batch| - 1], firstId, sessionId, now)
            + [Stamp(batch[|batch| - 1], firstId + |batch| - 1, sessionId, now)]
  {
  }

  // ---------------------------------------------------------------------------
  // Counting and filtering
  // ---------------------------------------------------------------------------

  /** The local counter of addEvents: how many items of the batch are of type "error", scanned front to back. */
  function CountErrors(batch: seq<RawEvent>): (n: nat)
    ensures n <= |batch|
  {
    if batch == [] then 0
    else CountErrors(batch[..|batch| - 1]) + (if IsError(batch[|batch| - 1].eventType) then 1 else 0)
  }

  /** `events.filter(e => e.type === 'error')`. */
  function ErrorEvents(s: seq<StoredEvent>): (r: seq<StoredEvent>)
    ensures |r| <= |s|
    ensures forall e :: e in r <==> e in s && IsError(e.eventType)
  {
    if s == [] then []
    else (if IsError(s[0].eventType) then [s[0]] else []) + ErrorEvents(s[1..])
  }

  /** The events of `log` that belong to session `k`, in log order. */
  function EventsOf(log: seq<StoredEvent>, k: string): (r: seq<StoredEvent>)
    ensures |r| <= |log|
    ensures forall e :: e in r <==> e in log && e.sessionId == k
  {
    if log == [] then []
    else (if log[0].sessionId == k then [log[0]] else []) + EventsOf(log[1..], k)
  }

  lemma {:induction false} ErrorEventsAppend(a: seq<StoredEvent>, b: seq<StoredEvent>)
    ensures ErrorEvents(a + b) == ErrorEvents(a) + ErrorEvents(b)
  {
    if a == [] {
      assert a + b == b;
    } else {
      assert (a + b)[1..] == a[1..] + b;
      ErrorEventsAppend(a[1..], b);
    }
  }

  lemma {:induction false} EventsOfAppend(a: seq<StoredEvent>, b: seq<StoredEvent>, k: string)
    ensures EventsOf(a + b, k) == EventsOf(a, k) + EventsOf(b, k)
  {
    if a == [] {
      assert a + b == b;
    } else {
      assert (a + b)[1..] == a[1..] + b;
      EventsOfAppend(a[1..], b, k);
    }
  }

  /** Picking a session's events and picking the error events can be done in either order. */
  lemma {:induction false} FiltersCommute(log: seq<StoredEvent>, k: string)
    ensures ErrorEvents(EventsOf(log, k)) == EventsOf(ErrorEvents(log), k)
  {
    if log != [] {
      FiltersCommute(log[1..], k);
      var head := if log[0].sessionId == k then [log[0]] else [];
      ErrorEventsAppend(head, EventsOf(log[1..], k));
      var errs := if IsError(log[0].eventType) then [log[0]] else [];
      EventsOfAppend(errs, ErrorEvents(log[1..]), k);
    }
  }

  /** A filter of a list whose ids increase has increasing ids: each session, and its errors, stay in arrival order. */
  lemma {:induction false} EventsOfKeepsIdOrder(log: seq<StoredEvent>, k: string)
    requires IdsIncrease(log)
    ensures IdsIncrease(EventsOf(log, k))
  {
    if log != [] {
      EventsOfKeepsIdOrder(log[1..], k);
      var rest := EventsOf(log[1..], k);
      forall e | e in rest ensures log[0].id < e.id {
        var j :| 0 <= j < |log[1..]| && log[1..][j] == e;
        assert log[j + 1] == e;
      }
    }
  }

  lemma {:induction false} ErrorEventsKeepIdOrder(s: seq<StoredEvent>)
    requires IdsIncrease(s)
    ensures IdsIncrease(ErrorEvents(s))
  {
    if s != [] {
      ErrorEventsKeepIdOrder(s[1..]);
      var rest := ErrorEvents(s[1..]);
      forall e | e in rest ensures s[0].id < e.id {
        var j :| 0 <= j < |s[1..]| && s[1..][j] == e;
        assert s[j + 1] == e;
      }
    }
  }

  lemma {:induction false} EventsOfStamped(batch: seq<RawEvent>, firstId: nat, sessionId: string, now: int, k: string)
    ensures EventsOf(StampAll(batch, firstId, sessionId, now), k)
         == if k == sessionId then StampAll(batch, firstId, sessionId, now) else []
  {
    if batch != [] {
      var init := batch[..|batch| - 1];
      var last := Stamp(batch[|batch| - 1], firstId + |batch| - 1, sessionId, now);
      StampAllSnoc(batch, firstId, sessionId, now);
      EventsOfAppend(StampAll(init, firstId, sessionId, now), [last], k);
      EventsOfStamped(init, firstId, sessionId, now, k);
    }
  }

  /** The error events a stamped batch contributes are exactly what the local counter counted. */
  lemma {:induction false} ErrorEventsStamped(batch: seq<RawEvent>, firstId: nat, sessionId: string, now: int)
    ensures |ErrorEvents(StampAll(batch, firstId, sessionId, now))| == CountErrors(batch)
  {
    if batch != [] {
      var init := batch[..|batch| - 1];
      var last := Stamp(batch[|batch| - 1], firstId + |batch| - 1, sessionId, now);
      StampAllSnoc(batch, firstId, sessionId, now);
      ErrorEventsAppend(StampAll(init, firstId, sessionId, now), [last]);
      ErrorEventsStamped(init, firstId, sessionId, now);
    }
  }

  // ---------------------------------------------------------------------------
  // The store invariant
  // ---------------------------------------------------------------------------

  ghost predicate Distinct<T>(s: seq<T>) {
    forall i, j :: 0 <= i < j < |s| ==> s[i] != s[j]
  }

  /** What a session record keeps in step with the log: its id, its events, its error counter and its times. */
  ghost predicate Consistent(k: string, s: Session, log: seq<StoredEvent>) {
    && s.id == k
    && s.events == EventsOf(log, k)
    && s.errorCount == |ErrorEvents(s.events)|
    && s.createdAt <= s.lastEventAt
    && (forall e :: e in s.events ==> s.createdAt <= e.createdAt <= s.lastEventAt)
  }

  ghost predicate Inv(st: StoreState) {
    && Distinct(st.order)
    && (forall k :: k in st.sessions <==> k in st.order)
    && st.counter == |st.log| + FirstEventId
    && NumberedFrom(st.log, FirstEventId)
    && (forall i :: 0 <= i < |st.log| ==> st.log[i].sessionId in st.sessions)
    && (forall k :: k in st.sessions ==> Consistent(k, st.sessions[k], st.log))
  }

  /**
   * The clock the store reads (`new Date()`) has not gone back since the session was
   * last appended to. The model takes the time as a parameter; this is what it
   * assumes of that parameter.
   */
  ghost predicate ClockNotBehind(st: StoreState, sessionId: string, now: int) {
    sessionId in st.sessions ==> st.sessions[sessionId].lastEventAt <= now
  }

  // ---------------------------------------------------------------------------
  // Transitions
  // ---------------------------------------------------------------------------

  /** The store as `new MemoryStore()` leaves it: no sessions, the counter at 1. */
  function EmptyStore(): (st: StoreState)
    ensures Inv(st)
  {
    StoreState([], map[], FirstEventId, [])
  }

  function NewSession(sessionId: string, userAgent: string, now: int): Session {
    Session(sessionId, userAgent, now, now, 0, [])
  }

  /** `getOrCreateSession(sessionId, userAgent = 'unknown')`. */
  function GetOrCreated(st: StoreState, sessionId: string, userAgent: Option<string>, now: int): StoreState {
    if sessionId in st.sessions then st
    else st.(order := st.order + [sessionId],
             sessions := st.sessions[sessionId := NewSession(sessionId, userAgent.GetOr(DefaultUserAgent), now)])
  }

  /** The second half of `addEvents`, on a session that exists: push every item stamped, then set the time and add the errors. */
  function Appended(st: StoreState, sessionId: string, batch: seq<RawEvent>, now: int): StoreState
    requires sessionId in st.sessions
  {
    var s := st.sessions[sessionId];
    var stored := StampAll(batch, st.counter, sessionId, now);
    st.(sessions := st.sessions[sessionId := s.(events := s.events + stored,
                                                 lastEventAt := now,
                                                 errorCount := s.errorCount + CountErrors(batch))],
        counter := st.counter + |batch|,
        log := st.log + stored)
  }

  /** The state inside the push loop of `addEvents`: the items pushed so far, the time and error counter not yet set. */
  function Pushed(st: StoreState, sessionId: string, batch: seq<RawEvent>, now: int): StoreState
    requires sessionId in st.sessions
  {
    var s := st.sessions[sessionId];
    var stored := StampAll(batch, st.counter, sessionId, now);
    st.(sessions := st.sessions[sessionId := s.(events := s.events + stored)],
        counter := st.counter + |batch|,
        log := st.log + stored)
  }

  /** One turn of the push loop: the next item is stamped with the current counter and pushed to both lists. */
  lemma PushedSnoc(st: StoreState, sessionId: string, batch: seq<RawEvent>, e: RawEvent, now: int)
    requires sessionId in st.sessions
    ensures var p := Pushed(st, sessionId, batch, now);
            var x := Stamp(e, p.counter, sessionId, now);
            Pushed(st, sessionId, batch + [e], now)
            == p.(sessions := p.sessions[sessionId := p.sessions[sessionId].(events := p.sessions[sessionId].events + [x])],
                  counter := p.counter + 1,
                  log := p.log + [x])
  {
    var b := batch + [e];
    assert b[..|b| - 1] == batch;
    StampAllSnoc(b, st.counter, sessionId, now);
    var s := st.sessions[sessionId];
    var stored := StampAll(batch, st.counter, sessionId, now);
    var x := Stamp(e, st.counter + |batch|, sessionId, now);
    assert s.events + (stored + [x]) == (s.events + stored) + [x];
    assert st.log + (stored + [x]) == (st.log + stored) + [x];
  }

  /** Before the first turn of the push loop nothing has changed. */
  lemma PushedNothing(st: StoreState, sessionId: string, now: int)
    requires sessionId in st.sessions
    ensures Pushed(st, sessionId, [], now) == st
  {
    var s := st.sessions[sessionId];
    assert StampAll([], st.counter, sessionId, now) == [];
    assert s.events + [] == s.events;
    assert s.(events := s.events) == s;
    assert st.log + [] == st.log;
    assert st.sessions[sessionId := s] == st.sessions;
  }

  /** The tail of `addEvents`: the session's time set and `errors` written as its error counter. */
  function Finished(p: StoreState, sessionId: string, now: int, errors: nat): StoreState
    requires sessionId in p.sessions
  {
    p.(sessions := p.sessions[sessionId := p.sessions[sessionId].(lastEventAt := now, errorCount := errors)])
  }

  /** After the loop, `Appended` is the pushed state with the time set and the errors added. */
  lemma AppendedIsPushed(st: StoreState, sessionId: string, batch: seq<RawEvent>, now: int)
    requires sessionId in st.sessions
    ensures Appended(st, sessionId, batch, now)
            == Finished(Pushed(st, sessionId, batch, now), sessionId, now, st.sessions[sessionId].errorCount + CountErrors(batch))
  {
  }

  /** `addEvents(sessionId, events, userAgent)`: look up or create the session, then append. */
  function AddedEvents(st: StoreState, sessionId: string, batch: seq<RawEvent>, userAgent: Option<string>, now: int): StoreState {
    var st1 := GetOrCreated(st, sessionId, userAgent, now);
    Appended(st1, sessionId, batch, now)
  }

  lemma {:induction false} EventsOfAbsent(log: seq<StoredEvent>, k: string)
    requires forall i :: 0 <= i < |log| ==> log[i].sessionId != k
    ensures EventsOf(log, k) == []
  {
    if log != [] {
      EventsOfAbsent(log[1..], k);
    }
  }

  /**
   * Lookup-or-insert keeps the invariant and is idempotent: a known id leaves the
   * store as it is (the first user agent stays), an unknown one adds one empty
   * session with the given user agent or "unknown", at the end of the Map's order.
   * No other session and neither the counter nor the log change.
   */
  lemma GetOrCreatedSpec(st: StoreState, sessionId: string, userAgent: Option<string>, now: int)
    requires Inv(st)
    ensures var r := GetOrCreated(st, sessionId, userAgent, now);
      && Inv(r)
      && sessionId in r.sessions
      && (sessionId in st.sessions ==> r == st)
      && (sessionId !in st.sessions ==>
            && r.sessions[sessionId] == NewSession(sessionId, userAgent.GetOr(DefaultUserAgent), now)
            && r.sessions[sessionId].errorCount == 0 && r.sessions[sessionId].events == []
            && r.order == st.order + [sessionId])
      && (forall k :: k != sessionId ==> (k in r.sessions <==> k in st.sessions))
      && (forall k :: k != sessionId && k in st.sessions ==> r.sessions[k] == st.sessions[k])
      && r.counter == st.counter && r.log == st.log
      && GetOrCreated(r, sessionId, userAgent, now) == r
  {
    GetOrCreatedKeepsInv(st, sessionId, userAgent, now);
  }

  lemma GetOrCreatedKeepsInv(st: StoreState, sessionId: string, userAgent: Option<string>, now: int)
    requires Inv(st)
    ensures Inv(GetOrCreated(st, sessionId, userAgent, now))
  {
    if sessionId !in st.sessions {
      var r := GetOrCreated(st, sessionId, userAgent, now);
      assert sessionId !in st.order;
      forall i, j | 0 <= i < j < |r.order| ensures r.order[i] != r.order[j] {
        if j == |st.order| {
          assert st.order[i] in st.order;
        }
      }
      EventsOfAbsent(st.log, sessionId);
      assert Consistent(sessionId, r.sessions[sessionId], r.log);
    }
  }

  lemma AppendKeepsNumbering(log: seq<StoredEvent>, batch: seq<RawEvent>, sessionId: string, now: int)
    requires NumberedFrom(log, FirstEventId)
    ensures NumberedFrom(log + StampAll(batch, |log| + FirstEventId, sessionId, now), FirstEventId)
  {
    var stored := StampAll(batch, |log| + FirstEventId, sessionId, now);
    forall i | 0 <= i < |log + stored| ensures (log + stored)[i].id == FirstEventId + i {
      if i >= |log| {
        assert (log + stored)[i] == stored[i - |log|];
      }
    }
  }

  lemma AppendedConsistent(st: StoreState, sessionId: string, batch: seq<RawEvent>, now: int, k: string)
    requires Inv(st) && sessionId in st.sessions && st.sessions[sessionId].lastEventAt <= now
    requires k in st.sessions
    ensures Consistent(k, Appended(st, sessionId, batch, now).sessions[k], Appended(st, sessionId, batch, now).log)
  {
    var s := st.sessions[sessionId];
    var stored := StampAll(batch, st.counter, sessionId, now);
    var r := Appended(st, sessionId, batch, now);
    EventsOfAppend(st.log, stored, k);
    EventsOfStamped(batch, st.counter, sessionId, now, k);
    if k == sessionId {
      ErrorEventsAppend(s.events, stored);
      ErrorEventsStamped(batch, st.counter, sessionId, now);
      StampAllRoundTrip(batch, st.counter, sessionId, now);
      var t := r.sessions[k];
      forall e | e in t.events ensures t.createdAt <= e.createdAt <= t.lastEventAt {
        if e !in s.events {
          assert e in stored;
        }
      }
    }
  }

  /** After an append every logged event still belongs to a stored session. */
  lemma AppendedLogOwned(st: StoreState, sessionId: string, batch: seq<RawEvent>, now: int)
    requires sessionId in st.sessions
    requires forall i :: 0 <= i < |st.log| ==> st.log[i].sessionId in st.sessions
    ensures var r := Appended(st, sessionId, batch, now);
            forall i :: 0 <= i < |r.log| ==> r.log[i].sessionId in r.sessions
  {
    var stored := StampAll(batch, st.counter, sessionId, now);
    var r := Appended(st, sessionId, batch, now);
    assert r.sessions.Keys == st.sessions.Keys;
    forall i | 0 <= i < |r.log| ensures r.log[i].sessionId in r.sessions {
      if i >= |st.log| {
        assert r.log[i] == stored[i - |st.log|];
      } else {
        assert r.log[i] == st.log[i];
      }
    }
  }

  /** Appending to an existing session keeps the invariant, provided the clock has not gone back. */
  lemma AppendedKeepsInv(st: StoreState, sessionId: string, batch: seq<RawEvent>, now: int)
    requires Inv(st) && sessionId in st.sessions && st.sessions[sessionId].lastEventAt <= now
    ensures Inv(Appended(st, sessionId, batch, now))
  {
    var r := Appended(st, sessionId, batch, now);
    assert r.sessions.Keys == st.sessions.Keys;
    AppendKeepsNumbering(st.log, batch, sessionId, now);
    AppendedLogOwned(st, sessionId, batch, now);
    forall k | k in r.sessions ensures Consistent(k, r.sessions[k], r.log) {
      AppendedConsistent(st, sessionId, batch, now, k);
    }
  }

  /** `addEvents` keeps the store invariant, provided the clock has not gone back. */
  lemma AddedEventsKeepsInv(st: StoreState, sessionId: string, batch: seq<RawEvent>, userAgent: Option<string>, now: int)
    requires Inv(st)
    requires ClockNotBehind(st, sessionId, now)
    ensures Inv(AddedEvents(st, sessionId, batch, userAgent, now))
  {
    GetOrCreatedSpec(st, sessionId, userAgent, now);
    AppendedKeepsInv(GetOrCreated(st, sessionId, userAgent, now), sessionId, batch, now);
  }

  /**
   * What `addEvents` does. The batch's session ends with its old events (none if it
   * was new) followed by the batch, with every item's fields and in the given order,
   * stamped with the ids old counter, old counter + 1, ...; its error counter grows
   * by the number of "error" items, its time becomes `now`, its user agent is the
   * first one ever given. Every other session is as it was, and the counter moves
   * by the batch size.
   */
  lemma AddedEventsSpec(st: StoreState, sessionId: string, batch: seq<RawEvent>, userAgent: Option<string>, now: int)
    ensures var r := AddedEvents(st, sessionId, batch, userAgent, now);
      var before := if sessionId in st.sessions then st.sessions[sessionId]
                    else NewSession(sessionId, userAgent.GetOr(DefaultUserAgent), now);
      var stored := StampAll(batch, st.counter, sessionId, now);
      && sessionId in r.sessions
      && r.sessions[sessionId].events == before.events + stored
      && Payloads(stored) == batch
      && NumberedFrom(stored, st.counter)
      && |r.sessions[sessionId].events| == |before.events| + |batch|
      && r.sessions[sessionId].errorCount == before.errorCount + CountErrors(batch)
      && r.sessions[sessionId].lastEventAt == now
      && r.sessions[sessionId].userAgent == before.userAgent
      && r.sessions[sessionId].createdAt == before.createdAt
      && r.order == (if sessionId in st.sessions then st.order else st.order + [sessionId])
      && (forall k :: k != sessionId ==> (k in r.sessions <==> k in st.sessions))
      && (forall k :: k != sessionId && k in st.sessions ==> r.sessions[k] == st.sessions[k])
      && r.counter == st.counter + |batch|
      && r.log == st.log + stored
  {
    StampAllRoundTrip(batch, st.counter, sessionId, now);
  }

  // ---------------------------------------------------------------------------
  // What the invariant gives
  // ---------------------------------------------------------------------------

  /** In a log numbered from the first id, an event sits at the position its id names. */
  lemma InNumberedLog(log: seq<StoredEvent>, e: StoredEvent)
    requires NumberedFrom(log, FirstEventId) && e in log
    ensures FirstEventId <= e.id < |log| + FirstEventId
    ensures log[e.id - FirstEventId] == e
  {
    var i :| 0 <= i < |log| && log[i] == e;
    assert log[i].id == FirstEventId + i;
  }

  /** Every stored event has an id the counter has handed out, and sits in the log at the position that id names. */
  lemma StoredInLog(st: StoreState, k: string, e: StoredEvent)
    requires Inv(st) && k in st.sessions && e in st.sessions[k].events
    ensures FirstEventId <= e.id < st.counter
    ensures st.log[e.id - FirstEventId] == e
    ensures e.sessionId == k
  {
    var s := st.sessions[k];
    assert Consistent(k, s, st.log);
    assert e in EventsOf(st.log, k);
    InNumberedLog(st.log, e);
  }

  /** Inside a session, ids increase in append order. */
  lemma SessionIdsIncrease(st: StoreState, k: string)
    requires Inv(st) && k in st.sessions
    ensures IdsIncrease(st.sessions[k].events)
  {
    assert IdsIncrease(st.log);
    EventsOfKeepsIdOrder(st.log, k);
  }

  /** Two stored events with the same id are the same event, wherever they are stored. */
  lemma EventIdsUnique(st: StoreState, k1: string, k2: string, e1: StoredEvent, e2: StoredEvent)
    requires Inv(st)
    requires k1 in st.sessions && e1 in st.sessions[k1].events
    requires k2 in st.sessions && e2 in st.sessions[k2].events
    ensures e1.id == e2.id ==> e1 == e2 && k1 == k2
  {
    if e1.id == e2.id {
      assert Consistent(k1, st.sessions[k1], st.log);
      assert Consistent(k2, st.sessions[k2], st.log);
      SameIdSameEvent(st.log, k1, k2, e1, e2);
    }
  }

  lemma SameIdSameEvent(log: seq<StoredEvent>, k1: string, k2: string, e1: StoredEvent, e2: StoredEvent)
    requires NumberedFrom(log, FirstEventId)
    requires e1 in EventsOf(log, k1) && e2 in EventsOf(log, k2)
    ensures e1.id == e2.id ==> e1 == e2 && k1 == k2
  {
    InNumberedLog(log, e1);
    InNumberedLog(log, e2);
  }

  /** From a fresh store, one batch gives its session exactly the batch's length of events and its number of "error" items. */
  lemma FreshSessionCounts(sessionId: string, batch: seq<RawEvent>, userAgent: Option<string>, now: int)
    ensures var r := AddedEvents(EmptyStore(), sessionId, batch, userAgent, now);
      && |r.sessions[sessionId].events| == |batch|
      && r.sessions[sessionId].errorCount == CountErrors(batch)
      && Payloads(r.sessions[sessionId].events) == batch
      && NumberedFrom(r.sessions[sessionId].events, FirstEventId)
  {
    AddedEventsSpec(EmptyStore(), sessionId, batch, userAgent, now);
  }

  /** Two batches to the same session leave its earlier events, then the first batch, then the second. */
  lemma TwoBatchesInOrder(st: StoreState, sessionId: string, b1: seq<RawEvent>, b2: seq<RawEvent>,
                          ua1: Option<string>, ua2: Option<string>, t1: int, t2: int)
    ensures var r := AddedEvents(AddedEvents(st, sessionId, b1, ua1, t1), sessionId, b2, ua2, t2);
      var before := if sessionId in st.sessions then st.sessions[sessionId].events else [];
      && r.sessions[sessionId].events[..|before|] == before
      && Payloads(r.sessions[sessionId].events[|before|..]) == b1 + b2
  {
    var mid := AddedEvents(st, sessionId, b1, ua1, t1);
    AddedEventsSpec(st, sessionId, b1, ua1, t1);
    AddedEventsSpec(mid, sessionId, b2, ua2, t2);
    var r := AddedEvents(mid, sessionId, b2, ua2, t2);
    var before := if sessionId in st.sessions then st.sessions[sessionId].events else [];
    var s1 := StampAll(b1, st.counter, sessionId, t1);
    var s2 := StampAll(b2, mid.counter, sessionId, t2);
    assert r.sessions[sessionId].events == before + s1 + s2;
    assert r.sessions[sessionId].events[|before|..] == s1 + s2;
    assert Payloads(s1 + s2) == Payloads(s1) + Payloads(s2);
  }

  /**
   * Re-delivery is not deduplicated: the same batch appended twice is stored twice,
   * as two runs of events with the same fields and different ids.
   */
  lemma RedeliveryDuplicates(st: StoreState, sessionId: string, batch: seq<RawEvent>, userAgent: Option<string>, t1: int, t2: int)
    requires batch != []
    ensures var mid := AddedEvents(st, sessionId, batch, userAgent, t1);
      var r := AddedEvents(mid, sessionId, batch, userAgent, t2);
      var n := |mid.sessions[sessionId].events|;
      && |r.sessions[sessionId].events| == n + |batch|
      && Payloads(r.sessions[sessionId].events[n - |batch|..n]) == batch
      && Payloads(r.sessions[sessionId].events[n..]) == batch
      && r.sessions[sessionId].events[n - |batch|].id != r.sessions[sessionId].events[n].id
  {
    var mid := AddedEvents(st, sessionId, batch, userAgent, t1);
    AddedEventsSpec(st, sessionId, batch, userAgent, t1);
    AddedEventsSpec(mid, sessionId, batch, userAgent, t2);
    var r := AddedEvents(mid, sessionId, batch, userAgent, t2);
    var before := if sessionId in st.sessions then st.sessions[sessionId].events else [];
    var s1 := StampAll(batch, st.counter, sessionId, t1);
    var s2 := StampAll(batch, mid.counter, sessionId, t2);
    var n := |mid.sessions[sessionId].events|;
    assert mid.sessions[sessionId].events == before + s1;
    assert r.sessions[sessionId].events == before + s1 + s2;
    assert r.sessions[sessionId].events[n - |batch|..n] == s1;
    assert r.sessions[sessionId].events[n..] == s2;
    assert s1[0].id == st.counter && s2[0].id == st.counter + |batch|;
  }

  // ---------------------------------------------------------------------------
  // Read-only views: the Map's values, the ordered list, the totals
  // ---------------------------------------------------------------------------

  /** `Array.from(this.sessions.values())`: the sessions in the Map's insertion order. */
  function ValuesOf(order: seq<string>, sessions: map<string, Session>): (r: seq<Session>)
    requires forall k :: k in order ==> k in sessions
    ensures |r| == |order|
    ensures forall i :: 0 <= i < |order| ==> r[i] == sessions[order[i]]
  {
    if order == [] then [] else [sessions[order[0]]] + ValuesOf(order[1..], sessions)
  }

  /** With the invariant, the Map's values are exactly the stored sessions, each under its own id. */
  lemma ValuesOfMembers(st: StoreState)
    requires Inv(st)
    ensures forall k :: k in st.sessions ==> st.sessions[k] in ValuesOf(st.order, st.sessions)
    ensures forall s :: s in ValuesOf(st.order, st.sessions) ==> s.id in st.sessions && st.sessions[s.id] == s
  {
    ValuesOfCover(st.order, st.sessions);
    ValuesOfOwn(st.order, st.sessions);
  }

  lemma ValuesOfCover(order: seq<string>, sessions: map<string, Session>)
    requires forall k :: k in sessions <==> k in order
    ensures forall k :: k in sessions ==> sessions[k] in ValuesOf(order, sessions)
  {
    var v := ValuesOf(order, sessions);
    forall k | k in sessions ensures sessions[k] in v {
      var i :| 0 <= i < |order| && order[i] == k;
      assert v[i] == sessions[k];
    }
  }

  lemma ValuesOfOwn(order: seq<string>, sessions: map<string, Session>)
    requires forall k :: k in order ==> k in sessions && sessions[k].id == k
    ensures forall s :: s in ValuesOf(order, sessions) ==> s.id in sessions && sessions[s.id] == s
  {
    var v := ValuesOf(order, sessions);
    forall s | s in v ensures s.id in sessions && sessions[s.id] == s {
      var i :| 0 <= i < |v| && v[i] == s;
      assert order[i] in sessions;
    }
  }

  /** The `reduce` over `s.events.length`. */
  function TotalEvents(ss: seq<Session>): nat {
    if ss == [] then 0 else |ss[0].events| + TotalEvents(ss[1..])
  }

  /** The `reduce` over `s.errorCount`. */
  function TotalErrors(ss: seq<Session>): nat {
    if ss == [] then 0 else ss[0].errorCount + TotalErrors(ss[1..])
  }

  /** The comparator `b.lastEventAt - a.lastEventAt`: most recently active first. */
  ghost predicate NewestFirst(ss: seq<Session>) {
    forall i, j :: 0 <= i < j < |ss| ==> ss[i].lastEventAt >= ss[j].lastEventAt
  }

  /** The sessions whose last event time is `t`, in their order in `ss`. */
  function AtTime(ss: seq<Session>, t: int): seq<Session> {
    if ss == [] then [] else (if ss[0].lastEventAt == t then [ss[0]] else []) + AtTime(ss[1..], t)
  }

  /** Places `x` before the first session no more recent than it. */
  function InsertByRecency(x: Session, ss: seq<Session>): seq<Session> {
    if ss == [] || ss[0].lastEventAt <= x.lastEventAt then [x] + ss
    else [ss[0]] + InsertByRecency(x, ss[1..])
  }

  /** `Array.prototype.sort` with the recency comparator: a stable sort, newest first. */
  function SortByRecency(ss: seq<Session>): seq<Session> {
    if ss == [] then [] else InsertByRecency(ss[0], SortByRecency(ss[1..]))
  }

  lemma {:induction false} InsertKeepsSessions(x: Session, ss: seq<Session>)
    ensures multiset(InsertByRecency(x, ss)) == multiset(ss) + multiset{x}
  {
    if !(ss == [] || ss[0].lastEventAt <= x.lastEventAt) {
      InsertKeepsSessions(x, ss[1..]);
      assert ss == [ss[0]] + ss[1..];
    }
  }

  lemma {:induction false} InsertNotNewerThan(x: Session, ss: seq<Session>, top: int)
    requires x.lastEventAt <= top
    requires forall i :: 0 <= i < |ss| ==> ss[i].lastEventAt <= top
    ensures forall i :: 0 <= i < |InsertByRecency(x, ss)| ==> InsertByRecency(x, ss)[i].lastEventAt <= top
  {
    if !(ss == [] || ss[0].lastEventAt <= x.lastEventAt) {
      InsertNotNewerThan(x, ss[1..], top);
    }
  }

  lemma {:induction false} InsertKeepsNewestFirst(x: Session, ss: seq<Session>)
    requires NewestFirst(ss)
    ensures NewestFirst(InsertByRecency(x, ss))
  {
    var r := InsertByRecency(x, ss);
    if ss == [] || ss[0].lastEventAt <= x.lastEventAt {
      assert r == [x] + ss;
    } else {
      var tail := ss[1..];
      var rest := InsertByRecency(x, tail);
      InsertKeepsNewestFirst(x, tail);
      InsertNotNewerThan(x, tail, ss[0].lastEventAt);
      assert r == [ss[0]] + rest;
      forall i, j | 0 <= i < j < |r| ensures r[i].lastEventAt >= r[j].lastEventAt {
        assert r[j] == rest[j - 1];
        if i > 0 {
          assert r[i] == rest[i - 1];
        }
      }
    }
  }

  lemma AtTimeCons(y: Session, ss: seq<Session>, t: int)
    ensures AtTime([y] + ss, t) == (if y.lastEventAt == t then [y] else []) + AtTime(ss, t)
  {
    assert ([y] + ss)[0] == y && ([y] + ss)[1..] == ss;
  }

  /** Inserting keeps the relative order of the sessions that share a time: `x` goes before all of them. */
  lemma {:induction false} InsertAtTime(x: Session, ss: seq<Session>, t: int)
    ensures AtTime(InsertByRecency(x, ss), t) == (if x.lastEventAt == t then [x] else []) + AtTime(ss, t)
  {
    var hx := if x.lastEventAt == t then [x] else [];
    if ss == [] || ss[0].lastEventAt <= x.lastEventAt {
      AtTimeCons(x, ss, t);
    } else {
      var rest := InsertByRecency(x, ss[1..]);
      var h0 := if ss[0].lastEventAt == t then [ss[0]] else [];
      InsertAtTime(x, ss[1..], t);
      AtTimeCons(ss[0], rest, t);
      assert AtTime(ss, t) == h0 + AtTime(ss[1..], t);
      assert h0 == [] || hx == [];
      assert h0 + (hx + AtTime(ss[1..], t)) == hx + (h0 + AtTime(ss[1..], t));
    }
  }

  lemma {:induction false} InsertTotals(x: Session, ss: seq<Session>)
    ensures TotalEvents(InsertByRecency(x, ss)) == |x.events| + TotalEvents(ss)
    ensures TotalErrors(InsertByRecency(x, ss)) == x.errorCount + TotalErrors(ss)
  {
    var r := InsertByRecency(x, ss);
    if ss == [] || ss[0].lastEventAt <= x.lastEventAt {
      assert r[1..] == ss;
    } else {
      InsertTotals(x, ss[1..]);
      assert r[1..] == InsertByRecency(x, ss[1..]);
    }
  }

  lemma {:induction false} SortKeepsSessions(ss: seq<Session>)
    ensures NewestFirst(SortByRecency(ss))
    ensures multiset(SortByRecency(ss)) == multiset(ss)
  {
    if ss != [] {
      SortKeepsSessions(ss[1..]);
      InsertKeepsNewestFirst(ss[0], SortByRecency(ss[1..]));
      InsertKeepsSessions(ss[0], SortByRecency(ss[1..]));
      assert ss == [ss[0]] + ss[1..];
    }
  }

  lemma {:induction false} SortIsStable(ss: seq<Session>, t: int)
    ensures AtTime(SortByRecency(ss), t) == AtTime(ss, t)
  {
    if ss != [] {
      SortIsStable(ss[1..], t);
      InsertAtTime(ss[0], SortByRecency(ss[1..]), t);
    }
  }

  lemma {:induction false} SortKeepsTotals(ss: seq<Session>)
    ensures TotalEvents(SortByRecency(ss)) == TotalEvents(ss)
    ensures TotalErrors(SortByRecency(ss)) == TotalErrors(ss)
  {
    if ss != [] {
      SortKeepsTotals(ss[1..]);
      InsertTotals(ss[0], SortByRecency(ss[1..]));
    }
  }

  /**
   * The list view orders sessions newest first, holds each session exactly as often as
   * the input does, keeps the input's order among sessions with the same time
   * (a stable sort), and does not change the totals.
   */
  lemma SortByRecencySpec(ss: seq<Session>)
    ensures var r := SortByRecency(ss);
      && |r| == |ss|
      && NewestFirst(r)
      && multiset(r) == multiset(ss)
      && (forall t :: AtTime(r, t) == AtTime(ss, t))
      && TotalEvents(r) == TotalEvents(ss)
      && TotalErrors(r) == TotalErrors(ss)
  {
    var r := SortByRecency(ss);
    SortKeepsSessions(ss);
    SortKeepsTotals(ss);
    assert |r| == |multiset(r)| == |multiset(ss)| == |ss|;
    forall t ensures AtTime(r, t) == AtTime(ss, t) {
      SortIsStable(ss, t);
    }
  }

  /** Σ over the sessions in `order` of how many events of `log` each owns. */
  function SumOfCounts(order: seq<string>, log: seq<StoredEvent>): nat {
    if order == [] then 0 else |EventsOf(log, order[0])| + SumOfCounts(order[1..], log)
  }

  lemma {:induction false} SumOfCountsAppend(order: seq<string>, a: seq<StoredEvent>, b: seq<StoredEvent>)
    ensures SumOfCounts(order, a + b) == SumOfCounts(order, a) + SumOfCounts(order, b)
  {
    if order != [] {
      EventsOfAppend(a, b, order[0]);
      SumOfCountsAppend(order[1..], a, b);
    }
  }

  lemma {:induction false} SumOfCountsSingle(order: seq<string>, e: StoredEvent)
    requires Distinct(order)
    ensures SumOfCounts(order, [e]) == if e.sessionId in order then 1 else 0
  {
    if order != [] {
      assert [e][1..] == [];
      assert Distinct(order[1..]) by {
        forall i, j | 0 <= i < j < |order[1..]| ensures order[1..][i] != order[1..][j] {
          assert order[1..][i] == order[i + 1] && order[1..][j] == order[j + 1];
        }
      }
      SumOfCountsSingle(order[1..], e);
      if e.sessionId != order[0] {
        assert e.sessionId in order <==> e.sessionId in order[1..];
      }
    }
  }

  /** Every event belongs to exactly one session of the order, so the per-session counts add up to the whole log. */
  lemma {:induction false} SumOfCountsIsLength(order: seq<string>, log: seq<StoredEvent>)
    requires Distinct(order)
    requires forall i :: 0 <= i < |log| ==> log[i].sessionId in order
    ensures SumOfCounts(order, log) == |log|
  {
    if log == [] {
      SumOfCountsEmpty(order);
    } else {
      var init := log[..|log| - 1];
      assert log == init + [log[|log| - 1]];
      SumOfCountsAppend(order, init, [log[|log| - 1]]);
      SumOfCountsSingle(order, log[|log| - 1]);
      SumOfCountsIsLength(order, init);
    }
  }

  lemma {:induction false} SumOfCountsEmpty(order: seq<string>)
    ensures SumOfCounts(order, []) == 0
  {
    if order != [] {
      SumOfCountsEmpty(order[1..]);
    }
  }

  lemma {:induction false} TotalsOfValues(order: seq<string>, sessions: map<string, Session>, log: seq<StoredEvent>)
    requires forall k :: k in order ==> k in sessions && Consistent(k, sessions[k], log)
    ensures TotalEvents(ValuesOf(order, sessions)) == SumOfCounts(order, log)
    ensures TotalErrors(ValuesOf(order, sessions)) == SumOfCounts(order, ErrorEvents(log))
  {
    if order != [] {
      var v := ValuesOf(order, sessions);
      assert v[1..] == ValuesOf(order[1..], sessions);
      FiltersCommute(log, order[0]);
      TotalsOfValues(order[1..], sessions, log);
    }
  }

  lemma {:induction false} DistinctCardinality(order: seq<string>)
    requires Distinct(order)
    ensures |set k | k in order| == |order|
  {
    if order != [] {
      var rest := order[1..];
      assert Distinct(rest) by {
        forall i, j | 0 <= i < j < |rest| ensures rest[i] != rest[j] {
          assert rest[i] == order[i + 1] && rest[j] == order[j + 1];
        }
      }
      DistinctCardinality(rest);
      assert order[0] !in rest;
      assert (set k | k in order) == {order[0]} + (set k | k in rest);
    }
  }

  /**
   * The totals `getStats` adds up over the sessions are the number of sessions, the
   * number of events ever stored (the counter's distance from its start) and the
   * number of "error" events ever stored.
   */
  lemma StatsSpec(st: StoreState)
    requires Inv(st)
    ensures var v := ValuesOf(st.order, st.sessions);
      && |v| == |st.sessions|
      && TotalEvents(v) == st.counter - FirstEventId
      && TotalErrors(v) == |ErrorEvents(st.log)|
  {
    TotalsOfValues(st.order, st.sessions, st.log);
    SumOfCountsIsLength(st.order, st.log);
    ErrorsOwned(st.order, st.log);
    SumOfCountsIsLength(st.order, ErrorEvents(st.log));
    DistinctCardinality(st.order);
    assert st.sessions.Keys == set k | k in st.order;
  }

  /** The error events of a log whose events all belong to sessions of `order` belong to them too. */
  lemma ErrorsOwned(order: seq<string>, log: seq<StoredEvent>)
    requires forall i :: 0 <= i < |log| ==> log[i].sessionId in order
    ensures var errs := ErrorEvents(log);
            forall i :: 0 <= i < |errs| ==> errs[i].sessionId in order
  {
    var errs := ErrorEvents(log);
    forall i | 0 <= i < |errs| ensures errs[i].sessionId in order {
      assert errs[i] in errs;
      var j :| 0 <= j < |log| && log[j] == errs[i];
    }
  }
}
