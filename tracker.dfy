/**
 * The browser-side event buffer, `EventTracker` of sdk/src/eventTracker.ts (bundled
 * unchanged in frontend/public/ai-fe-debugger.js). `track` appends to the buffer;
 * the asynchronous `flush` is split at its one suspension point, the `fetch`:
 * BeginFlush swaps the buffer out and returns the batch to send, CompleteFlush is
 * what runs when that send settles. Several flushes may be in flight at once.
 *
 * Module Delivery states the flow of events through the tracker as values and
 * proves what it keeps; the class's methods are those transitions run in place.
 */
module Delivery {
  import opened Json

  /** `EventType` of sdk/src/types.ts. */
  datatype EventType = Click | Input | ApiCall | Error | Navigation

  /** The string each event type is sent as. */
  function TypeName(t: EventType): string {
    match t
    case Click => "click"
    case Input => "input"
    case ApiCall => "api_call"
    case Error => "error"
    case Navigation => "navigation"
  }

  /** Every type has its own non-empty name, so the server can tell them apart and finds each one truthy. */
  lemma TypeNameInjective(t: EventType, u: EventType)
    ensures TypeName(t) != ""
    ensures TypeName(t) == TypeName(u) <==> t == u
  {
  }

  /** `DebugEvent` of sdk/src/types.ts: the type, `Date.now()` at tracking time, and the caller's data record. */
  datatype DebugEvent = DebugEvent(eventType: EventType, timestamp: int, data: map<string, JsValue>)

  /**
   * Where the tracked events are: `tracked` is every event ever tracked, in order;
   * `buffer` is the tracker's `events` array; `inFlight` the batches whose send has
   * not settled, in the order they were started; `delivered` every event of a batch
   * whose send resolved, in the order the sends resolved.
   */
  datatype Flow = Flow(
    tracked: seq<DebugEvent>,
    buffer: seq<DebugEvent>,
    inFlight: seq<seq<DebugEvent>>,
    delivered: seq<DebugEvent>)

  /** A tracker that has tracked nothing. */
  function Fresh(): Flow {
    Flow([], [], [], [])
  }

  /** The batches one after the other. */
  function Flat(batches: seq<seq<DebugEvent>>): seq<DebugEvent> {
    if batches == [] then [] else batches[0] + Flat(batches[1..])
  }

  /** The in-flight batches without the k-th one. */
  function Without(batches: seq<seq<DebugEvent>>, k: nat): (r: seq<seq<DebugEvent>>)
    requires k < |batches|
    ensures |r| == |batches| - 1
  {
    batches[..k] + batches[k + 1..]
  }

  // ---------------------------------------------------------------------------
  // Transitions
  // ---------------------------------------------------------------------------

  /** `track`: the event goes at the end of the buffer. */
  function Tracked(f: Flow, e: DebugEvent): Flow {
    f.(tracked := f.tracked + [e], buffer := f.buffer + [e])
  }

  /** The synchronous part of `flush`: nothing on an empty buffer, otherwise the whole buffer leaves as one batch. */
  function Begun(f: Flow): Flow {
    if f.buffer == [] then f else f.(buffer := [], inFlight := f.inFlight + [f.buffer])
  }

  /**
   * The part of `flush` after the `fetch` of in-flight batch k settles: a resolved send
   * (whatever its HTTP status) delivers the batch; a rejected one puts the batch back
   * in front of whatever the buffer holds now (`unshift`).
   */
  function Completed(f: Flow, k: nat, resolved: bool): Flow
    requires k < |f.inFlight|
  {
    var batch := f.inFlight[k];
    if resolved then f.(inFlight := Without(f.inFlight, k), delivered := f.delivered + batch)
    else f.(inFlight := Without(f.inFlight, k), buffer := batch + f.buffer)
  }

  // ---------------------------------------------------------------------------
  // Conservation: nothing lost, nothing made up
  // ---------------------------------------------------------------------------

  /** Each tracked event, counted with multiplicity, is in exactly one place: the buffer, one in-flight batch, or delivered. */
  ghost predicate Conserved(f: Flow) {
    multiset(f.tracked) == multiset(f.buffer) + multiset(Flat(f.inFlight)) + multiset(f.delivered)
  }

  lemma {:induction false} FlatAppend(a: seq<seq<DebugEvent>>, b: seq<seq<DebugEvent>>)
    ensures Flat(a + b) == Flat(a) + Flat(b)
  {
    if a == [] {
      assert a + b == b;
    } else {
      assert (a + b)[1..] == a[1..] + b;
      FlatAppend(a[1..], b);
    }
  }

  /** The events of the in-flight list: those before batch k, batch k, those after. */
  lemma {:induction false} FlatSplit(batches: seq<seq<DebugEvent>>, k: nat)
    requires k < |batches|
    ensures Flat(batches) == Flat(batches[..k]) + batches[k] + Flat(batches[k + 1..])
  {
    if k == 0 {
      assert batches[..0] == [];
      assert Flat(batches[..0]) == [];
    } else {
      var tail := batches[1..];
      FlatSplit(tail, k - 1);
      assert tail[..k - 1] == batches[1..k] && tail[k - 1] == batches[k] && tail[k..] == batches[k + 1..];
      var front := batches[..k];
      assert front[0] == batches[0] && front[1..] == batches[1..k];
      assert Flat(front) == batches[0] + Flat(batches[1..k]);
    }
  }

  /** Taking batch k out of the in-flight list takes exactly its events out of their union. */
  lemma FlatWithout(batches: seq<seq<DebugEvent>>, k: nat)
    requires k < |batches|
    ensures multiset(Flat(batches)) == multiset(Flat(Without(batches, k))) + multiset(batches[k])
  {
    var pre, post := Flat(batches[..k]), Flat(batches[k + 1..]);
    FlatSplit(batches, k);
    FlatAppend(batches[..k], batches[k + 1..]);
    assert Flat(Without(batches, k)) == pre + post;
    assert multiset(pre + batches[k] + post) == multiset(pre) + multiset(batches[k]) + multiset(post);
  }

  lemma FreshConserved()
    ensures Conserved(Fresh())
  {
  }

  lemma TrackedConserves(f: Flow, e: DebugEvent)
    requires Conserved(f)
    ensures Conserved(Tracked(f, e))
  {
  }

  lemma BegunConserves(f: Flow)
    requires Conserved(f)
    ensures Conserved(Begun(f))
  {
    if f.buffer != [] {
      FlatAppend(f.inFlight, [f.buffer]);
      assert Flat([f.buffer]) == f.buffer by {
        assert [f.buffer][1..] == [];
      }
    }
  }

  lemma CompletedConserves(f: Flow, k: nat, resolved: bool)
    requires Conserved(f) && k < |f.inFlight|
    ensures Conserved(Completed(f, k, resolved))
  {
    FlatWithout(f.inFlight, k);
  }

  /**
   * What conservation means event by event: a tracked event is in the buffer, in
   * some in-flight batch, or delivered; and whatever is in those places was tracked.
   */
  lemma NothingLost(f: Flow, e: DebugEvent)
    requires Conserved(f)
    ensures e in f.tracked <==> e in f.buffer || e in Flat(f.inFlight) || e in f.delivered
    ensures multiset(f.delivered) <= multiset(f.tracked)
  {
    assert e in f.tracked <==> e in multiset(f.tracked);
  }

  /** An event of an in-flight batch is in the union of the in-flight batches. */
  lemma InFlightInFlat(batches: seq<seq<DebugEvent>>, k: nat, e: DebugEvent)
    requires k < |batches| && e in batches[k]
    ensures e in Flat(batches)
  {
    FlatWithout(batches, k);
    assert e in multiset(batches[k]);
    assert e in multiset(Flat(batches));
  }

  // ---------------------------------------------------------------------------
  // Order: kept while flushes do not overlap, lost when they do
  // ---------------------------------------------------------------------------

  /** At most one batch in flight, and the events in tracking order: delivered, then in flight, then buffered. */
  ghost predicate Sequential(f: Flow) {
    |f.inFlight| <= 1 && f.tracked == f.delivered + Flat(f.inFlight) + f.buffer
  }

  lemma FreshSequential()
    ensures Sequential(Fresh())
  {
  }

  lemma TrackedKeepsOrder(f: Flow, e: DebugEvent)
    requires Sequential(f)
    ensures Sequential(Tracked(f, e))
  {
    var g := Tracked(f, e);
    assert g.tracked == f.tracked + [e];
    assert f.delivered + Flat(f.inFlight) + (f.buffer + [e]) == (f.delivered + Flat(f.inFlight) + f.buffer) + [e];
  }

  /** Starting a flush while none is in flight keeps tracking order. */
  lemma BegunKeepsOrder(f: Flow)
    requires Sequential(f) && f.inFlight == []
    ensures Sequential(Begun(f))
  {
    if f.buffer != [] {
      assert Flat([f.buffer]) == f.buffer by {
        assert [f.buffer][1..] == [];
      }
      assert f.tracked == f.delivered + f.buffer;
    }
  }

  /** Settling the one in-flight batch keeps tracking order, whether it was delivered or put back. */
  lemma CompletedKeepsOrder(f: Flow, resolved: bool)
    requires Sequential(f) && |f.inFlight| == 1
    ensures Sequential(Completed(f, 0, resolved))
  {
    var batch := f.inFlight[0];
    assert f.inFlight == [batch];
    assert Flat([batch]) == batch by {
      assert [batch][1..] == [];
    }
    assert Without(f.inFlight, 0) == [];
    if resolved {
      assert f.delivered + batch + f.buffer == (f.delivered + batch) + [] + f.buffer;
    } else {
      assert f.delivered + batch + f.buffer == f.delivered + [] + (batch + f.buffer);
    }
  }

  /**
   * Two overlapping flushes that both fail leave the buffer in the wrong order: the
   * batch that settles last is put in front of the one put back first, so the later
   * event is ahead of the earlier one.
   */
  lemma OverlapReorders(a: DebugEvent, b: DebugEvent)
    requires a != b
    ensures var f1 := Begun(Tracked(Fresh(), a));
            var f2 := Begun(Tracked(f1, b));
            var f3 := Completed(Completed(f2, 0, false), 0, false);
            && f2.inFlight == [[a], [b]]
            && f3.tracked == [a, b]
            && f3.buffer == [b, a]
            && f3.inFlight == [] && f3.delivered == []
  {
    var t1 := Tracked(Fresh(), a);
    assert t1.buffer == [a] && t1.tracked == [a];
    var f1 := Begun(t1);
    assert f1.inFlight == [[a]] && f1.buffer == [];
    var t2 := Tracked(f1, b);
    assert t2.buffer == [b] && t2.tracked == [a, b];
    var f2 := Begun(t2);
    assert f2.inFlight == [[a], [b]];
    var g := Completed(f2, 0, false);
    assert Without(f2.inFlight, 0) == [[b]];
    assert g.buffer == [a] && g.inFlight == [[b]];
    assert Without(g.inFlight, 0) == [];
  }

  /** Two overlapping flushes can also deliver out of order: the second resolves, the first fails and is sent again. */
  lemma OverlapDeliversOutOfOrder(a: DebugEvent, b: DebugEvent)
    requires a != b
    ensures var f2 := Begun(Tracked(Begun(Tracked(Fresh(), a)), b));
            var f3 := Completed(Completed(f2, 1, true), 0, false);
            var f4 := Completed(Begun(f3), 0, true);
            && f4.tracked == [a, b]
            && f4.delivered == [b, a]
            && f4.buffer == [] && f4.inFlight == []
  {
    var t1 := Tracked(Fresh(), a);
    assert t1.buffer == [a] && t1.tracked == [a];
    var f1 := Begun(t1);
    assert f1.inFlight == [[a]] && f1.buffer == [];
    var t2 := Tracked(f1, b);
    assert t2.buffer == [b] && t2.tracked == [a, b];
    var f2 := Begun(t2);
    assert f2.inFlight == [[a], [b]];
    var g := Completed(f2, 1, true);
    assert Without(f2.inFlight, 1) == [[a]];
    assert g.delivered == [b] && g.inFlight == [[a]];
    var f3 := Completed(g, 0, false);
    assert Without(g.inFlight, 0) == [];
    assert f3.buffer == [a] && f3.inFlight == [];
    var h := Begun(f3);
    assert h.inFlight == [[a]];
    assert Without(h.inFlight, 0) == [];
  }
}

module Tracker {
  import opened Wrappers
  import opened Json
  import opened Delivery

  const DefaultFlushInterval: int := 5000

  class EventTracker {
    /** The buffer of events not yet handed to a send. */
    var events: seq<DebugEvent>
    const sessionId: string
    const apiUrl: string
    const flushInterval: int
    /** The handle `setInterval` returned; `clearInterval` does not reset it. */
    var flushTimer: Option<nat>
    /** Whether the host still runs the interval (the host's timer table, not a field of the tracker). */
    ghost var ticking: bool
    /** The events' whereabouts beyond the buffer (proof state: the source keeps no such lists). */
    ghost var tracked: seq<DebugEvent>
    ghost var inFlight: seq<seq<DebugEvent>>
    ghost var delivered: seq<DebugEvent>

    ghost function State(): Flow
      reads this
    {
      Flow(tracked, events, inFlight, delivered)
    }

    ghost predicate Valid()
      reads this
    {
      Conserved(State())
    }

    /**
     * An empty buffer, the interval given or 5000 ms when omitted, and the flush interval
     * started at once; `timer` is the handle the host's `setInterval` returns.
     */
    constructor (sessionId: string, apiUrl: string, flushInterval: Option<int>, timer: nat)
      ensures Valid()
      ensures State() == Fresh()
      ensures this.sessionId == sessionId && this.apiUrl == apiUrl
      ensures this.flushInterval == flushInterval.GetOr(DefaultFlushInterval)
      ensures flushTimer == Some(timer) && ticking
    {
      this.sessionId := sessionId;
      this.apiUrl := apiUrl;
      this.flushInterval := flushInterval.GetOr(DefaultFlushInterval);
      events := [];
      tracked := [];
      inFlight := [];
      delivered := [];
      flushTimer := Some(timer);
      ticking := true;
      FreshConserved();
    }

    /** `track(type, data)` at time `now` (`Date.now()`): one event at the end of the buffer. */
    method Track(eventType: EventType, data: map<string, JsValue>, now: int)
      requires Valid()
      modifies this
      ensures Valid()
      ensures events == old(events) + [DebugEvent(eventType, now, data)]
      ensures State() == Tracked(old(State()), DebugEvent(eventType, now, data))
      ensures flushTimer == old(flushTimer) && ticking == old(ticking)
    {
      var e := DebugEvent(eventType, now, data);
      ghost var before := State();
      TrackedConserves(before, e);
      events := events + [e];
      tracked := tracked + [e];
      assert State() == Tracked(before, e);
    }

    /**
     * `flush` up to its `await`: on an empty buffer nothing is sent and nothing changes;
     * otherwise the buffer is copied out as the batch to send and emptied.
     */
    method BeginFlush() returns (batch: Option<seq<DebugEvent>>)
      requires Valid()
      modifies this
      ensures Valid()
      ensures batch.None? <==> old(events) == []
      ensures batch.None? ==> events == old(events) && inFlight == old(inFlight)
      ensures batch.Some? ==> batch.value == old(events) && events == [] && inFlight == old(inFlight) + [batch.value]
      ensures State() == Begun(old(State()))
      ensures flushTimer == old(flushTimer) && ticking == old(ticking)
    {
      BegunConserves(State());
      if |events| == 0 {
        return None;
      }
      var sent := events;
      events := [];
      inFlight := inFlight + [sent];
      batch := Some(sent);
    }

    /**
     * `flush` after its `await`, for the batch that was in flight as number `k`:
     * `resolved` is whether `fetch` resolved (any status) or rejected. A resolved send
     * leaves the buffer alone; a rejected one puts the batch, in its order, in front of
     * the events tracked since.
     */
    method CompleteFlush(batch: seq<DebugEvent>, ghost k: nat, resolved: bool)
      requires Valid()
      requires k < |inFlight| && inFlight[k] == batch
      modifies this
      ensures Valid()
      ensures resolved ==> events == old(events)
      ensures !resolved ==> events == batch + old(events)
      ensures State() == Completed(old(State()), k, resolved)
      ensures flushTimer == old(flushTimer) && ticking == old(ticking)
    {
      ghost var before := State();
      CompletedConserves(before, k, resolved);
      inFlight := Without(inFlight, k);
      if resolved {
        delivered := delivered + batch;
      } else {
        events := batch + events;
      }
      assert State() == Completed(before, k, resolved);
    }

    /** The interval's callback (`startAutoFlush`): it starts a flush, and runs only while the interval is set. */
    method Tick() returns (batch: Option<seq<DebugEvent>>)
      requires Valid() && ticking
      modifies this
      ensures Valid()
      ensures State() == Begun(old(State()))
      ensures batch.None? <==> old(events) == []
      ensures batch.Some? ==> batch.value == old(events)
      ensures flushTimer == old(flushTimer) && ticking
    {
      batch := BeginFlush();
    }

    /** `destroy`: the interval is cleared when a handle is set, then one last flush starts. */
    method Destroy() returns (batch: Option<seq<DebugEvent>>)
      requires Valid()
      modifies this
      ensures Valid()
      ensures State() == Begun(old(State()))
      ensures batch.None? <==> old(events) == []
      ensures batch.Some? ==> batch.value == old(events)
      ensures flushTimer == old(flushTimer)
      ensures ticking == (old(ticking) && (flushTimer.None? || flushTimer.value == 0))
    {
      if flushTimer.Some? && flushTimer.value != 0 {
        ticking := false;
      }
      batch := BeginFlush();
    }
  }
}
