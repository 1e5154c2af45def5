/**
 * The subscribed stream of src/index.ts as one object: the debounce timer,
 * distinctUntilChanged's remembered event, switchMap's current request and
 * the subscriber that renders or logs each value.
 */
module Stream {
  import opened Wrappers
  import opened Query
  import opened Json
  import opened Normalizer
  import opened Stages

  class SearchStream {
    // debounceTime(400): the latest time seen and the event waiting for its timer
    var now: int
    var pending: Option<Event>
    // distinctUntilChanged(): the id of the last event it let through
    var lastKey: Option<nat>
    // switchMap: the number of requests started, whether the latest is unsettled,
    // and the URLs handed to fetch
    var generation: nat
    var inFlight: bool
    var requests: seq<string>
    // the subscriber: each render call's argument and each logged error
    var renders: seq<SearchResult>
    var logs: seq<Cause>

    // every merged DOM event, and what debounce, dedup and the focus filter
    // have let through so far
    ghost var received: seq<Event>
    ghost var emitted: seq<Event>
    ghost var deduped: seq<Event>
    ghost var passed: seq<Event>
    // the generation of every request whose value reached the subscriber
    ghost var delivered: seq<nat>

    /** The debounce stage has emitted exactly what its specification says. */
    ghost predicate Upstream()
      reads this`received, this`pending, this`now, this`emitted
    {
      && (received == [] ==> pending == None && emitted == [])
      && (received != [] ==>
            && now >= Last(received).time
            && (pending.Some? ==> pending.value == Last(received) && emitted == Settled(received))
            && (pending.None? ==> now - Last(received).time >= DebounceMs && emitted == Debounced(received)))
    }

    /** Dedup has let through exactly Distinct of what debounce emitted, and remembers the last. */
    ghost predicate Deduplicated()
      reads this`emitted, this`deduped, this`lastKey
    {
      && deduped == Distinct(emitted)
      && lastKey == (if deduped == [] then None else Some(Last(deduped).id))
    }

    /** The focus filter has let through exactly the non-focus events dedup passed. */
    ghost predicate Filtered()
      reads this`deduped, this`passed
    {
      passed == NonFocus(deduped)
    }

    /**
     * One request per event reaching switchMap, and only the latest
     * request's value ever reached the subscriber, at most once per request.
     */
    ghost predicate Switched()
      reads this`passed, this`requests, this`generation, this`inFlight, this`delivered
    {
      && requests == Requests(passed)
      && generation == |passed| == |requests|
      && (forall k :: 0 <= k < |delivered| ==> 0 < delivered[k] <= generation)
      && (forall k, l :: 0 <= k < l < |delivered| ==> delivered[k] < delivered[l])
      && (inFlight ==> generation > 0 && (delivered == [] || Last(delivered) < generation))
    }

    /** Every delivered value was rendered or logged. */
    ghost predicate Sunk()
      reads this`delivered, this`renders, this`logs
    {
      |delivered| == |renders| + |logs|
    }

    ghost predicate Downstream()
      reads this
    {
      Deduplicated() && Filtered() && Switched() && Sunk()
    }

    ghost predicate Valid()
      reads this
    {
      Upstream() && Downstream()
    }

    /** Whether the pending event's timer has fired by time `t`. */
    ghost predicate Fires(t: int)
      reads this`pending
    {
      pending.Some? && t - pending.value.time >= DebounceMs
    }

    /** Whether event `p`, once emitted by debounce, starts a request. */
    ghost predicate Starts(p: Event)
      reads this`lastKey
    {
      lastKey != Some(p.id) && PassesFilter(p)
    }

    /** Subscribing at time `start`: nothing received, nothing requested, nothing shown. */
    constructor (start: int)
      ensures Valid()
      ensures now == start && pending == None && lastKey == None
      ensures generation == 0 && !inFlight && requests == []
      ensures renders == [] && logs == []
      ensures received == [] && emitted == [] && deduped == [] && passed == [] && delivered == []
    {
      now := start;
      pending := None;
      lastKey := None;
      generation := 0;
      inFlight := false;
      requests := [];
      renders := [];
      logs := [];
      received := [];
      emitted := [];
      deduped := [];
      passed := [];
      delivered := [];
    }

    /**
     * switchMap's projection for event `p`: start a request for the field's
     * value, superseding any earlier one.
     */
    method Dispatch(p: Event)
      requires Switched()
      modifies this`passed, this`generation, this`inFlight, this`requests
      ensures Switched()
      ensures passed == old(passed) + [p]
      ensures generation == old(generation) + 1 && inFlight
      ensures requests == old(requests) + [RequestUrl(p.value)]
    {
      RequestsStep(passed, p);
      passed := passed + [p];
      generation := generation + 1;
      inFlight := true;
      requests := requests + [RequestUrl(p.value)];
    }

    /** `filter(e => e.type !== 'focus')` on an event dedup let through. */
    method Filter(p: Event)
      requires Filtered() && Switched()
      modifies this`deduped, this`passed, this`generation, this`inFlight, this`requests
      ensures Filtered() && Switched()
      ensures deduped == old(deduped) + [p]
      ensures PassesFilter(p) ==> generation == old(generation) + 1 && inFlight
                                  && requests == old(requests) + [RequestUrl(p.value)]
      ensures !PassesFilter(p) ==> generation == old(generation) && inFlight == old(inFlight)
                                   && requests == old(requests) && passed == old(passed)
    {
      NonFocusStep(deduped, p);
      deduped := deduped + [p];
      if PassesFilter(p) {
        Dispatch(p);
      }
    }

    /** `distinctUntilChanged()` on what debounce emits, then the rest of the pipeline. */
    method Emit(p: Event)
      requires Deduplicated() && Filtered() && Switched()
      modifies this`emitted, this`lastKey, this`deduped, this`passed, this`generation, this`inFlight, this`requests
      ensures Deduplicated() && Filtered() && Switched()
      ensures emitted == old(emitted) + [p]
      ensures lastKey == Some(p.id)
      ensures old(Starts(p)) ==> generation == old(generation) + 1 && inFlight
                                 && requests == old(requests) + [RequestUrl(p.value)]
      ensures !old(Starts(p)) ==> generation == old(generation) && inFlight == old(inFlight)
                                  && requests == old(requests)
    {
      DistinctStep(emitted, p);
      emitted := emitted + [p];
      if lastKey != Some(p.id) {
        lastKey := Some(p.id);
        Filter(p);
      }
    }

    /**
     * The debounce timer fires at time `t`: the pending event has been quiet
     * for DebounceMs and is emitted downstream.
     */
    method Fire(t: int)
      requires Valid()
      requires t >= now && pending.Some? && t - pending.value.time >= DebounceMs
      modifies this`now, this`pending, this`emitted, this`lastKey, this`deduped, this`passed,
               this`generation, this`inFlight, this`requests
      ensures Valid()
      ensures now == t && pending == None && emitted == old(emitted) + [old(pending).value]
      ensures lastKey == Some(old(pending).value.id)
      ensures old(Starts(pending.value)) ==>
                generation == old(generation) + 1 && inFlight
                && requests == old(requests) + [RequestUrl(old(pending).value.value)]
      ensures !old(Starts(pending.value)) ==>
                generation == old(generation) && inFlight == old(inFlight) && requests == old(requests)
    {
      var p := pending.value;
      Emit(p);
      pending := None;
      now := t;
    }

    /**
     * Time passes to `t`: if the pending event's timer runs out by then, it
     * fires.
     */
    method Tick(t: int)
      requires Valid()
      requires t >= now
      modifies this
      ensures Valid()
      ensures now == t && received == old(received)
      ensures old(Fires(t)) ==> pending == None && emitted == old(emitted) + [old(pending).value]
                                && lastKey == Some(old(pending).value.id)
      ensures !old(Fires(t)) ==> pending == old(pending) && emitted == old(emitted) && lastKey == old(lastKey)
      ensures old(Fires(t)) && old(Starts(pending.value)) ==>
                generation == old(generation) + 1 && inFlight
                && requests == old(requests) + [RequestUrl(old(pending).value.value)]
      ensures !(old(Fires(t)) && old(Starts(pending.value))) ==>
                generation == old(generation) && inFlight == old(inFlight) && requests == old(requests)
      ensures renders == old(renders) && logs == old(logs) && delivered == old(delivered)
    {
      if pending.Some? && t - pending.value.time >= DebounceMs {
        Fire(t);
      } else {
        now := t;
      }
    }

    /**
     * A merged input, focus or blur event arrives: a timer that has already
     * run out emits first, then the event replaces the pending one.
     */
    method OnEvent(e: Event)
      requires Valid()
      requires e.time >= now
      modifies this
      ensures Valid()
      ensures received == old(received) + [e] && pending == Some(e) && now == e.time
      ensures old(Fires(e.time)) ==> lastKey == Some(old(pending).value.id)
      ensures !old(Fires(e.time)) ==> lastKey == old(lastKey)
      ensures old(Fires(e.time)) && old(Starts(pending.value)) ==>
                generation == old(generation) + 1 && inFlight
                && requests == old(requests) + [RequestUrl(old(pending).value.value)]
      ensures !(old(Fires(e.time)) && old(Starts(pending.value))) ==>
                generation == old(generation) && inFlight == old(inFlight) && requests == old(requests)
      ensures renders == old(renders) && logs == old(logs) && delivered == old(delivered)
    {
      Tick(e.time);
      SettledStep(received, e);
      received := received + [e];
      pending := Some(e);
    }

    /**
     * The subscriber: an Error value is logged and nothing is rendered; a
     * result is rendered once. It is only Settle's delivery step: called on
     * its own it would record a value no request delivered, so Valid() is
     * neither required nor kept here but by Settle.
     */
    method Sink(v: StreamValue)
      modifies this`renders, this`logs
      ensures v.Found? ==> renders == old(renders) + [v.result] && logs == old(logs)
      ensures v.Error? ==> logs == old(logs) + [v.cause] && renders == old(renders)
    {
      match v
      case Found(res) => renders := renders + [res];
      case Error(cause) => logs := logs + [cause];
    }

    /**
     * Request `g`'s inner observable emits `v`, its outcome after the fault
     * boundary. The value reaches the subscriber only if `g` is the latest
     * request and has not emitted before; a superseded request's result or
     * Error is discarded.
     */
    method Settle(g: nat, v: StreamValue)
      requires Valid()
      requires 0 < g <= generation
      modifies this
      ensures Valid()
      ensures g == old(generation) && old(inFlight) ==>
                && !inFlight && delivered == old(delivered) + [g]
                && (v.Found? ==> renders == old(renders) + [v.result] && logs == old(logs))
                && (v.Error? ==> logs == old(logs) + [v.cause] && renders == old(renders))
      ensures !(g == old(generation) && old(inFlight)) ==>
                inFlight == old(inFlight) && delivered == old(delivered)
                && renders == old(renders) && logs == old(logs)
      ensures generation == old(generation) && requests == old(requests)
      ensures now == old(now) && pending == old(pending) && lastKey == old(lastKey)
      ensures received == old(received) && emitted == old(emitted)
    {
      if g == generation && inFlight {
        inFlight := false;
        delivered := delivered + [g];
        Sink(v);
      }
    }
  }

  /**
   * End to end: every URL the object has handed to fetch is, in order, the
   * request of an event the stage specifications dispatch, and once the
   * input is quiet these are exactly the dispatched events of everything
   * received.
   */
  lemma RequestsFollowStages(s: SearchStream)
    requires s.Valid()
    ensures s.pending == None ==> s.requests == Requests(Dispatched(s.received))
    ensures s.pending.Some? ==> s.requests == Requests(NonFocus(Distinct(Settled(s.received))))
  {
  }

  /**
   * Latest wins: once a newer request has started, the older request's
   * success or failure changes nothing the subscriber sees, even when it
   * settles before the newer one.
   */
  method SupersededIsDiscarded(s: SearchStream, e: Event, stale: StreamValue)
    requires s.Valid()
    requires s.generation > 0 && s.pending == None && e.time >= s.now
    requires s.lastKey != Some(e.id) && PassesFilter(e)
    modifies s
    ensures s.Valid()
    ensures s.generation == old(s.generation) + 1 && s.inFlight
    ensures s.requests == old(s.requests) + [RequestUrl(e.value)]
    ensures s.renders == old(s.renders) && s.logs == old(s.logs)
  {
    var older := s.generation;
    s.OnEvent(e);
    s.Tick(e.time + DebounceMs);
    s.Settle(older, stale);
  }

  /**
   * A blur event searches for the field's text, while a focus event just
   * before it only resets the timer.
   */
  method BlurScenario(text: string) returns (requests: seq<string>)
    ensures requests == [RequestUrl(text)]
  {
    var s := new SearchStream(0);
    s.OnEvent(Event(0, Focus, 0, text));
    s.OnEvent(Event(1, Blur, 100, text));
    s.Tick(500);
    requests := s.requests;
  }

  /**
   * When the latest request fails, for instance with an HTTP 500 whose body
   * has no `items`, the Error is logged, nothing is rendered (the earlier
   * rendering stays), and the next event still starts a request.
   */
  method FailureThenRecovery(s: SearchStream, props: map<string, JsValue>, e: Event)
    requires s.Valid()
    requires s.inFlight && s.pending == None && e.time >= s.now
    requires "items" !in props
    requires s.lastKey != Some(e.id) && PassesFilter(e)
    modifies s
    ensures s.Valid()
    ensures s.renders == old(s.renders) && s.logs == old(s.logs) + [TypeError]
    ensures s.requests == old(s.requests) + [RequestUrl(e.value)]
  {
    MissingItemsIsError(500, props);
    s.Settle(s.generation, Resolve(Responded(500, Some(Obj(props)))));
    s.OnEvent(e);
    s.Tick(e.time + DebounceMs);
  }
}
