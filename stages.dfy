/**
 * The stages between the merged DOM events and the request dispatcher in
 * src/index.ts, stated over finite sequences of timestamped events:
 * `debounceTime(400)`, `distinctUntilChanged()` and the focus filter.
 */
module Stages {
  import Query

  /** The quiet period of `debounceTime`, in milliseconds. */
  const DebounceMs: int := 400

  /** Which DOM listener produced an event: `input`, `focus` or `blur`. */
  datatype EventKind = Input | Focus | Blur

  /**
   * One DOM event object. `id` is its identity (every dispatched DOM event
   * is a new object), `time` its arrival in milliseconds, and `value` the
   * text field's content when it fired.
   */
  datatype Event = Event(id: nat, kind: EventKind, time: int, value: string)

  function Last<T>(xs: seq<T>): T
    requires xs != []
  {
    xs[|xs| - 1]
  }

  /** Every event is a distinct object. */
  predicate UniqueIds(es: seq<Event>) {
    forall i, j :: 0 <= i < j < |es| ==> es[i].id != es[j].id
  }

  /**
   * The events debounceTime has emitted by the time the last event of `es`
   * arrives: each earlier event whose successor came at least DebounceMs
   * later (its timer fired before it could be replaced).
   */
  function Settled(es: seq<Event>): seq<Event>
    decreases |es|
  {
    if |es| <= 1 then []
    else
      var n := |es|;
      Settled(es[..n - 1]) + (if es[n - 1].time - es[n - 2].time >= DebounceMs then [es[n - 2]] else [])
  }

  /**
   * Everything debounceTime emits from `es` once the input falls quiet:
   * the settled events and then the last one.
   */
  function Debounced(es: seq<Event>): seq<Event> {
    if es == [] then [] else Settled(es) + [Last(es)]
  }

  /**
   * `distinctUntilChanged()` with no comparator: an event is dropped when it
   * is `===` to the last one it let through, which for event objects means
   * the same object, i.e. the same id.
   */
  function Distinct(xs: seq<Event>): seq<Event>
    decreases |xs|
  {
    if xs == [] then []
    else
      var d := Distinct(xs[..|xs| - 1]);
      if d != [] && Last(d).id == Last(xs).id then d else d + [Last(xs)]
  }

  /** `filter(e => e.type !== 'focus')`. */
  predicate PassesFilter(e: Event) {
    e.kind != Focus
  }

  /** The filter applied to a sequence, keeping order. */
  function NonFocus(xs: seq<Event>): seq<Event>
    decreases |xs|
  {
    if xs == [] then []
    else NonFocus(xs[..|xs| - 1]) + (if PassesFilter(Last(xs)) then [Last(xs)] else [])
  }

  /** The events that reach switchMap, each of which starts a request. */
  function Dispatched(es: seq<Event>): seq<Event> {
    NonFocus(Distinct(Debounced(es)))
  }

  /** The URLs fetched for the events reaching switchMap, in order. */
  function Requests(xs: seq<Event>): seq<string>
    decreases |xs|
  {
    if xs == [] then [] else Requests(xs[..|xs| - 1]) + [Query.RequestUrl(Last(xs).value)]
  }

  /** One request per event reaching switchMap, each for that event's value, in order. */
  lemma {:induction false} RequestsAt(xs: seq<Event>)
    ensures |Requests(xs)| == |xs|
    ensures forall i :: 0 <= i < |xs| ==> Requests(xs)[i] == Query.RequestUrl(xs[i].value)
  {
    if xs != [] {
      RequestsAt(xs[..|xs| - 1]);
    }
  }

  /**
   * A new event settles the one before it exactly when it arrives at least
   * DebounceMs later.
   */
  lemma SettledStep(es: seq<Event>, e: Event)
    ensures Settled(es + [e]) ==
              Settled(es) + (if es != [] && e.time - Last(es).time >= DebounceMs then [Last(es)] else [])
  {
    assert (es + [e])[..|es|] == es;
  }

  /** Every settled event is one of the events before the last. */
  lemma {:induction false} SettledFromPrefix(es: seq<Event>)
    requires es != []
    ensures forall x :: x in Settled(es) ==> x in es[..|es| - 1]
  {
    var n := |es|;
    if n > 1 {
      SettledFromPrefix(es[..n - 1]);
      assert es[..n - 1][..n - 2] == es[..n - 2];
      forall x | x in Settled(es) ensures x in es[..n - 1] {
        if x in Settled(es[..n - 1]) {
          assert x in es[..n - 2];
        } else {
          assert x == es[n - 2];
        }
      }
    }
  }

  /** The newest event is never among those debounce has released while its timer runs. */
  lemma NewestNotSettled(es: seq<Event>)
    requires UniqueIds(es)
    requires es != []
    ensures Last(es) !in Settled(es)
  {
    SettledFromPrefix(es);
    var earlier := es[..|es| - 1];
    forall k | 0 <= k < |earlier|
      ensures earlier[k] != Last(es)
    {
      assert earlier[k].id == es[k].id;
    }
  }

  /**
   * Debounce, per event: an event is emitted exactly when it is the last
   * one, or the next event arrives at least DebounceMs after it.
   */
  lemma {:induction false} DebouncedIff(es: seq<Event>, i: nat)
    requires UniqueIds(es)
    requires i < |es|
    ensures es[i] in Debounced(es) <==> i == |es| - 1 || es[i + 1].time - es[i].time >= DebounceMs
  {
    SettledIff(es, i);
    if i < |es| - 1 {
      assert es[i].id != Last(es).id;
    }
  }

  /** The same, for the events already emitted when the last one arrives. */
  lemma {:induction false} SettledIff(es: seq<Event>, i: nat)
    requires UniqueIds(es)
    requires i < |es|
    ensures es[i] in Settled(es) <==> i < |es| - 1 && es[i + 1].time - es[i].time >= DebounceMs
  {
    var n := |es|;
    if n > 1 {
      var init := es[..n - 1];
      var tail := if es[n - 1].time - es[n - 2].time >= DebounceMs then [es[n - 2]] else [];
      assert Settled(es) == Settled(init) + tail;
      if i == n - 1 {
        SettledFromPrefix(init);
        assert es[i].id != es[n - 2].id;
      } else if i == n - 2 {
        SettledIff(init, i);
      } else {
        SettledIff(init, i);
        assert es[i].id != es[n - 2].id;
      }
    }
  }

  /** Within a burst whose gaps are all under DebounceMs, only the last event passes. */
  lemma {:induction false} BurstKeepsLast(es: seq<Event>)
    requires es != []
    requires forall i :: 0 < i < |es| ==> es[i].time - es[i - 1].time < DebounceMs
    ensures Debounced(es) == [Last(es)]
  {
    SettledOfBurst(es);
  }

  lemma {:induction false} SettledOfBurst(es: seq<Event>)
    requires forall i :: 0 < i < |es| ==> es[i].time - es[i - 1].time < DebounceMs
    ensures Settled(es) == []
  {
    if |es| > 1 {
      SettledOfBurst(es[..|es| - 1]);
    }
  }

  /** Settled events keep their order, so they are distinct objects too. */
  lemma {:induction false} SettledUnique(es: seq<Event>)
    requires UniqueIds(es)
    ensures UniqueIds(Settled(es))
  {
    var n := |es|;
    if n > 1 {
      var init := es[..n - 1];
      SettledUnique(init);
      SettledFromPrefix(init);
      var s := Settled(init);
      var tail := if es[n - 1].time - es[n - 2].time >= DebounceMs then [es[n - 2]] else [];
      forall k | 0 <= k < |s| ensures s[k].id != es[n - 2].id {
        assert s[k] in s;
        assert s[k] in init[..n - 2];
        var j :| 0 <= j < n - 2 && init[..n - 2][j] == s[k];
        assert es[j] == s[k];
      }
      assert Settled(es) == s + tail;
    }
  }

  /** What debounce emits consists of distinct objects when its input does. */
  lemma DebouncedUnique(es: seq<Event>)
    requires UniqueIds(es)
    ensures UniqueIds(Debounced(es))
  {
    if es != [] {
      SettledUnique(es);
      SettledFromPrefix(es);
      var s := Settled(es);
      forall k | 0 <= k < |s| ensures s[k].id != Last(es).id {
        assert s[k] in s;
        assert s[k] in es[..|es| - 1];
        var j :| 0 <= j < |es| - 1 && es[..|es| - 1][j] == s[k];
        assert es[j] == s[k];
      }
    }
  }

  /** distinctUntilChanged drops nothing from a sequence without two equal neighbours. */
  lemma {:induction false} DistinctKeepsAll(xs: seq<Event>)
    requires forall i :: 0 < i < |xs| ==> xs[i - 1].id != xs[i].id
    ensures Distinct(xs) == xs
  {
    if xs != [] {
      var init := xs[..|xs| - 1];
      DistinctKeepsAll(init);
      assert xs == init + [Last(xs)];
    }
  }

  /**
   * Because dedup compares event objects, and debounce emits each object at
   * most once, `distinctUntilChanged()` never suppresses anything here, even
   * two consecutive events with the same kind and text.
   */
  lemma DistinctNoopAfterDebounce(es: seq<Event>)
    requires UniqueIds(es)
    ensures Distinct(Debounced(es)) == Debounced(es)
  {
    DebouncedUnique(es);
    DistinctKeepsAll(Debounced(es));
  }

  /** Dedup drops an emission exactly when it is the object let through last. */
  lemma DistinctStep(xs: seq<Event>, x: Event)
    ensures Distinct(xs + [x]) ==
              if Distinct(xs) != [] && Last(Distinct(xs)).id == x.id then Distinct(xs) else Distinct(xs) + [x]
  {
    assert (xs + [x])[..|xs|] == xs;
  }

  /** Appending an event extends the filtered sequence by it exactly when it is not a focus event. */
  lemma NonFocusStep(xs: seq<Event>, x: Event)
    ensures NonFocus(xs + [x]) == NonFocus(xs) + (if PassesFilter(x) then [x] else [])
  {
    assert (xs + [x])[..|xs|] == xs;
  }

  /** Appending an event that reaches switchMap appends its URL to the requests. */
  lemma RequestsStep(xs: seq<Event>, x: Event)
    ensures Requests(xs + [x]) == Requests(xs) + [Query.RequestUrl(x.value)]
  {
    assert (xs + [x])[..|xs|] == xs;
  }

  /** The filter keeps exactly the non-focus events, for any text value. */
  lemma {:induction false} NonFocusIff(xs: seq<Event>, x: Event)
    ensures x in NonFocus(xs) <==> x in xs && PassesFilter(x)
  {
    if xs != [] {
      var init := xs[..|xs| - 1];
      NonFocusIff(init, x);
      assert xs == init + [Last(xs)];
    }
  }

  /**
   * End to end, per event: an event starts a request exactly when it is not
   * a focus event and debounce lets it through. A blur event therefore
   * searches for the field's text; a focus event never does.
   */
  lemma DispatchedIff(es: seq<Event>, i: nat)
    requires UniqueIds(es)
    requires i < |es|
    ensures es[i] in Dispatched(es) <==>
              es[i].kind != Focus && (i == |es| - 1 || es[i + 1].time - es[i].time >= DebounceMs)
  {
    DistinctNoopAfterDebounce(es);
    NonFocusIff(Debounced(es), es[i]);
    DebouncedIff(es, i);
  }

  /** Typing "abc" then "abcd" 100 ms later requests only "abcd". */
  lemma TypingBurstScenario()
    ensures Requests(Dispatched([Event(0, Input, 0, "abc"), Event(1, Input, 100, "abcd")]))
            == [Query.RequestUrl("abcd")]
  {
    var es := [Event(0, Input, 0, "abc"), Event(1, Input, 100, "abcd")];
    BurstKeepsLast(es);
    RequestsAt([es[1]]);
    DistinctKeepsAll(Debounced(es));
    assert NonFocus([es[1]]) == [es[1]] by {
      assert [es[1]][..0] == [];
    }
  }
}
