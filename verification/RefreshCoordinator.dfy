/**
 The dashboard refresh coordinator: runs of a section's load overlap, and each run is cut in two at its
 `await`. Every interleaving of starts and completions is a sequence of events.
 */
module RefreshCoordinator {

  type Capability = string
  type Failure = string

  datatype LoadResult = Ready | Empty(message: string) | Failed(outcome: Failure)

  datatype SectionState =
    | Loading
    | ShownReady
    | ShownEmpty(message: string)
    | ShownFailed(outcome: Failure)
    | ShownStale(outcome: Failure)

  // ---------------------------------------------------------------- the object

  /** `#run` up to its `await`, and from there on; a rejected load arrives as `Failed("network_error")`. */
  class Coordinator {
    var generations: map<Capability, nat>
    var rendered: set<Capability>
    var status: map<Capability, SectionState>

    constructor ()
      ensures View() == View0(map[], {}, map[])
    {
      generations, rendered, status := map[], {}, map[];
    }

    ghost function View(): View
      reads this
    {
      View0(generations, rendered, status)
    }

    method Begin(capability: Capability) returns (generation: nat)
      modifies this
      ensures View() == Started(old(View()), capability)
      ensures generation == NextGeneration(old(View()), capability)
    {
      generation := (if capability in generations then generations[capability] else 0) + 1;
      generations := generations[capability := generation];
      status := status[capability := Loading];
    }

    method Settle(capability: Capability, generation: nat, result: LoadResult, renderThrows: bool)
      returns (thrown: bool)
      modifies this
      ensures View() == Settled(old(View()), capability, generation, result, renderThrows)
      ensures thrown ==> renderThrows && View() == old(View())
    {
      if !(capability in generations && generations[capability] == generation) {
        return false;
      }
      if result.Failed? {
        var shown := if capability in rendered then ShownStale(result.outcome) else ShownFailed(result.outcome);
        status := status[capability := shown];
        return false;
      }
      if renderThrows {
        return true;
      }
      rendered := rendered + {capability};
      status := status[capability := if result.Empty? then ShownEmpty(result.message) else ShownReady];
      return false;
    }
  }

  datatype View = View0(
    generations: map<Capability, nat>, rendered: set<Capability>, status: map<Capability, SectionState>)

  function NextGeneration(v: View, c: Capability): nat
  {
    (if c in v.generations then v.generations[c] else 0) + 1
  }

  function Started(v: View, c: Capability): View
  {
    v.(generations := v.generations[c := NextGeneration(v, c)], status := v.status[c := Loading])
  }

  /** The newest run of its section is the only one whose result is looked at. */
  predicate Current(v: View, c: Capability, generation: nat)
  {
    c in v.generations && v.generations[c] == generation
  }

  function Settled(v: View, c: Capability, generation: nat, result: LoadResult, renderThrows: bool): View
  {
    if !Current(v, c, generation) then v
    else match result
      case Failed(outcome) =>
        v.(status := v.status[c := if c in v.rendered then ShownStale(outcome) else ShownFailed(outcome)])
      case Ready => if renderThrows then v else v.(rendered := v.rendered + {c}, status := v.status[c := ShownReady])
      case Empty(message) =>
        if renderThrows then v
        else v.(rendered := v.rendered + {c}, status := v.status[c := ShownEmpty(message)])
  }

  // ---------------------------------------------------------------- interleavings

  datatype Event =
    | Start(capability: Capability)
    | Settle(capability: Capability, generation: nat, result: LoadResult, renderThrows: bool)

  function After(events: seq<Event>): View
  {
    if events == [] then View0(map[], {}, map[]) else
      var v, e := After(events[..|events| - 1]), events[|events| - 1];
      match e
      case Start(c) => Started(v, c)
      case Settle(c, g, result, throws) => Settled(v, c, g, result, throws)
  }

  function Starts(events: seq<Event>, c: Capability): nat
  {
    if events == [] then 0
    else Starts(events[..|events| - 1], c) + if events[|events| - 1] == Start(c) then 1 else 0
  }

  ghost predicate SettlesAt(events: seq<Event>, i: nat, c: Capability, g: nat)
  {
    i < |events| && events[i].Settle? && events[i].capability == c && events[i].generation == g
  }

  /** A possible interleaving: a run settles after it started, and once. */
  ghost predicate Interleaving(events: seq<Event>)
  {
    && (forall i :: 0 <= i < |events| && events[i].Settle? ==>
          1 <= events[i].generation <= Starts(events[..i], events[i].capability))
    && (forall i, j, c, g :: SettlesAt(events, i, c, g) && SettlesAt(events, j, c, g) ==> i == j)
  }

  /** Event `i` put the result of a run on display (or its render did not throw, at least). */
  ghost predicate Applied(events: seq<Event>, i: nat)
  {
    && i < |events| && events[i].Settle?
    && Current(After(events[..i]), events[i].capability, events[i].generation)
    && (events[i].result.Failed? || !events[i].renderThrows)
  }

  /** Event `i` rendered section `c`. */
  ghost predicate RenderedAt(events: seq<Event>, i: nat, c: Capability)
  {
    Applied(events, i) && events[i].capability == c && !events[i].result.Failed?
  }

  lemma {:induction false} GenerationsCountStarts(events: seq<Event>, c: Capability)
    ensures var v := After(events);
      (c in v.generations <==> Starts(events, c) > 0) && (c in v.generations ==> v.generations[c] == Starts(events, c))
  {
    if events != [] {
      GenerationsCountStarts(events[..|events| - 1], c);
    }
  }

  lemma {:induction false} StartsGrow(events: seq<Event>, i: nat, j: nat, c: Capability)
    requires i <= j <= |events|
    ensures Starts(events[..i], c) <= Starts(events[..j], c)
    ensures (exists k :: i <= k < j && events[k] == Start(c)) ==> Starts(events[..i], c) < Starts(events[..j], c)
    decreases j - i
  {
    if i < j {
      StartsGrow(events, i, j - 1, c);
      assert events[..j][..j - 1] == events[..j - 1];
      if exists k :: i <= k < j && events[k] == Start(c) {
        var k :| i <= k < j && events[k] == Start(c);
        assert events[..j][j - 1] == events[j - 1];
      }
    }
  }

  /** Applied generations of a section strictly increase. */
  lemma AppliedGenerationsIncrease(events: seq<Event>, i: nat, j: nat)
    requires Interleaving(events) && i < j && Applied(events, i) && Applied(events, j)
    requires events[i].capability == events[j].capability
    ensures events[i].generation < events[j].generation
  {
    var c := events[i].capability;
    GenerationsCountStarts(events[..i], c);
    GenerationsCountStarts(events[..j], c);
    StartsGrow(events, i, j, c);
    if events[i].generation == events[j].generation {
      assert SettlesAt(events, i, c, events[i].generation) && SettlesAt(events, j, c, events[i].generation);
    }
  }

  /** Once a newer run of the section has started, no older run's result is applied any more. */
  lemma NoStaleResult(events: seq<Event>, started: nat, j: nat)
    requires Interleaving(events) && started < j < |events| && events[started].Start?
    requires events[j].Settle? && events[j].capability == events[started].capability
    requires events[j].generation <= Starts(events[..started], events[j].capability)
    ensures After(events[..j + 1]) == After(events[..j]) && !Applied(events, j)
  {
    var c := events[j].capability;
    StartsGrow(events, started, j, c);
    GenerationsCountStarts(events[..j], c);
    assert events[..j + 1][..j] == events[..j] && events[..j + 1][j] == events[j];
  }

  // ---------------------------------------------------------------- the display when nothing is outstanding

  ghost predicate WasRendered(events: seq<Event>, n: nat, c: Capability)
  {
    exists i :: 0 <= i < n && RenderedAt(events, i, c)
  }

  lemma {:induction false} RenderedMeansRendered(events: seq<Event>, n: nat, c: Capability)
    requires n <= |events|
    ensures c in After(events[..n]).rendered <==> WasRendered(events, n, c)
  {
    if n > 0 {
      RenderedMeansRendered(events, n - 1, c);
      assert events[..n][..n - 1] == events[..n - 1] && events[..n][n - 1] == events[n - 1];
      if WasRendered(events, n - 1, c) {
        var i :| 0 <= i < n - 1 && RenderedAt(events, i, c);
        assert WasRendered(events, n, c);
      }
      if RenderedAt(events, n - 1, c) {
        assert WasRendered(events, n, c);
      }
      if WasRendered(events, n, c) && !WasRendered(events, n - 1, c) {
        var i :| 0 <= i < n && RenderedAt(events, i, c);
        assert i == n - 1;
      }
    }
  }

  /** What the newest run's result looks like on display. */
  ghost function Shown(result: LoadResult, renderedBefore: bool): SectionState
  {
    match result
    case Ready => ShownReady
    case Empty(message) => ShownEmpty(message)
    case Failed(outcome) => if renderedBefore then ShownStale(outcome) else ShownFailed(outcome)
  }

  /** Neither a start elsewhere nor the settling of an older run changes what a section shows. */
  lemma UnaffectedDisplay(events: seq<Event>, c: Capability)
    requires events != [] && events[|events| - 1] != Start(c)
    requires events[|events| - 1].Settle? && events[|events| - 1].capability == c ==>
      events[|events| - 1].generation != Starts(events, c)
    ensures var v, w := After(events[..|events| - 1]), After(events);
      c in v.status ==> c in w.status && w.status[c] == v.status[c]
  {
    GenerationsCountStarts(events[..|events| - 1], c);
  }

  lemma SettlingShows(events: seq<Event>, c: Capability, i: nat)
    requires i < |events| && SettlesAt(events, i, c, Starts(events[..i + 1], c)) && Starts(events[..i], c) > 0
    requires events[i].result.Failed? || !events[i].renderThrows
    ensures var v := After(events[..i + 1]);
      c in v.status && v.status[c] == Shown(events[i].result, WasRendered(events, i, c))
  {
    assert events[..i + 1][..i] == events[..i] && events[..i + 1][i] == events[i];
    GenerationsCountStarts(events[..i], c);
    RenderedMeansRendered(events, i, c);
  }

  /** From the settling of the newest run on, the display of its section does not change. */
  lemma {:induction false} DisplayStays(events: seq<Event>, c: Capability, i: nat, n: nat)
    requires Interleaving(events) && i < n <= |events|
    requires SettlesAt(events, i, c, Starts(events[..n], c))
    requires events[i].result.Failed? || !events[i].renderThrows
    ensures var v := After(events[..n]);
      c in v.status && v.status[c] == Shown(events[i].result, WasRendered(events, i, c))
    decreases n
  {
    hide After, Shown, WasRendered;
    var some := events[..n];
    assert some[..n - 1] == events[..n - 1] && some[n - 1] == events[n - 1];
    StartsGrow(events, i, n - 1, c);
    assert 1 <= events[i].generation <= Starts(events[..i], c);
    assert events[n - 1] != Start(c);
    if i == n - 1 {
      SettlingShows(events, c, i);
    } else {
      DisplayStays(events, c, i, n - 1);
      assert !SettlesAt(events, n - 1, c, Starts(some, c));
      UnaffectedDisplay(some, c);
    }
  }

  /**
   When the newest run of a section has settled, and its render did not throw, the section shows that
   run's outcome: `stale` exactly for a failure after an earlier render, `failed` for one without.
   */
  lemma NewestOutcomeIsShown(events: seq<Event>, c: Capability, i: nat)
    requires Interleaving(events) && SettlesAt(events, i, c, Starts(events, c))
    requires events[i].result.Failed? || !events[i].renderThrows
    ensures c in After(events).status
    ensures After(events).status[c] == Shown(events[i].result, WasRendered(events, i, c))
    ensures After(events).status[c].ShownStale? ==> WasRendered(events, i, c)
    ensures After(events).status[c].ShownFailed? ==> !WasRendered(events, |events|, c)
  {
    assert events[..|events|] == events;
    DisplayStays(events, c, i, |events|);
    if After(events).status[c].ShownFailed? && WasRendered(events, |events|, c) {
      var j :| 0 <= j < |events| && RenderedAt(events, j, c);
      if j < i {
        assert WasRendered(events, i, c);
      } else {
        GenerationsCountStarts(events[..i], c);
        StartsGrow(events, i, |events|, c);
        StartsGrow(events, j, |events|, c);
        GenerationsCountStarts(events[..j], c);
        StartsGrow(events, i, j, c);
        assert SettlesAt(events, j, c, Starts(events, c));
      }
    }
  }

  /** Until the newest run settles, and also when its render throws, the section stays on its loading placeholder. */
  lemma {:induction false} OtherwiseLoading(events: seq<Event>, c: Capability)
    requires Starts(events, c) > 0
    requires forall i: nat :: SettlesAt(events, i, c, Starts(events, c)) ==>
      events[i].renderThrows && !events[i].result.Failed?
    ensures c in After(events).status && After(events).status[c] == Loading
  {
    var front, last := events[..|events| - 1], events[|events| - 1];
    if last != Start(c) {
      GenerationsCountStarts(front, c);
      forall i: nat | SettlesAt(front, i, c, Starts(front, c))
        ensures front[i].renderThrows && !front[i].result.Failed?
      {
        assert front[i] == events[i] && SettlesAt(events, i, c, Starts(events, c));
      }
      OtherwiseLoading(front, c);
      if last.Settle? && last.capability == c && last.generation == Starts(events, c) {
        assert SettlesAt(events, |events| - 1, c, Starts(events, c));
      }
    }
  }

  /** A run of one section leaves every other section alone. */
  lemma SectionsAreIndependent(v: View, e: Event, other: Capability)
    requires e.capability != other
    ensures var w := match e { case Start(c) => Started(v, c) case Settle(c, g, r, t) => Settled(v, c, g, r, t) };
      && (other in w.status <==> other in v.status) && (other in v.status ==> w.status[other] == v.status[other])
      && (other in w.rendered <==> other in v.rendered)
      && forall g :: Current(w, other, g) <==> Current(v, other, g)
  {
  }
}
