/** Windowed and concurrent admission of administrative requests. */
module RequestAdmission {
  import opened Basics

  datatype Limits = Limits(windowMs: int, maximumRequests: int, maximumConcurrent: int)
  {
    predicate Valid() {
      windowMs >= 1 && maximumRequests >= 1 && maximumConcurrent >= 1
    }
  }

  datatype State = State(windowStartedAt: Option<int>, admittedInWindow: nat, active: nat)

  const IDLE := State(None, 0, 0)

  /** `tryAdmit`; `now` is absent when the clock does not give a finite time. */
  function TryAdmit(l: Limits, s: State, now: Option<int>): (r: (State, bool))
    ensures r.1 ==> r.0.active == s.active + 1 <= l.maximumConcurrent && now.Some?
    ensures !r.1 ==> r.0.active == s.active
  {
    if s.active >= l.maximumConcurrent || now.None? then (s, false)
    else
      var opens := s.windowStartedAt.None? || now.value - s.windowStartedAt.value >= l.windowMs;
      var t := if opens then State(now, 0, s.active) else s;
      if t.admittedInWindow >= l.maximumRequests then (t, false)
      else (t.(admittedInWindow := t.admittedInWindow + 1, active := t.active + 1), true)
  }

  // ---------------------------------------------------------------- the object and its release closures

  /** The closure handed out with an admission. */
  class Release {
    var released: bool

    constructor ()
      ensures !released
    {
      released := false;
    }
  }

  class Admission {
    const limits: Limits
    var windowStartedAt: Option<int>
    var admittedInWindow: nat
    var active: nat
    /** Every closure ever handed out, and those not yet called. */
    ghost var issued: set<Release>
    ghost var unreleased: set<Release>

    ghost predicate Valid()
      reads this, issued
    {
      && limits.Valid()
      && active == |unreleased| <= limits.maximumConcurrent
      && unreleased <= issued
      && forall h :: h in issued ==> (h in unreleased <==> !h.released)
    }

    ghost function Now(): State
      reads this
    {
      State(windowStartedAt, admittedInWindow, active)
    }

    constructor (limits: Limits)
      requires limits.Valid()
      ensures Valid() && Now() == IDLE && unreleased == issued == {} && this.limits == limits
    {
      this.limits := limits;
      windowStartedAt, admittedInWindow, active, issued, unreleased := None, 0, 0, {}, {};
    }

    method Admit(now: Option<int>) returns (h: Release?)
      requires Valid()
      modifies this
      ensures Valid()
      ensures Now() == TryAdmit(limits, old(Now()), now).0
      ensures h != null <==> TryAdmit(limits, old(Now()), now).1
      ensures unreleased == if h == null then old(unreleased) else old(unreleased) + {h}
      ensures h != null ==> fresh(h)
      ensures issued == if h == null then old(issued) else old(issued) + {h}
    {
      if active >= limits.maximumConcurrent {
        return null;
      }
      if now.None? {
        return null;
      }
      if windowStartedAt.None? || now.value - windowStartedAt.value >= limits.windowMs {
        windowStartedAt := now;
        admittedInWindow := 0;
      }
      if admittedInWindow >= limits.maximumRequests {
        return null;
      }
      admittedInWindow := admittedInWindow + 1;
      active := active + 1;
      h := new Release();
      issued, unreleased := issued + {h}, unreleased + {h};
    }

    /** Calling a closure: the first call gives the slot back, every later call changes nothing. */
    method Free(h: Release)
      requires Valid() && h in issued
      modifies this, h
      ensures Valid() && h.released && issued == old(issued)
      ensures unreleased == old(unreleased) - {h}
      ensures Now() == old(Now()).(active := old(active) - if old(h.released) then 0 else 1)
      ensures old(h.released) ==> Now() == old(Now()) && unreleased == old(unreleased)
    {
      if h.released {
        return;
      }
      h.released := true;
      active := active - 1;
      unreleased := unreleased - {h};
    }
  }

  // ---------------------------------------------------------------- runs

  /** A request seen at a time, or the release of one outstanding admission. */
  datatype Event = Request(now: Option<int>) | Finish

  ghost function After(l: Limits, events: seq<Event>): State
  {
    if events == [] then IDLE else
      var s, e := After(l, events[..|events| - 1]), events[|events| - 1];
      match e
      case Request(now) => TryAdmit(l, s, now).0
      case Finish => if s.active > 0 then s.(active := s.active - 1) else s
  }

  /** The times at which requests were admitted, in order. */
  ghost function Admitted(l: Limits, events: seq<Event>): seq<int>
  {
    if events == [] then [] else
      var front, e := events[..|events| - 1], events[|events| - 1];
      Admitted(l, front) + if e.Request? && TryAdmit(l, After(l, front), e.now).1 then [e.now.value] else []
  }

  predicate Seen(e: Event)
  {
    e.Request? && e.now.Some?
  }

  /** The clock never goes back. */
  ghost predicate Monotone(events: seq<Event>)
  {
    forall i, j :: 0 <= i < j < |events| && Seen(events[i]) && Seen(events[j]) ==>
      events[i].now.value <= events[j].now.value
  }

  /** Number of times in the span of `width` that starts at `from`. */
  function InSpan(times: seq<int>, from: int, width: int): nat
  {
    if times == [] then 0
    else InSpan(times[..|times| - 1], from, width) + if from <= times[|times| - 1] < from + width then 1 else 0
  }

  // ---------------------------------------------------------------- windows

  ghost function Extend(ws: seq<seq<int>>, opens: bool, now: int): seq<seq<int>>
  {
    if opens || ws == [] then ws + [[now]] else ws[..|ws| - 1] + [ws[|ws| - 1] + [now]]
  }

  /** The admissions grouped by the window they were counted in. */
  ghost function Windows(l: Limits, events: seq<Event>): seq<seq<int>>
  {
    if events == [] then [] else
      var front, e := events[..|events| - 1], events[|events| - 1];
      var s := After(l, front);
      if e.Request? && TryAdmit(l, s, e.now).1
      then Extend(Windows(l, front), TryAdmit(l, s, e.now).0.admittedInWindow == 1, e.now.value)
      else Windows(l, front)
  }

  ghost predicate Window(l: Limits, w: seq<int>)
  {
    w != [] && |w| <= l.maximumRequests && forall i :: 0 <= i < |w| ==> w[0] <= w[i] < w[0] + l.windowMs
  }

  /** Windows are opened by their first admission, at least a window's length apart, and never overfull. */
  ghost predicate Spaced(l: Limits, ws: seq<seq<int>>)
  {
    && (forall k :: 0 <= k < |ws| ==> Window(l, ws[k]))
    && (forall k :: 0 < k < |ws| ==> ws[k - 1][0] + l.windowMs <= ws[k][0])
  }

  ghost function InSpanOfAll(ws: seq<seq<int>>, from: int, width: int): nat
  {
    if ws == [] then 0
    else InSpanOfAll(ws[..|ws| - 1], from, width) + InSpan(ws[|ws| - 1], from, width)
  }

  lemma {:induction false} InSpanBounds(times: seq<int>, from: int, width: int)
    ensures InSpan(times, from, width) <= |times|
    ensures times != [] && times[0] < from ==> InSpan(times, from, width) <= |times| - 1
    ensures (forall i :: 0 <= i < |times| ==> times[i] < from) ==> InSpan(times, from, width) == 0
    ensures (forall i :: 0 <= i < |times| ==> times[i] >= from + width) ==> InSpan(times, from, width) == 0
  {
    if times != [] {
      var front := times[..|times| - 1];
      InSpanBounds(front, from, width);
      assert forall i :: 0 <= i < |front| ==> front[i] == times[i];
    }
  }

  lemma {:induction false} OldWindowsAreOut(l: Limits, ws: seq<seq<int>>, from: int)
    requires l.Valid() && Spaced(l, ws) && (ws != [] ==> ws[|ws| - 1][0] + l.windowMs <= from)
    ensures InSpanOfAll(ws, from, l.windowMs) == 0
  {
    if ws != [] {
      var last := ws[|ws| - 1];
      assert Window(l, last);
      InSpanBounds(last, from, l.windowMs);
      OldWindowsAreOut(l, ws[..|ws| - 1], from);
    }
  }

  /** The most admissions a span of one window's length can hold: within a single tick only one window counts. */
  function Bound(l: Limits): int
  {
    if l.windowMs == 1 then l.maximumRequests else 2 * l.maximumRequests - 1
  }

  /** A span of one window's length sees at most two windows, and of the older one never its first admission. */
  lemma {:induction false} SpanSeesTwoWindows(l: Limits, ws: seq<seq<int>>, from: int)
    requires l.Valid() && Spaced(l, ws)
    ensures InSpanOfAll(ws, from, l.windowMs) <= Bound(l)
  {
    if ws != [] {
      var front, last := ws[..|ws| - 1], ws[|ws| - 1];
      InSpanBounds(last, from, l.windowMs);
      if last[0] >= from + l.windowMs {
        SpanSeesTwoWindows(l, front, from);
      } else if front != [] {
        var previous := front[|front| - 1];
        assert previous == ws[|ws| - 2] && Window(l, previous);
        InSpanBounds(previous, from, l.windowMs);
        OldWindowsAreOut(l, front[..|front| - 1], from);
      }
    }
  }

  lemma {:induction false} InSpanSnoc(times: seq<int>, t: int, from: int, width: int)
    ensures InSpan(times + [t], from, width) == InSpan(times, from, width) + if from <= t < from + width then 1 else 0
  {
    assert (times + [t])[..|times|] == times;
  }

  lemma InSpanOfAllSnoc(ws: seq<seq<int>>, w: seq<int>, from: int, width: int)
    ensures InSpanOfAll(ws + [w], from, width) == InSpanOfAll(ws, from, width) + InSpan(w, from, width)
  {
    assert (ws + [w])[..|ws|] == ws;
  }

  ghost predicate Tracks(l: Limits, s: State, ws: seq<seq<int>>, latest: Option<int>)
  {
    && Spaced(l, ws)
    && if ws == [] then s.windowStartedAt.None? && s.admittedInWindow == 0
       else s.windowStartedAt == Some(ws[|ws| - 1][0]) && s.admittedInWindow == |ws[|ws| - 1]|
            && latest.Some? && ws[|ws| - 1][0] <= latest.value
  }

  ghost function Latest(events: seq<Event>): Option<int>
  {
    if events == [] then None
    else if events[|events| - 1].Request? && events[|events| - 1].now.Some? then events[|events| - 1].now
    else Latest(events[..|events| - 1])
  }

  lemma {:induction false} LatestIsBehind(events: seq<Event>, j: nat)
    requires Monotone(events) && j < |events| && events[j].Request? && events[j].now.Some?
    ensures Latest(events[..j]).Some? ==> Latest(events[..j]).value <= events[j].now.value
  {
    LatestOccurs(events[..j]);
  }

  lemma {:induction false} LatestOccurs(events: seq<Event>)
    ensures Latest(events).Some? ==>
      exists i :: 0 <= i < |events| && events[i].Request? && events[i].now == Latest(events)
  {
    if events != [] && !(events[|events| - 1].Request? && events[|events| - 1].now.Some?) {
      var front := events[..|events| - 1];
      LatestOccurs(front);
      if Latest(front).Some? {
        var i :| 0 <= i < |front| && front[i].Request? && front[i].now == Latest(front);
        assert events[i] == front[i];
      }
    }
  }

  lemma ExtendCounts(ws: seq<seq<int>>, opens: bool, now: int, from: int, width: int)
    ensures InSpanOfAll(Extend(ws, opens, now), from, width)
      == InSpanOfAll(ws, from, width) + if from <= now < from + width then 1 else 0
  {
    if opens || ws == [] {
      InSpanOfAllSnoc(ws, [now], from, width);
      InSpanSnoc([], now, from, width);
      assert [] + [now] == [now];
    } else {
      var front, last := ws[..|ws| - 1], ws[|ws| - 1];
      assert ws == front + [last];
      InSpanOfAllSnoc(front, last, from, width);
      InSpanOfAllSnoc(front, last + [now], from, width);
      InSpanSnoc(last, now, from, width);
    }
  }

  lemma OpeningKeepsSpacing(l: Limits, ws: seq<seq<int>>, now: int)
    requires l.Valid() && Spaced(l, ws) && (ws != [] ==> ws[|ws| - 1][0] + l.windowMs <= now)
    ensures Spaced(l, Extend(ws, true, now))
  {
    var next := Extend(ws, true, now);
    assert forall k :: 0 <= k < |ws| ==> next[k] == ws[k];
  }

  lemma JoiningKeepsSpacing(l: Limits, ws: seq<seq<int>>, now: int)
    requires l.Valid() && Spaced(l, ws) && ws != []
    requires var last := ws[|ws| - 1]; last[0] <= now < last[0] + l.windowMs && |last| < l.maximumRequests
    ensures Spaced(l, Extend(ws, false, now))
  {
    var next, last := Extend(ws, false, now), ws[|ws| - 1];
    assert Window(l, last);
    assert forall k :: 0 <= k < |ws| - 1 ==> next[k] == ws[k];
    assert next[|ws| - 1] == last + [now] && next[|ws| - 1][0] == last[0];
  }

  /** One admitted request either opens a window or joins the last one. */
  lemma AdmittedKeepsSpacing(l: Limits, s: State, ws: seq<seq<int>>, latest: Option<int>, now: int)
    requires l.Valid() && Tracks(l, s, ws, latest) && TryAdmit(l, s, Some(now)).1
    requires latest.Some? ==> latest.value <= now
    ensures var s' := TryAdmit(l, s, Some(now)).0;
      Tracks(l, s', Extend(ws, s'.admittedInWindow == 1, now), Some(now))
  {
    var s' := TryAdmit(l, s, Some(now)).0;
    if ws != [] {
      assert Window(l, ws[|ws| - 1]);
    }
    if s'.admittedInWindow == 1 {
      OpeningKeepsSpacing(l, ws, now);
    } else {
      JoiningKeepsSpacing(l, ws, now);
    }
  }

  lemma RefusedKeepsSpacing(l: Limits, s: State, ws: seq<seq<int>>, latest: Option<int>, now: Option<int>)
    requires l.Valid() && Tracks(l, s, ws, latest) && !TryAdmit(l, s, now).1
    requires latest.Some? && now.Some? ==> latest.value <= now.value
    ensures Tracks(l, TryAdmit(l, s, now).0, ws, if now.Some? then now else latest)
  {
    if ws != [] {
      assert Window(l, ws[|ws| - 1]);
    }
  }

  lemma {:induction false} RunIsSpaced(l: Limits, events: seq<Event>, from: int)
    requires l.Valid() && Monotone(events)
    ensures Tracks(l, After(l, events), Windows(l, events), Latest(events))
    ensures InSpan(Admitted(l, events), from, l.windowMs) == InSpanOfAll(Windows(l, events), from, l.windowMs)
  {
    hide Spaced, TryAdmit, InSpan, InSpanOfAll, Extend;
    if events != [] {
      var front, e := events[..|events| - 1], events[|events| - 1];
      RunIsSpaced(l, front, from);
      var s, ws := After(l, front), Windows(l, front);
      if e.Request? {
        if e.now.Some? {
          LatestIsBehind(events, |events| - 1);
        }
        if TryAdmit(l, s, e.now).1 {
          AdmittedKeepsSpacing(l, s, ws, Latest(front), e.now.value);
          ExtendCounts(ws, TryAdmit(l, s, e.now).0.admittedInWindow == 1, e.now.value, from, l.windowMs);
          InSpanSnoc(Admitted(l, front), e.now.value, from, l.windowMs);
        } else {
          RefusedKeepsSpacing(l, s, ws, Latest(front), e.now);
          assert Admitted(l, events) == Admitted(l, front);
        }
      } else {
        assert Admitted(l, events) == Admitted(l, front);
      }
    } else {
      NothingIsSpaced(l, from);
    }
  }

  lemma NothingIsSpaced(l: Limits, from: int)
    ensures Spaced(l, []) && InSpan([], from, l.windowMs) == 0 && InSpanOfAll([], from, l.windowMs) == 0
  {
  }

  /**
   In every run under a clock that does not go back, no span of one window's length holds more than
   2 * maximumRequests - 1 admissions, nor more than maximumRequests when a window is a single tick.
   */
  lemma SlidingSpanBound(l: Limits, events: seq<Event>, from: int)
    requires l.Valid() && Monotone(events)
    ensures InSpan(Admitted(l, events), from, l.windowMs) <= Bound(l) <= 2 * l.maximumRequests - 1
  {
    RunIsSpaced(l, events, from);
    SpanSeesTwoWindows(l, Windows(l, events), from);
  }

  /** Outstanding admissions never exceed the limit, whatever the clock does. */
  lemma {:induction false} ConcurrencyBound(l: Limits, events: seq<Event>)
    requires l.Valid()
    ensures After(l, events).active <= l.maximumConcurrent
  {
    if events != [] {
      ConcurrencyBound(l, events[..|events| - 1]);
    }
  }

  lemma RunStep(l: Limits, front: seq<Event>, now: int, s: State, times: seq<int>)
    requires After(l, front) == s && Admitted(l, front) == times && TryAdmit(l, s, Some(now)).1
    ensures After(l, front + [Request(Some(now))]) == TryAdmit(l, s, Some(now)).0
    ensures Admitted(l, front + [Request(Some(now))]) == times + [now]
  {
    assert (front + [Request(Some(now))])[..|front|] == front;
  }

  /** No request of the run was seen later than `now`, and the clock did not go back. */
  ghost predicate UpTo(events: seq<Event>, now: int)
  {
    Monotone(events) && forall i :: 0 <= i < |events| && Seen(events[i]) ==> events[i].now.value <= now
  }

  /** One more request, admitted and finished at once, whatever the clock said before. */
  lemma AdmitAndFinishAnyTime(l: Limits, front: seq<Event>, now: int, from: int) returns (events: seq<Event>)
    requires After(l, front).active == 0 && TryAdmit(l, After(l, front), Some(now)).1
    ensures events == front + [Request(Some(now)), Finish]
    ensures After(l, events) == TryAdmit(l, After(l, front), Some(now)).0.(active := 0)
    ensures InSpan(Admitted(l, events), from, l.windowMs)
      == InSpan(Admitted(l, front), from, l.windowMs) + if from <= now < from + l.windowMs then 1 else 0
  {
    hide InSpan, TryAdmit;
    var s, times := After(l, front), Admitted(l, front);
    var seen := front + [Request(Some(now))];
    RunStep(l, front, now, s, times);
    InSpanSnoc(times, now, from, l.windowMs);
    events := seen + [Finish];
    assert events[..|seen|] == seen;
    assert Admitted(l, events) == times + [now];
  }

  lemma AdmitAndFinish(l: Limits, front: seq<Event>, now: int, from: int) returns (events: seq<Event>)
    requires UpTo(front, now) && After(l, front).active == 0 && TryAdmit(l, After(l, front), Some(now)).1
    ensures UpTo(events, now) && After(l, events) == TryAdmit(l, After(l, front), Some(now)).0.(active := 0)
    ensures InSpan(Admitted(l, events), from, l.windowMs)
      == InSpan(Admitted(l, front), from, l.windowMs) + if from <= now < from + l.windowMs then 1 else 0
  {
    hide After, Admitted, InSpan, TryAdmit;
    events := AdmitAndFinishAnyTime(l, front, now, from);
  }

  /** As many more admissions at one moment as the open window has room for. */
  lemma {:induction false} Burst(l: Limits, front: seq<Event>, now: int, count: nat, from: int)
    returns (events: seq<Event>)
    requires l.Valid() && UpTo(front, now)
    requires var s := After(l, front);
      && s.active == 0 && s.windowStartedAt.Some? && now < s.windowStartedAt.value + l.windowMs
      && s.admittedInWindow + count <= l.maximumRequests
    ensures UpTo(events, now)
    ensures After(l, events) == After(l, front).(admittedInWindow := After(l, front).admittedInWindow + count)
    ensures InSpan(Admitted(l, events), from, l.windowMs)
      == InSpan(Admitted(l, front), from, l.windowMs) + if from <= now < from + l.windowMs then count else 0
    decreases count
  {
    hide After, Admitted, InSpan, UpTo;
    if count == 0 {
      events := front;
    } else {
      var more := AdmitAndFinish(l, front, now, from);
      events := Burst(l, more, now, count - 1, from);
    }
  }

  lemma LaterIsUpTo(events: seq<Event>, now: int, later: int)
    requires UpTo(events, now) && now <= later
    ensures UpTo(events, later)
  {
  }

  /**
   The bound is reached, whatever the limits are: by one full window, and if windows are longer than a tick
   by a window filled at its end and one filled right after it.
   */
  lemma BoundIsReached(l: Limits) returns (events: seq<Event>, from: int)
    requires l.Valid()
    ensures Monotone(events) && InSpan(Admitted(l, events), from, l.windowMs) == Bound(l)
  {
    hide Admitted, InSpan;
    from := if l.windowMs == 1 then 0 else 1;
    assert InSpan(Admitted(l, []), from, l.windowMs) == 0 by {
      NothingIsSpaced(l, from);
      NothingAdmitted(l);
    }
    events := AdmitAndFinish(l, [], 0, from);
    LaterIsUpTo(events, 0, l.windowMs - 1);
    events := Burst(l, events, l.windowMs - 1, l.maximumRequests - 1, from);
    if l.windowMs > 1 {
      LaterIsUpTo(events, l.windowMs - 1, l.windowMs);
      events := AdmitAndFinish(l, events, l.windowMs, from);
      events := Burst(l, events, l.windowMs, l.maximumRequests - 1, from);
    }
  }

  lemma NothingAdmitted(l: Limits)
    ensures Admitted(l, []) == [] && After(l, []) == IDLE
  {
  }

  // ---------------------------------------------------------------- when the clock may go back

  /** With one request per window the window opens at each admission, so these are a window apart. */
  lemma {:induction false} SingleAdmissionsAreApart(l: Limits, events: seq<Event>, from: int)
    requires l.Valid() && l.maximumRequests == 1
    ensures var s, times := After(l, events), Admitted(l, events);
      && (times == [] <==> s.windowStartedAt.None?)
      && (times != [] ==> s.windowStartedAt == Some(times[|times| - 1]) && s.admittedInWindow == 1)
      && InSpan(times, from, l.windowMs) <= 1
      && (times != [] && InSpan(times, from, l.windowMs) == 1 ==> from <= times[|times| - 1])
  {
    if events != [] {
      var front, e := events[..|events| - 1], events[|events| - 1];
      SingleAdmissionsAreApart(l, front, from);
      if e.Request? && TryAdmit(l, After(l, front), e.now).1 {
        InSpanSnoc(Admitted(l, front), e.now.value, from, l.windowMs);
      } else {
        assert Admitted(l, events) == Admitted(l, front);
      }
    }
  }

  /** One round of a clock that jumps: forward to open the window that starts at `next`, and back to time 0. */
  lemma BackAndForth(l: Limits, front: seq<Event>, next: int) returns (events: seq<Event>)
    requires l.Valid() && l.maximumRequests > 1 && next >= l.windowMs
    requires var s := After(l, front);
      s.active == 0 && s.windowStartedAt.Some? && s.windowStartedAt.value + l.windowMs == next
    ensures var s := After(l, events); s.active == 0 && s.windowStartedAt == Some(next)
    ensures InSpan(Admitted(l, events), 0, l.windowMs) == InSpan(Admitted(l, front), 0, l.windowMs) + 1
  {
    hide After, Admitted, InSpan;
    var there := AdmitAndFinishAnyTime(l, front, next, 0);
    events := AdmitAndFinishAnyTime(l, there, 0, 0);
  }

  lemma {:induction false} ManyAtOnce(l: Limits, count: nat) returns (events: seq<Event>)
    requires l.Valid() && l.maximumRequests > 1
    ensures var s := After(l, events); s.active == 0 && s.windowStartedAt == Some(count * l.windowMs)
    ensures InSpan(Admitted(l, events), 0, l.windowMs) == count + 1
  {
    hide After, Admitted, InSpan;
    if count == 0 {
      NothingIsSpaced(l, 0);
      NothingAdmitted(l);
      assert 0 * l.windowMs == 0;
      events := AdmitAndFinishAnyTime(l, [], 0, 0);
    } else {
      var front := ManyAtOnce(l, count - 1);
      assert (count - 1) * l.windowMs + l.windowMs == count * l.windowMs;
      assert count * l.windowMs >= l.windowMs;
      events := BackAndForth(l, front, count * l.windowMs);
    }
  }

  /**
   What a clock that may go back does to the bound, for all limits: with one request per window it still
   holds in every run; with two or more, every number of admissions fits in one span of one window.
   */
  lemma BackwardClockBreaksTheBound(l: Limits, count: nat)
    requires l.Valid()
    ensures l.maximumRequests == 1 ==>
      forall events, from :: InSpan(Admitted(l, events), from, l.windowMs) <= Bound(l)
    ensures l.maximumRequests > 1 ==> exists events :: InSpan(Admitted(l, events), 0, l.windowMs) > count
  {
    if l.maximumRequests == 1 {
      forall events, from ensures InSpan(Admitted(l, events), from, l.windowMs) <= 1 {
        SingleAdmissionsAreApart(l, events, from);
      }
    } else {
      var events := ManyAtOnce(l, count);
    }
  }
}
