/**
 The one-holder gate that wake-alarm mutations and shutdown requests share, and every interleaving of
 such requests at the points where their handlers wait.
 */
module PowerGate {

  // ---------------------------------------------------------------- the gate and its release closures

  class Release {
    var released: bool

    constructor ()
      ensures !released
    {
      released := false;
    }
  }

  /** The flag, and for each closure handed out so far whether it has been called. */
  datatype GateState = GateState(active: bool, called: seq<bool>)

  function Admitted(g: GateState): GateState
  {
    GateState(true, g.called + [false])
  }

  /** Calling closure `ticket`. */
  function CallRelease(g: GateState, ticket: nat): GateState
    requires ticket < |g.called|
  {
    if g.called[ticket] then g else GateState(false, g.called[ticket := true])
  }

  class Gate {
    var active: bool
    /** The closures in the order they were handed out. */
    ghost var tickets: seq<Release>

    /** Every closure but the newest has been called, and the newest exactly when the gate is free. */
    ghost predicate Valid()
      reads this, tickets
    {
      && (forall i, j :: 0 <= i < j < |tickets| ==> tickets[i] != tickets[j])
      && (forall i :: 0 <= i < |tickets| - 1 ==> tickets[i].released)
      && (active <==> tickets != [] && !tickets[|tickets| - 1].released)
    }

    ghost function View(): GateState
      reads this, tickets
    {
      GateState(active, seq(|tickets|, i requires 0 <= i < |tickets| reads this, tickets => tickets[i].released))
    }

    constructor ()
      ensures Valid() && View() == GateState(false, [])
    {
      active, tickets := false, [];
    }

    method TryAdmit() returns (h: Release?)
      requires Valid()
      modifies this
      ensures Valid()
      ensures (h == null) == old(active)
      ensures View() == if h == null then old(View()) else Admitted(old(View()))
      ensures tickets == if h == null then old(tickets) else old(tickets) + [h]
      ensures h != null ==> fresh(h)
    {
      if active {
        return null;
      }
      active := true;
      h := new Release();
      tickets := tickets + [h];
    }

    /** Any closure the gate ever handed out may be called, any number of times. */
    method Free(h: Release, ghost ticket: nat)
      requires Valid() && ticket < |tickets| && tickets[ticket] == h
      modifies `active, h
      ensures Valid() && tickets == old(tickets) && h.released
      ensures View() == CallRelease(old(View()), ticket)
      ensures active == (old(active) && (ticket < |tickets| - 1 || old(h.released)))
    {
      if h.released {
        return;
      }
      h.released := true;
      active := false;
    }
  }

  // ---------------------------------------------------------------- requests as a transition system

  datatype Kind = WakeRead | WakeUpdate | WakeDelete | ShutdownPrepare | ShutdownExecute

  predicate NeedsGate(kind: Kind)
  {
    !kind.WakeRead?
  }

  /**
   Where a request stands: admitted and reading its input; working without the gate; holding it with the
   closure numbered `ticket`; done with the handler's `finally` but not yet with the admission's; gone.
   */
  datatype Phase = Reading | Working | Holding(ticket: nat) | Leaving | Gone

  datatype Request = Request(kind: Kind, phase: Phase)

  datatype State = State(requests: map<nat, Request>, gate: GateState, admitted: int)

  const START := State(map[], GateState(false, []), 0)

  datatype Action =
    | Arrive(id: nat, kind: Kind, refusedByWindow: bool)
    | FailEarly(id: nat)
    | EnterGate(id: nat)
    | Finish(id: nat)
    | Leave(id: nat)
    | StrayRelease(ticket: nat)

  predicate At(s: State, id: nat, phase: Phase)
  {
    id in s.requests && s.requests[id].phase == phase
  }

  function Move(s: State, id: nat, phase: Phase): State
    requires id in s.requests
  {
    s.(requests := s.requests[id := s.requests[id].(phase := phase)])
  }

  /** One uninterrupted stretch of one handler; an action that is not possible changes nothing. */
  function Step(limit: nat, s: State, a: Action): State
  {
    match a
    case Arrive(id, kind, refusedByWindow) =>
      if id in s.requests then s
      else if s.admitted >= limit || refusedByWindow then s.(requests := s.requests[id := Request(kind, Gone)])
      else s.(requests := s.requests[id := Request(kind, Reading)], admitted := s.admitted + 1)
    case FailEarly(id) => if At(s, id, Reading) then Move(s, id, Leaving) else s
    case EnterGate(id) =>
      if !At(s, id, Reading) then s
      else if !NeedsGate(s.requests[id].kind) then Move(s, id, Working)
      else if s.gate.active then Move(s, id, Leaving)
      else Move(s, id, Holding(|s.gate.called|)).(gate := Admitted(s.gate))
    case Finish(id) =>
      if id !in s.requests then s
      else (match s.requests[id].phase
        case Working => Move(s, id, Leaving)
        case Holding(t) => if t < |s.gate.called| then Move(s, id, Leaving).(gate := CallRelease(s.gate, t)) else s
        case _ => s)
    case Leave(id) => if At(s, id, Leaving) then Move(s, id, Gone).(admitted := s.admitted - 1) else s
    case StrayRelease(t) =>
      if t < |s.gate.called| && !(exists id :: id in s.requests && s.requests[id].phase == Holding(t))
      then s.(gate := CallRelease(s.gate, t)) else s
  }

  function Run(limit: nat, actions: seq<Action>): State
  {
    if actions == [] then START else Step(limit, Run(limit, actions[..|actions| - 1]), actions[|actions| - 1])
  }

  /** Requests admitted and not yet gone. */
  function Live(s: State): set<nat>
  {
    set id | id in s.requests && !s.requests[id].phase.Gone?
  }

  ghost predicate HoldsGate(s: State, id: nat)
  {
    id in s.requests && s.requests[id].phase.Holding?
  }

  /** The flag is up exactly while one request holds the gate, and its closure is the one not yet called. */
  ghost predicate Gated(s: State)
  {
    && (forall id, other :: HoldsGate(s, id) && HoldsGate(s, other) ==> id == other)
    && (s.gate.active <==> exists id :: HoldsGate(s, id))
    && (forall id :: HoldsGate(s, id) ==>
      s.requests[id].phase.ticket < |s.gate.called| && !s.gate.called[s.requests[id].phase.ticket])
    && (forall t :: 0 <= t < |s.gate.called| && !s.gate.called[t] ==> HeldWith(s, t))
    && (forall id :: HoldsGate(s, id) ==> NeedsGate(s.requests[id].kind))
  }

  ghost predicate HeldWith(s: State, ticket: nat)
  {
    exists id :: HoldsGate(s, id) && s.requests[id].phase.ticket == ticket
  }

  ghost predicate Inv(limit: nat, s: State)
  {
    Gated(s) && s.admitted == |Live(s)| <= limit
  }

  lemma MoveLive(s: State, id: nat, phase: Phase)
    requires id in s.requests
    ensures Live(Move(s, id, phase)) == if phase.Gone? then Live(s) - {id} else Live(s) + {id}
  {
  }

  lemma ArriveLive(s: State, id: nat, r: Request)
    requires id !in s.requests
    ensures Live(s.(requests := s.requests[id := r])) == if r.phase.Gone? then Live(s) else Live(s) + {id}
  {
  }

  /** The gate does not notice what requests without it do. */
  lemma SameHolders(s: State, s': State)
    requires Gated(s) && s'.gate == s.gate
    requires forall i :: HoldsGate(s', i) <==> HoldsGate(s, i)
    requires forall i :: HoldsGate(s, i) ==> i in s'.requests && s'.requests[i] == s.requests[i]
    ensures Gated(s')
  {
    forall t | 0 <= t < |s.gate.called| && !s.gate.called[t] ensures HeldWith(s', t) {
      assert HeldWith(s, t);
      var id :| HoldsGate(s, id) && s.requests[id].phase.ticket == t;
      assert HoldsGate(s', id);
    }
  }

  lemma {:induction false} StepKeepsInv(limit: nat, s: State, a: Action)
    requires Inv(limit, s)
    ensures Inv(limit, Step(limit, s, a))
  {
    hide Gated;
    match a
    case Arrive(id, kind, refused) => ArriveKeepsInv(limit, s, id, kind, refused);
    case FailEarly(id) =>
      if At(s, id, Reading) {
        QuietMove(limit, s, id, Leaving);
      }
    case EnterGate(id) => EnterKeepsInv(limit, s, id);
    case Finish(id) => FinishKeepsInv(limit, s, id);
    case Leave(id) =>
      if At(s, id, Leaving) {
        LeaveKeepsInv(limit, s, id);
      }
    case StrayRelease(t) => StrayChangesNothing(s, t);
  }

  lemma StrayChangesNothing(s: State, t: nat)
    requires Gated(s)
    ensures forall limit :: Step(limit, s, StrayRelease(t)) == s
  {
    if t < |s.gate.called| && !s.gate.called[t] {
      assert HeldWith(s, t);
      var id :| HoldsGate(s, id) && s.requests[id].phase.ticket == t;
      assert s.requests[id].phase == Holding(t);
    }
  }

  lemma NewRequest(limit: nat, s: State, id: nat, r: Request, admitted: int)
    requires Inv(limit, s) && id !in s.requests && !r.phase.Holding?
    requires admitted == if r.phase.Gone? then s.admitted else s.admitted + 1
    requires admitted <= limit
    ensures Inv(limit, s.(requests := s.requests[id := r], admitted := admitted))
  {
    hide Gated;
    var s' := s.(requests := s.requests[id := r], admitted := admitted);
    ArriveLive(s, id, r);
    assert Live(s') == Live(s.(requests := s.requests[id := r]));
    assert id !in Live(s);
    SameHolders(s, s');
  }

  lemma ArriveKeepsInv(limit: nat, s: State, id: nat, kind: Kind, refused: bool)
    requires Inv(limit, s)
    ensures Inv(limit, Step(limit, s, Arrive(id, kind, refused)))
  {
    hide Inv;
    if id !in s.requests {
      if s.admitted >= limit || refused {
        assert s.admitted <= limit by { AdmittedWithin(limit, s); }
        NewRequest(limit, s, id, Request(kind, Gone), s.admitted);
      } else {
        NewRequest(limit, s, id, Request(kind, Reading), s.admitted + 1);
      }
    }
  }

  lemma AdmittedWithin(limit: nat, s: State)
    requires Inv(limit, s)
    ensures s.admitted <= limit
  {
  }

  /** A live request that does not hold the gate moves to another phase without it. */
  lemma QuietMove(limit: nat, s: State, id: nat, phase: Phase)
    requires Inv(limit, s) && id in Live(s) && !HoldsGate(s, id) && !phase.Holding? && !phase.Gone?
    ensures Inv(limit, Move(s, id, phase))
  {
    hide Gated;
    var s' := Move(s, id, phase);
    MoveLive(s, id, phase);
    assert Live(s) + {id} == Live(s);
    SameHolders(s, s');
  }

  lemma LeaveKeepsInv(limit: nat, s: State, id: nat)
    requires Inv(limit, s) && At(s, id, Leaving)
    ensures Inv(limit, Move(s, id, Gone).(admitted := s.admitted - 1))
  {
    hide Gated;
    var s' := Move(s, id, Gone).(admitted := s.admitted - 1);
    MoveLive(s, id, Gone);
    assert Live(s') == Live(Move(s, id, Gone));
    assert id in Live(s);
    SameHolders(s, s');
  }

  lemma EnterKeepsInv(limit: nat, s: State, id: nat)
    requires Inv(limit, s)
    ensures Inv(limit, Step(limit, s, EnterGate(id)))
  {
    if At(s, id, Reading) {
      assert id in Live(s);
      if !NeedsGate(s.requests[id].kind) {
        QuietMove(limit, s, id, Working);
      } else if s.gate.active {
        QuietMove(limit, s, id, Leaving);
      } else {
        var s' := Step(limit, s, EnterGate(id));
        MoveLive(s, id, Holding(|s.gate.called|));
        assert Live(s') == Live(Move(s, id, Holding(|s.gate.called|))) == Live(s) + {id} == Live(s);
        TakingTheGate(s, id);
      }
    }
  }

  lemma TakingTheGate(s: State, id: nat)
    requires Gated(s) && !s.gate.active && At(s, id, Reading) && NeedsGate(s.requests[id].kind)
    ensures Gated(Move(s, id, Holding(|s.gate.called|)).(gate := Admitted(s.gate)))
  {
    var s' := Move(s, id, Holding(|s.gate.called|)).(gate := Admitted(s.gate));
    assert forall i :: !HoldsGate(s, i);
    forall i ensures HoldsGate(s', i) <==> i == id {
      assert i != id && HoldsGate(s', i) ==> HoldsGate(s, i);
    }
    assert HoldsGate(s', id) && s'.requests[id].phase.ticket == |s.gate.called|;
    assert HeldWith(s', |s.gate.called|);
    forall t | 0 <= t < |s.gate.called| ensures s.gate.called[t] {
      assert !HeldWith(s, t);
    }
  }

  lemma FinishKeepsInv(limit: nat, s: State, id: nat)
    requires Inv(limit, s)
    ensures Inv(limit, Step(limit, s, Finish(id)))
  {
    if At(s, id, Working) {
      QuietMove(limit, s, id, Leaving);
    } else if HoldsGate(s, id) {
      var s' := Step(limit, s, Finish(id));
      MoveLive(s, id, Leaving);
      assert Live(s') == Live(Move(s, id, Leaving)) == Live(s) + {id} == Live(s);
      GivingTheGateBack(s, id);
    }
  }

  lemma GivingTheGateBack(s: State, id: nat)
    requires Gated(s) && HoldsGate(s, id) && s.requests[id].phase.ticket < |s.gate.called|
    ensures Gated(Move(s, id, Leaving).(gate := CallRelease(s.gate, s.requests[id].phase.ticket)))
  {
    var t := s.requests[id].phase.ticket;
    var s' := Move(s, id, Leaving).(gate := CallRelease(s.gate, t));
    assert s'.requests == Move(s, id, Leaving).requests;
    assert forall i :: HoldsGate(s', i) ==> HoldsGate(s, i) && i != id;
    forall u | 0 <= u < |s.gate.called| ensures s'.gate.called[u] {
      if !s.gate.called[u] {
        assert HeldWith(s, u);
        var i :| HoldsGate(s, i) && s.requests[i].phase.ticket == u;
        assert i == id && u == t;
      }
    }
  }

  lemma {:induction false} EveryRunIsSafe(limit: nat, actions: seq<Action>)
    ensures Inv(limit, Run(limit, actions))
  {
    if actions == [] {
      assert Live(START) == {};
    } else {
      EveryRunIsSafe(limit, actions[..|actions| - 1]);
      StepKeepsInv(limit, Run(limit, actions[..|actions| - 1]), actions[|actions| - 1]);
    }
  }

  /** At most one request, of whatever kind, is between its admission to the gate and its release. */
  lemma OneHolder(limit: nat, actions: seq<Action>, id: nat, other: nat)
    requires HoldsGate(Run(limit, actions), id) && HoldsGate(Run(limit, actions), other)
    ensures id == other && !Run(limit, actions).requests[id].kind.WakeRead?
  {
    EveryRunIsSafe(limit, actions);
  }

  /** Calling a closure that is nobody's any more changes nothing: it was called when its owner finished. */
  lemma StaleReleaseIsHarmless(limit: nat, actions: seq<Action>, ticket: nat)
    ensures Run(limit, actions + [StrayRelease(ticket)]) == Run(limit, actions)
  {
    var s := Run(limit, actions);
    EveryRunIsSafe(limit, actions);
    assert (actions + [StrayRelease(ticket)])[..|actions|] == actions;
    StrayChangesNothing(s, ticket);
  }

  /** When every request is gone the gate is free, every closure has been called and no slot is taken. */
  lemma QuietMeansFree(limit: nat, actions: seq<Action>)
    requires forall id :: id in Run(limit, actions).requests ==> Run(limit, actions).requests[id].phase.Gone?
    ensures var s := Run(limit, actions);
      !s.gate.active && s.admitted == 0 && forall t :: 0 <= t < |s.gate.called| ==> s.gate.called[t]
  {
    var s := Run(limit, actions);
    EveryRunIsSafe(limit, actions);
    assert Live(s) == {};
    forall t | 0 <= t < |s.gate.called| ensures s.gate.called[t] {
      assert !HeldWith(s, t);
    }
  }
}
