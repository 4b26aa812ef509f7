/**
  The process gate: at most MAX_CONCURRENT child processes run at once. A mutex guards the
  counter `active`; a condition variable parks the threads that found the gate full.

  One step below is one thing one thread does between two points where the scheduler may
  switch. Steps that happen while the mutex is owned by the stepping thread are separate from
  the steps that contend for it, so a late arrival may overtake a thread that was just woken,
  and a parked thread may be woken for no reason.
*/
module Gate {
  import opened Numbers
  import opened Options

  const MAX_CONCURRENT: nat := 4

  /** Where one thread is in `acquire`, in its work, or in `drop`. */
  datatype Phase =
    | Idle                       // holds no guard and is not in acquire
    | Arriving                   // called acquire, contends for the mutex
    | Testing(fromWait: bool)    // owns the mutex, about to test the loop condition
    | Asleep                     // parked on the condition variable
    | Woken                      // left the parking queue, contends for the mutex again
    | Holding                    // acquire returned its guard
    | Dropping                   // drop began, contends for the mutex
    | Decrementing               // owns the mutex, about to decrement `active`
    | Notifying                  // owns the mutex, decremented, about to notify one
  {
    predicate OwnsMutex() {
      Testing? || Decrementing? || Notifying?
    }
  }

  datatype State = State(mutex: Option<nat>, active: nat, phases: seq<Phase>)

  datatype Step =
    | Arrive(t: nat)
    | Lock(t: nat)
    | Test(t: nat)
    | SpuriousWake(t: nat)
    | BeginDrop(t: nat)
    | Decrement(t: nat)
    | Notify(t: nat, chosen: Option<nat>)
  {
    /** New work and spurious wake-ups come from outside the protocol. */
    predicate External() {
      Arrive? || SpuriousWake?
    }
  }

  predicate Init(s: State) {
    s.mutex == None && s.active == 0 && forall t :: 0 <= t < |s.phases| ==> s.phases[t] == Idle
  }

  function Move(s: State, t: nat, p: Phase): State
    requires t < |s.phases|
  {
    s.(phases := s.phases[t := p])
  }

  function AfterLock(p: Phase): Option<Phase> {
    match p
    case Arriving => Some(Testing(false))
    case Woken => Some(Testing(true))
    case Dropping => Some(Decrementing)
    case _ => None
  }

  /** One step of one thread. */
  predicate Next(s: State, a: Step, s': State) {
    a.t < |s.phases| &&
    var p := s.phases[a.t];
    match a
    case Arrive(t) => p == Idle && s' == Move(s, t, Arriving)
    case Lock(t) =>
      s.mutex == None && AfterLock(p).Some? &&
      s' == Move(s, t, AfterLock(p).value).(mutex := Some(t))
    case Test(t) =>
      p.Testing? &&
      s' == if s.active >= MAX_CONCURRENT
            then Move(s, t, Asleep).(mutex := None)
            else Move(s, t, Holding).(mutex := None, active := s.active + 1)
    case SpuriousWake(t) => p == Asleep && s' == Move(s, t, Woken)
    case BeginDrop(t) => p == Holding && s' == Move(s, t, Dropping)
    case Decrement(t) =>
      p == Decrementing &&
      s' == Move(s, t, Notifying).(active := SaturatingSub(s.active, 1))
    case Notify(t, chosen) =>
      p == Notifying &&
      match chosen
      case None =>
        (forall u :: 0 <= u < |s.phases| ==> s.phases[u] != Asleep) &&
        s' == Move(s, t, Idle).(mutex := None)
      case Some(u) =>
        u < |s.phases| && s.phases[u] == Asleep &&
        s' == Move(Move(s, t, Idle), u, Woken).(mutex := None)
  }

  // ----- counting threads

  function Sum(ps: seq<Phase>, f: Phase -> nat): nat {
    if ps == [] then 0 else f(ps[0]) + Sum(ps[1..], f)
  }

  function Live(p: Phase): nat { if p.Holding? || p.Dropping? || p.Decrementing? then 1 else 0 }
  function Parked(p: Phase): nat { if p.Asleep? then 1 else 0 }
  function Rechecking(p: Phase): nat { if p.Woken? || p == Testing(true) then 1 else 0 }
  function OwesNotify(p: Phase): nat { if p.Notifying? then 1 else 0 }

  /** How far a thread still has to go: every step of the protocol itself brings the total down. */
  function Remaining(p: Phase): nat {
    match p
    case Idle => 0
    case Arriving => 16
    case Woken => 16
    case Testing(_) => 15
    case Asleep => 14
    case Holding => 6
    case Dropping => 5
    case Decrementing => 4
    case Notifying => 3
  }

  lemma {:induction false} SumUpdate(ps: seq<Phase>, t: nat, p: Phase, f: Phase -> nat)
    requires t < |ps|
    ensures Sum(ps[t := p], f) == Sum(ps, f) - f(ps[t]) + f(p)
  {
    if t > 0 {
      assert ps[t := p][1..] == ps[1..][t - 1 := p];
      SumUpdate(ps[1..], t - 1, p, f);
    } else {
      assert ps[0 := p][1..] == ps[1..];
    }
  }

  lemma {:induction false} SumWitness(ps: seq<Phase>, f: Phase -> nat)
    ensures Sum(ps, f) > 0 <==> exists t :: 0 <= t < |ps| && f(ps[t]) > 0
  {
    if ps != [] {
      SumWitness(ps[1..], f);
      if Sum(ps[1..], f) > 0 {
        var t :| 0 <= t < |ps[1..]| && f(ps[1..][t]) > 0;
        assert f(ps[t + 1]) > 0;
      }
      if t :| 1 <= t < |ps| && f(ps[t]) > 0 {
        assert f(ps[1..][t - 1]) > 0;
      }
    }
  }

  // ----- safety

  ghost predicate MutexConsistent(s: State) {
    (s.mutex.Some? ==> s.mutex.value < |s.phases|) &&
    forall t :: 0 <= t < |s.phases| ==> (s.phases[t].OwnsMutex() <==> s.mutex == Some(t))
  }

  /** `active` counts exactly the live guards, and the gate is never over-full. */
  ghost predicate CountConsistent(s: State) {
    s.active == Sum(s.phases, Live) && s.active <= MAX_CONCURRENT
  }

  /** While a thread is parked, four guards are live or someone is on the way to look again. */
  ghost predicate NoLostWakeup(s: State) {
    Sum(s.phases, Parked) > 0 ==>
      s.active + Sum(s.phases, Rechecking) + Sum(s.phases, OwesNotify) >= MAX_CONCURRENT
  }

  ghost predicate Inv(s: State) {
    MutexConsistent(s) && CountConsistent(s) && NoLostWakeup(s)
  }

  lemma {:induction false} InitHolds(s: State)
    requires Init(s)
    ensures Inv(s)
  {
    SumWitness(s.phases, Live);
    SumWitness(s.phases, Parked);
  }

  lemma StepKeepsMutex(s: State, a: Step, s': State)
    requires MutexConsistent(s) && Next(s, a, s')
    ensures MutexConsistent(s')
  {
  }

  /** The phase a thread moves to when it steps. */
  function After(s: State, a: Step): Phase {
    match a
    case Arrive(_) => Arriving
    case Lock(t) => if t < |s.phases| then AfterLock(s.phases[t]).GetOr(Idle) else Idle
    case Test(_) => if s.active >= MAX_CONCURRENT then Asleep else Holding
    case SpuriousWake(_) => Woken
    case BeginDrop(_) => Dropping
    case Decrement(_) => Notifying
    case Notify(_, _) => Idle
  }

  /** A step changes a tally by what the moving thread leaves and what it reaches, and by the
      thread it wakes. */
  lemma SumAfterStep(s: State, a: Step, s': State, f: Phase -> nat)
    requires Next(s, a, s')
    ensures Sum(s'.phases, f) == Sum(s.phases, f) - f(s.phases[a.t]) + f(After(s, a))
              + if a.Notify? && a.chosen.Some? then f(Woken) - f(Asleep) else 0
  {
    SumUpdate(s.phases, a.t, After(s, a), f);
    if a.Notify? && a.chosen.Some? {
      SumUpdate(Move(s, a.t, Idle).phases, a.chosen.value, Woken, f);
    }
  }

  /** What one step does to the four tallies. */
  lemma StepTallies(s: State, a: Step, s': State)
    requires Next(s, a, s')
    ensures Sum(s'.phases, Live) - Sum(s.phases, Live)
         == if a.Test? && s.active < MAX_CONCURRENT then 1 else if a.Decrement? then -1 else 0
    ensures Sum(s'.phases, Parked) - Sum(s.phases, Parked)
         == if a.Test? && s.active >= MAX_CONCURRENT then 1
            else if a.SpuriousWake? || (a.Notify? && a.chosen.Some?) then -1 else 0
    ensures var pending := Sum(s.phases, Rechecking) + Sum(s.phases, OwesNotify);
            var pending' := Sum(s'.phases, Rechecking) + Sum(s'.phases, OwesNotify);
            match a
            case Test(t) => pending - 1 <= pending' <= pending
            case SpuriousWake(t) => pending' == pending + 1
            case Decrement(t) => pending' == pending + 1
            case Notify(t, c) => pending' == if c.Some? then pending else pending - 1
            case _ => pending' == pending
  {
    SumAfterStep(s, a, s', Live);
    SumAfterStep(s, a, s', Parked);
    SumAfterStep(s, a, s', Rechecking);
    SumAfterStep(s, a, s', OwesNotify);
  }

  lemma StepKeepsInv(s: State, a: Step, s': State)
    requires Inv(s) && Next(s, a, s')
    ensures Inv(s')
    ensures a.Decrement? ==> s.active > 0
  {
    StepKeepsMutex(s, a, s');
    StepTallies(s, a, s');
    if a.Decrement? {
      SumWitness(s.phases, Live);
      assert Live(s.phases[a.t]) > 0;
    }
    if a.Notify? && a.chosen.None? {
      SumWitness(s.phases, Parked);
    }
  }

  /** A run: consecutive states joined by steps, from the empty gate. */
  ghost predicate IsRun(states: seq<State>, steps: seq<Step>) {
    |states| == |steps| + 1 && Init(states[0]) &&
    forall i :: 0 <= i < |steps| ==> Next(states[i], steps[i], states[i + 1])
  }

  /** Safety over every interleaving, barging and spurious wake-ups included. */
  lemma {:induction false} EveryReachableStateIsSafe(states: seq<State>, steps: seq<Step>, k: nat)
    requires IsRun(states, steps) && k < |states|
    ensures Inv(states[k])
    ensures k < |steps| && steps[k].Decrement? ==> states[k].active > 0
  {
    if k == 0 {
      InitHolds(states[0]);
    } else {
      EveryReachableStateIsSafe(states, steps, k - 1);
      StepKeepsInv(states[k - 1], steps[k - 1], states[k]);
    }
    if k < |steps| {
      StepKeepsInv(states[k], steps[k], states[k + 1]);
    }
  }

  // ----- progress

  ghost predicate ProtocolStepEnabled(s: State) {
    exists a: Step, s' :: !a.External() && Next(s, a, s')
  }

  /** The protocol is stuck only when every thread has come and gone. */
  lemma StuckOnlyWhenDrained(s: State)
    requires Inv(s)
    ensures ProtocolStepEnabled(s) || (s.active == 0 && forall t :: 0 <= t < |s.phases| ==> s.phases[t] == Idle)
  {
    if t :| 0 <= t < |s.phases| && s.phases[t] != Idle {
      if s.mutex.Some? {
        OwnerCanStep(s, s.mutex.value);
      } else if u :| 0 <= u < |s.phases| && AfterLock(s.phases[u]).Some? {
        assert Next(s, Lock(u), Move(s, u, AfterLock(s.phases[u]).value).(mutex := Some(u)));
      } else if u :| 0 <= u < |s.phases| && s.phases[u] == Holding {
        assert Next(s, BeginDrop(u), Move(s, u, Dropping));
      } else {
        NotAllAsleep(s, t);
      }
    } else {
      SumWitness(s.phases, Live);
    }
  }

  /** While a thread is parked, some thread is neither parked nor gone. */
  lemma NotAllAsleep(s: State, t: nat)
    requires Inv(s) && t < |s.phases| && s.phases[t] == Asleep
    ensures exists u :: 0 <= u < |s.phases| && s.phases[u] != Asleep && s.phases[u] != Idle
  {
    SumWitness(s.phases, Parked);
    SumWitness(s.phases, Live);
    SumWitness(s.phases, Rechecking);
    SumWitness(s.phases, OwesNotify);
    assert Parked(s.phases[t]) > 0;
  }

  lemma OwnerCanStep(s: State, t: nat)
    requires t < |s.phases| && s.phases[t].OwnsMutex()
    ensures ProtocolStepEnabled(s)
  {
    match s.phases[t]
    case Testing(_) =>
      var s' := if s.active >= MAX_CONCURRENT
        then Move(s, t, Asleep).(mutex := None)
        else Move(s, t, Holding).(mutex := None, active := s.active + 1);
      assert Next(s, Test(t), s');
    case Decrementing =>
      assert Next(s, Decrement(t), Move(s, t, Notifying).(active := SaturatingSub(s.active, 1)));
    case Notifying =>
      if u :| 0 <= u < |s.phases| && s.phases[u] == Asleep {
        assert Next(s, Notify(t, Some(u)), Move(Move(s, t, Idle), u, Woken).(mutex := None));
      } else {
        assert Next(s, Notify(t, None), Move(s, t, Idle).(mutex := None));
      }
  }

  /** Every step of the protocol itself makes progress. */
  lemma StepDescends(s: State, a: Step, s': State)
    requires Next(s, a, s') && !a.External()
    ensures Sum(s'.phases, Remaining) < Sum(s.phases, Remaining)
  {
    SumAfterStep(s, a, s', Remaining);
  }

  /** Without new arrivals or spurious wake-ups the gate runs dry: such a run is at most as
      long as the remaining work, and it can only stop with every guard returned. */
  lemma {:induction false} QuietRunsDrain(states: seq<State>, steps: seq<Step>)
    requires |states| == |steps| + 1 && Inv(states[0])
    requires forall i :: 0 <= i < |steps| ==> Next(states[i], steps[i], states[i + 1]) && !steps[i].External()
    ensures |steps| + Sum(states[|steps|].phases, Remaining) <= Sum(states[0].phases, Remaining)
    ensures Inv(states[|steps|])
    ensures !ProtocolStepEnabled(states[|steps|]) ==>
              states[|steps|].active == 0 &&
              forall t :: 0 <= t < |states[|steps|].phases| ==> states[|steps|].phases[t] == Idle
  {
    var n := |steps|;
    if n == 0 {
      StuckOnlyWhenDrained(states[0]);
    } else {
      QuietRunsDrain(states[..n], steps[..n - 1]);
      StepKeepsInv(states[n - 1], steps[n - 1], states[n]);
      StepDescends(states[n - 1], steps[n - 1], states[n]);
      StuckOnlyWhenDrained(states[n]);
    }
  }
}
