/**
 Both layers of the deferred signal make progress together: a thread that waits, for the inner guard or for the inner
 primitive, waits for another that can move, and every step brings its operation nearer to its end.
 */
module DeferredSignalWork {
  import opened Common
  import opened Locks
  import opened DeferredSignal
  import W = LazyWrapper
  import Progress

  /** How many steps an operation still needs, at most, outside the signal itself. */
  function Distance(pc: Pc, inner: W.Pc<LockOp, LockResult>): nat {
    match pc
    case Idle => 0
    case AtInterruptLoad => 3
    case AtFastLoad(_) => CALL_DISTANCE
    case AtLock(_) => 26 + Progress.Rank(inner)
    case AtRecheck(_) => 26
    case AtSlot(_) => 25
    case AtFactory(_, _) => 24
    case AtPublish(_, _) => 23
    case AtUnlock(_, _) => 3 + Progress.Rank(inner)
    case AtSignal(_, _) => 2
    case AtReturn(_, _) => 1
  }

  const CALL_DISTANCE := 36

  function DistanceAt(s: State, t: Tid): nat { Distance(PcOf(s, t), W.PcOf(s.lock, t)) }

  function Distances(s: State): map<Tid, nat> { map t | t in s.pcs :: DistanceAt(s, t) }

  /** What all threads together still have to do, in both layers. */
  ghost function Work(s: State): nat { Progress.Sum(Distances(s)) }

  /** A turn of the inner guard's loop that finds the flag set. */
  predicate Spins(s: State, e: Event) { e.Inner? && Progress.Spins(s.lock, e.step) }

  /** The factory of the signal throws. */
  predicate Terminates(e: Event) { e.Make? && e.outcome.Throw? }

  /** The event is a step of an operation, and not a turn of the spin loop. */
  predicate Counts(s: State, e: Event) { !e.Install? && !e.Call? && !Spins(s, e) && !Terminates(e) }

  lemma InnerDistanceFalls(s: State, l: LockEvent)
    requires Next(s, Inner(l)).Some? && Coupled(PcOf(s, l.thread), W.PcOf(s.lock, l.thread)) && !Spins(s, Inner(l))
    ensures DistanceAt(Next(s, Inner(l)).value, l.thread) < DistanceAt(s, l.thread)
  {
    W.OwnStep(MutexObject(), s.lock, l);
    Progress.RankFalls(MutexObject(), s.lock, l);
    hide W.Next, Progress.Rank, Advanced, Made, Applied;
    RankZero(W.PcOf(s.lock, l.thread));
  }

  lemma RankZero(inner: W.Pc<LockOp, LockResult>)
    ensures Progress.Rank(inner) == 0 <==> inner.Idle?
  {
  }

  lemma AdvancedDistanceFalls(s: State, t: Tid)
    requires Advanced(s, t).Some? && Coupled(PcOf(s, t), W.PcOf(s.lock, t))
    ensures DistanceAt(Advanced(s, t).value, t) < DistanceAt(s, t)
  {
    match PcOf(s, t)
    case AtFastLoad(op) =>
      if s.resolved.None? { EnterCoupled(s, t, Lock, AtLock(op)); }
    case AtRecheck(op) =>
      if s.resolved.Some? { EnterCoupled(s, t, Unlock, AtUnlock(op, s.resolved)); }
    case AtSlot(op) =>
      if s.lock.slot.None? { EnterCoupled(s, t, Unlock, AtUnlock(op, None)); }
    case AtPublish(op, id) =>
      EnterCoupled(s.(resolved := Some(id)), t, Unlock, AtUnlock(op, Some(id)));
    case _ =>
  }

  /** Every step of an operation brings it strictly nearer to its end. */
  lemma DistanceFalls(s: State, e: Event)
    requires Inv(s) && Next(s, e).Some? && Counts(s, e)
    ensures ThreadOf(e).Some?
    ensures DistanceAt(Next(s, e).value, ThreadOf(e).value) < DistanceAt(s, ThreadOf(e).value)
  {
    if ThreadOf(e).Some? { assert ThreadInv(s, ThreadOf(e).value); }
    hide Inv, ThreadInv, Stepped, Advanced, SignalApply;
    match e
    case Advance(t) => AdvancedDistanceFalls(s, t);
    case Inner(l) => hide Distance; InnerDistanceFalls(s, l);
    case _ =>
  }

  lemma KeysGrow(s: State, e: Event)
    requires Next(s, e).Some?
    ensures Next(s, e).value.pcs.Keys ==
            s.pcs.Keys + if ThreadOf(e).Some? then {ThreadOf(e).value} else {}
  {
    hide W.Next;
    match e
    case Advance(_) => hide Stepped, Made, Applied;
    case Make(_, _) => hide Stepped, Advanced, Applied;
    case _ => hide Advanced, Made;
  }

  lemma DistancesMove(s: State, e: Event)
    requires Next(s, e).Some?
    ensures Distances(Next(s, e).value) ==
            if ThreadOf(e).Some? then Distances(s)[ThreadOf(e).value := DistanceAt(Next(s, e).value, ThreadOf(e).value)]
            else Distances(s)
  {
    var s' := Next(s, e).value;
    KeysGrow(s, e);
    forall t: Tid | ThreadOf(e) != Some(t) ensures DistanceAt(s', t) == DistanceAt(s, t) {
      OthersStay(s, e, t);
      hide Next, Distance;
    }
    hide Next, DistanceAt;
  }

  /** A step changes the work by the change of its own thread's distance. */
  lemma WorkMoves(s: State, e: Event)
    requires Next(s, e).Some?
    ensures ThreadOf(e).None? ==> Work(Next(s, e).value) == Work(s)
    ensures ThreadOf(e).Some? ==>
              Work(Next(s, e).value) + DistanceAt(s, ThreadOf(e).value) ==
              Work(s) + DistanceAt(Next(s, e).value, ThreadOf(e).value)
  {
    DistancesMove(s, e);
    hide Next, DistanceAt;
    if ThreadOf(e).Some? {
      var t := ThreadOf(e).value;
      Progress.SumUpdate(Distances(s), t, DistanceAt(Next(s, e).value, t));
      IdleDistance(s, t);
    }
  }

  lemma IdleDistance(s: State, t: Tid)
    ensures t !in s.pcs ==> DistanceAt(s, t) == 0
  {
  }

  /** What a call, an installation, a spin and a throwing factory do to the distance of their thread. */
  lemma OtherDistances(s: State, e: Event)
    requires Next(s, e).Some? && !Counts(s, e) && ThreadOf(e).Some?
    ensures DistanceAt(Next(s, e).value, ThreadOf(e).value) <= DistanceAt(s, ThreadOf(e).value) +
              if e.Call? then CALL_DISTANCE else 0
  {
  }

  /**
   Every step of an operation, in either layer, lowers the work of all threads; a call adds a bounded amount, and nothing
   else adds any.
   */
  lemma StepsDecrease(s: State, e: Event)
    requires Inv(s) && Next(s, e).Some?
    ensures if Counts(s, e) then Work(Next(s, e).value) < Work(s)
            else Work(Next(s, e).value) <= Work(s) + if e.Call? then CALL_DISTANCE else 0
  {
    WorkMoves(s, e);
    if Counts(s, e) {
      DistanceFalls(s, e);
    } else if ThreadOf(e).Some? {
      OtherDistances(s, e);
    }
    hide Next, Inv, Counts, DistanceAt;
  }

  function Steps(s: State, es: seq<Event>): nat
    requires Run(s, es).Some?
  {
    if es == [] then 0
    else
      var before, e := es[..|es| - 1], es[|es| - 1];
      Steps(s, before) + if Counts(Run(s, before).value, e) then 1 else 0
  }

  function Calls(es: seq<Event>): nat {
    if es == [] then 0 else Calls(es[..|es| - 1]) + if es[|es| - 1].Call? then 1 else 0
  }

  /** Bounded work: a run takes at most so many steps per operation called in it, besides what was pending at its start. */
  lemma {:induction false} BoundedWork(s: State, es: seq<Event>)
    requires Inv(s) && Run(s, es).Some?
    ensures Steps(s, es) + Work(Run(s, es).value) <= Work(s) + CALL_DISTANCE * Calls(es)
  {
    if es != [] {
      var before, e := es[..|es| - 1], es[|es| - 1];
      BoundedWork(s, before);
      RunInv(s, before);
      StepsDecrease(Run(s, before).value, e);
      hide Next, Inv, Counts, Work;
    }
  }

  // ------------------------------------------------------------------ no deadlock

  /** The thread is inside `Resolve`. */
  predicate Resolving(pc: Pc) {
    pc.AtFastLoad? || pc.AtLock? || pc.AtRecheck? || pc.AtSlot? || pc.AtFactory? || pc.AtPublish? || pc.AtUnlock?
  }

  /** The thread spins at the inner guard, or waits for the primitive that the inner mutex settled on. */
  ghost predicate Blocked(s: State, t: Tid)
    requires W.Inv(MutexObject(), s.lock)
  {
    var pc, inner := PcOf(s, t), W.PcOf(s.lock, t);
    || (inner.AtGuard? && s.lock.guard)
    || (pc.AtLock? && inner.AtPrimitive? && Holder(s).Some?)
  }

  /** The next step of thread `t`, with the given ends of factory calls. */
  function Move(s: State, t: Tid, lockOutcome: W.Outcome, outcome: W.Outcome): Event {
    match PcOf(s, t)
    case AtLock(_) => Inner(InnerMove(W.PcOf(s.lock, t), t, lockOutcome, Held))
    case AtUnlock(_, _) => Inner(InnerMove(W.PcOf(s.lock, t), t, lockOutcome, Released))
    case AtFactory(_, _) => Make(t, outcome)
    case _ => Advance(t)
  }

  function InnerMove(inner: W.Pc<LockOp, LockResult>, t: Tid, lockOutcome: W.Outcome, result: LockResult): LockEvent {
    match inner
    case AtFactory(_, _) => W.Make(t, lockOutcome)
    case AtPrimitive(_, _) => W.Apply(t, result)
    case _ => W.Advance(t)
  }

  /** A thread inside the inner mutex that does not wait has a step there. */
  lemma InnerMoveEnabled(s: State, t: Tid, lockOutcome: W.Outcome)
    requires Inv(s) && (PcOf(s, t).AtLock? || PcOf(s, t).AtUnlock?) && !Blocked(s, t)
    ensures var l := InnerMove(W.PcOf(s.lock, t), t, lockOutcome, if PcOf(s, t).AtLock? then Held else Released);
            && W.Next(MutexObject(), s.lock, l).Some? && l.thread == t && !l.Install? && !l.Call?
            && !Progress.Spins(s.lock, l)
  {
    assert ThreadInv(s, t);
    assert W.Knows(s.lock, W.PcOf(s.lock, t));
    assert W.Ownership(MutexObject(), s.lock);
    hide Inv, Knows, NoneYet;
  }

  lemma OuterMoveEnabled(s: State, t: Tid, lockOutcome: W.Outcome, outcome: W.Outcome)
    requires !s.terminated && Resolving(PcOf(s, t)) && !PcOf(s, t).AtLock? && !PcOf(s, t).AtUnlock? && !outcome.Throw?
    requires W.PcOf(s.lock, t).Idle?
    ensures var e := Move(s, t, lockOutcome, outcome);
            Next(s, e).Some? && ThreadOf(e) == Some(t) && Counts(s, e)
  {
    match PcOf(s, t)
    case AtFastLoad(_) =>
    case AtRecheck(_) =>
    case AtSlot(_) =>
    case AtFactory(_, _) =>
    case AtPublish(_, _) =>
  }

  /** A thread inside `Resolve` that does not wait has a step. */
  lemma MoveEnabled(s: State, t: Tid, lockOutcome: W.Outcome, outcome: W.Outcome)
    requires Inv(s) && !s.terminated && Resolving(PcOf(s, t)) && !Blocked(s, t) && !outcome.Throw?
    ensures var e := Move(s, t, lockOutcome, outcome);
            Next(s, e).Some? && ThreadOf(e) == Some(t) && Counts(s, e)
  {
    assert ThreadInv(s, t);
    hide Inv, Blocked;
    if PcOf(s, t).AtLock? || PcOf(s, t).AtUnlock? {
      InnerMoveEnabled(s, t, lockOutcome);
      hide ThreadInv, InnerMove, W.Next, Progress.Spins, Advanced, Made, Applied;
    } else {
      OuterMoveEnabled(s, t, lockOutcome, outcome);
      hide ThreadInv, Next, Move, Counts;
    }
  }

  /** A thread that waits does so for another one, inside `Resolve`, that does not. */
  lemma WaitsForAnother(s: State, t: Tid) returns (u: Tid)
    requires Inv(s) && Blocked(s, t)
    ensures u != t && Resolving(PcOf(s, u)) && !Blocked(s, u)
  {
    if W.PcOf(s.lock, t).AtGuard? {
      u := GuardOwner(s, t);
    } else {
      u := Holder(s).value;
      assert ThreadInv(s, u) && ThreadInv(s, t);
      if Blocked(s, u) { u := GuardOwner(s, u); }
    }
  }

  lemma GuardOwner(s: State, t: Tid) returns (u: Tid)
    requires Inv(s) && s.lock.guard
    ensures W.Guarded(W.PcOf(s.lock, u)) && Resolving(PcOf(s, u)) && !Blocked(s, u)
  {
    u :| W.Guarded(W.PcOf(s.lock, u));
    assert ThreadInv(s, u);
  }

  /**
   No deadlock, over both layers: while some thread is inside `Resolve`, some thread inside it has an enabled step that
   lowers the work of all threads, however the inner factory call ends and whether or not the outer one delivers.
   */
  lemma SomeoneMoves(s: State, t: Tid, lockOutcome: W.Outcome, outcome: W.Outcome) returns (u: Tid)
    requires Inv(s) && !s.terminated && Resolving(PcOf(s, t)) && !outcome.Throw?
    ensures Resolving(PcOf(s, u)) && (Blocked(s, t) ==> u != t)
    ensures var e := Move(s, u, lockOutcome, outcome);
            Next(s, e).Some? && ThreadOf(e) == Some(u) && Work(Next(s, e).value) < Work(s)
  {
    u := t;
    if Blocked(s, t) { u := WaitsForAnother(s, t); }
    MoveEnabled(s, u, lockOutcome, outcome);
    StepsDecrease(s, Move(s, u, lockOutcome, outcome));
  }

  /** The other threads are outside. */
  ghost predicate Solitary(s: State, t: Tid) {
    Inv(s) && !s.terminated && forall u: Tid :: u != t ==> PcOf(s, u).Idle?
  }

  lemma NobodyElseInside(s: State, t: Tid)
    requires Solitary(s, t)
    ensures forall u: Tid :: u != t ==> W.PcOf(s.lock, u).Idle?
    ensures Holder(s).Some? ==> Holder(s) == Some(t) && OwnsMutex(s, t)
  {
    forall u: Tid | u != t ensures W.PcOf(s.lock, u).Idle? { assert ThreadInv(s, u); }
    if Holder(s).Some? { assert ThreadInv(s, Holder(s).value); }
  }

  /** A thread that is alone never waits. */
  lemma NeverBlocked(s: State, t: Tid)
    requires Solitary(s, t)
    ensures !Blocked(s, t)
  {
    NobodyElseInside(s, t);
    assert ThreadInv(s, t);
    if s.lock.guard { var u := GuardOwner(s, t); }
  }

  lemma StaysSolitary(s: State, e: Event)
    requires ThreadOf(e).Some? && Solitary(s, ThreadOf(e).value) && Next(s, e).Some? && !Next(s, e).value.terminated
    ensures Solitary(Next(s, e).value, ThreadOf(e).value)
  {
    NextInv(s, e);
    forall u: Tid | ThreadOf(e) != Some(u) ensures PcOf(Next(s, e).value, u).Idle? { PcsStay(s, e, u); }
    hide Next, Inv;
  }

  /** Alone inside the inner mutex, a thread has a step there that brings its call nearer to its end. */
  lemma SolitaryInnerMove(s: State, t: Tid, lockOutcome: W.Outcome)
    requires Solitary(s, t) && (PcOf(s, t).AtLock? || PcOf(s, t).AtUnlock?)
    ensures var l := InnerMove(W.PcOf(s.lock, t), t, lockOutcome, if PcOf(s, t).AtLock? then Held else Released);
            && l.thread == t && !l.Install? && !l.Call? && Next(s, Inner(l)).Some?
            && var s' := Next(s, Inner(l)).value;
               && Solitary(s', t) && s'.lock.slot == s.lock.slot
               && Progress.Rank(W.PcOf(s'.lock, t)) < Progress.Rank(W.PcOf(s.lock, t))
  {
    NeverBlocked(s, t);
    InnerMoveEnabled(s, t, lockOutcome);
    var l := InnerMove(W.PcOf(s.lock, t), t, lockOutcome, if PcOf(s, t).AtLock? then Held else Released);
    hide InnerMove, W.Next, Progress.Rank, Progress.Spins, Inv;
    Progress.RankFalls(MutexObject(), s.lock, l);
    InnerKeepsSlot(s.lock, l);
    NotTerminated(s, Inner(l));
    StaysSolitary(s, Inner(l));
  }

  lemma NotTerminated(s: State, e: Event)
    requires Next(s, e).Some? && !Terminates(e)
    ensures !Next(s, e).value.terminated
  {
    OnlyThrowTerminates(s, e);
  }

  /** The run continued at its front. */
  lemma {:induction false} RunCons(s: State, e: Event, es: seq<Event>)
    requires Next(s, e).Some?
    ensures Run(s, [e] + es) == Run(Next(s, e).value, es)
    ensures Calls([e] + es) == Calls(es) + if e.Call? then 1 else 0
  {
    hide Next;
    if es == [] {
      assert [e] + es == [e] && [e][..0] == [];
      assert Run(s, []) == Some(s);
    } else {
      RunCons(s, e, es[..|es| - 1]);
      assert ([e] + es)[..|es|] == [e] + es[..|es| - 1];
    }
  }

  /** From every state of the invariant some bounded run without calls leaves no thread inside `Resolve`. */
  lemma {:induction false} ResolutionDrains(s: State, lockOutcome: W.Outcome, outcome: W.Outcome) returns (es: seq<Event>)
    requires Inv(s) && !s.terminated && !outcome.Throw?
    ensures Run(s, es).Some? && Calls(es) == 0 && |es| <= Work(s)
    ensures !Run(s, es).value.terminated && forall t: Tid :: !Resolving(PcOf(Run(s, es).value, t))
    decreases Work(s)
  {
    if forall t: Tid :: !Resolving(PcOf(s, t)) {
      es := [];
    } else {
      var t: Tid :| Resolving(PcOf(s, t));
      var u := SomeoneMoves(s, t, lockOutcome, outcome);
      var e := Move(s, u, lockOutcome, outcome);
      NextInv(s, e);
      OnlyThrowTerminates(s, e);
      assert !e.Call? && !Terminates(e);
      hide Next, Inv, Move, Work;
      var rest := ResolutionDrains(Next(s, e).value, lockOutcome, outcome);
      es := [e] + rest;
      RunCons(s, e, rest);
    }
  }

  lemma OnlyThrowTerminates(s: State, e: Event)
    requires Next(s, e).Some?
    ensures Next(s, e).value.terminated <==> Terminates(e)
  {
    hide W.Next;
  }
}
