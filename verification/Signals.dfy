/**
 `DeferredBinarySignal` as an object, over the wrapper object of its inner mutex; each method is proved against the transition
 system of `DeferredSignal`. As in `Wrappers`, schedules say what the other threads do between the actions of a thread.
 */
module Signals {
  import opened Common
  import opened AtomicObjects
  import opened Locks
  import opened DeferredSignal
  import opened DeferredSignalSnapshot
  import opened DeferredSignalWork
  import opened DeferredSignalAlone
  import Progress
  import Wrappers
  import W = LazyWrapper

  class DeferredBinarySignal {
    const initiallySet: bool
    const mutex: Wrappers.Wrapper<Option<Tid>, LockOp, LockResult>
    var signal: Option<nat>       // _signal
    var resolved: Option<nat>     // _resolved
    var signals: map<nat, bool>
    var log: seq<ProviderId>
    var pcs: map<Tid, Pc>
    var terminated: bool

    ghost function Snapshot(): State
      reads this, mutex
    {
      State(initiallySet, mutex.Snapshot(), signal, resolved, signals, log, pcs, terminated)
    }

    ghost predicate Valid()
      reads this, mutex
    {
      mutex.primitive == MutexObject() && Inv(Snapshot())
    }

    constructor (initiallySet: bool, slot: Option<ProviderId>)
      ensures Valid() && fresh(mutex) && Snapshot() == Init(initiallySet, slot)
    {
      this.initiallySet := initiallySet;
      var m := new Wrappers.Wrapper(MutexObject(), slot);
      mutex := m;
      signal, resolved, signals, log, pcs, terminated := None, None, map[], [], map[], false;
      new;
      InitInv(initiallySet, slot);
    }

    function Point(t: Tid): Pc
      reads this
    {
      if t in pcs then pcs[t] else Idle
    }

    // ------------------------------------------------------------- single actions

    method Call(t: Tid, op: SignalOp)
      requires !terminated && Point(t).Idle?
      modifies this`pcs
      ensures Next(old(Snapshot()), Event.Call(t, op)) == Some(Snapshot())
      ensures Point(t) == if op.GiveFromInterrupt? then AtInterruptLoad else AtFastLoad(op)
    {
      pcs := pcs[t := if op.GiveFromInterrupt? then AtInterruptLoad else AtFastLoad(op)];
    }

    /** The thread calls `lock` or `unlock` on the inner mutex. */
    method EnterMutex(t: Tid, op: LockOp, pc: Pc)
      requires mutex.Point(t).Idle?
      modifies this`pcs, mutex`pcs
      ensures Enter(old(Snapshot()), t, op, pc) == Some(Snapshot())
      ensures Point(t) == pc
    {
      mutex.pcs := mutex.pcs[t := W.AtFastLoad(op)];
      pcs := pcs[t := pc];
    }

    method LoadForInterrupt(t: Tid)
      requires !terminated && Point(t).AtInterruptLoad?
      modifies this`pcs
      ensures Next(old(Snapshot()), Advance(t)) == Some(Snapshot())
      ensures Point(t) == if resolved.Some? then AtSignal(GiveFromInterrupt, resolved.value)
                          else AtReturn(GiveFromInterrupt, Unavailable)
    {
      pcs := pcs[t := if resolved.Some? then AtSignal(GiveFromInterrupt, resolved.value)
                      else AtReturn(GiveFromInterrupt, Unavailable)];
    }

    method LoadResolved(t: Tid)
      requires !terminated && Point(t).AtFastLoad? && mutex.Point(t).Idle?
      modifies this`pcs, mutex`pcs
      ensures Next(old(Snapshot()), Advance(t)) == Some(Snapshot())
      ensures Point(t) == if resolved.Some? then AtSignal(old(Point(t)).op, resolved.value) else AtLock(old(Point(t)).op)
    {
      var op := Point(t).op;
      if resolved.Some? {
        pcs := pcs[t := AtSignal(op, resolved.value)];
      } else {
        EnterMutex(t, Lock, AtLock(op));
      }
    }

    method Recheck(t: Tid)
      requires !terminated && Point(t).AtRecheck? && mutex.Point(t).Idle?
      modifies this`pcs, mutex`pcs
      ensures Next(old(Snapshot()), Advance(t)) == Some(Snapshot())
      ensures Point(t) == if resolved.Some? then AtUnlock(old(Point(t)).op, resolved) else AtSlot(old(Point(t)).op)
    {
      var op := Point(t).op;
      if resolved.Some? {
        EnterMutex(t, Unlock, AtUnlock(op, resolved));
      } else {
        pcs := pcs[t := AtSlot(op)];
      }
    }

    method ReadSlot(t: Tid)
      requires !terminated && Point(t).AtSlot? && mutex.Point(t).Idle?
      modifies this`pcs, mutex`pcs
      ensures Next(old(Snapshot()), Advance(t)) == Some(Snapshot())
      ensures Point(t) == if mutex.slot.Some? then AtFactory(old(Point(t)).op, mutex.slot.value)
                          else AtUnlock(old(Point(t)).op, None)
    {
      var op := Point(t).op;
      if mutex.slot.Some? {
        pcs := pcs[t := AtFactory(op, mutex.slot.value)];
      } else {
        EnterMutex(t, Unlock, AtUnlock(op, None));
      }
    }

    /** `_signal = provider->CreateBinarySignal(_initiallySet)`, which may assign null, and must not throw. */
    method CreateSignal(t: Tid, outcome: W.Outcome)
      requires !terminated && Point(t).AtFactory? && mutex.Point(t).Idle?
      modifies this, mutex`pcs
      ensures Next(old(Snapshot()), Make(t, outcome)) == Some(Snapshot())
      ensures terminated <==> outcome.Throw?
      ensures outcome.Null? ==> Point(t) == AtUnlock(old(Point(t)).op, None)
      ensures outcome.Fresh? ==> Point(t).AtPublish? && Point(t).op == old(Point(t)).op
      ensures outcome.Fresh? ==> Point(t).id in signals && signals[Point(t).id] == initiallySet
      ensures resolved == old(resolved)
    {
      var op, provider := Point(t).op, Point(t).provider;
      match outcome
      case Throw =>
        terminated := true;
      case Null =>
        signals := Drop(signals, signal);
        signal := None;
        EnterMutex(t, Unlock, AtUnlock(op, None));
      case Fresh =>
        var id := |log|;
        signals := Drop(signals, signal)[id := initiallySet];
        signal := Some(id);
        log := log + [provider];
        pcs := pcs[t := AtPublish(op, id)];
    }

    method Publish(t: Tid)
      requires !terminated && Point(t).AtPublish? && mutex.Point(t).Idle?
      modifies this`resolved, this`pcs, mutex`pcs
      ensures Next(old(Snapshot()), Advance(t)) == Some(Snapshot())
      ensures Point(t) == AtUnlock(old(Point(t)).op, Some(old(Point(t)).id)) && resolved == Some(old(Point(t)).id)
    {
      var op, id := Point(t).op, Point(t).id;
      resolved := Some(id);
      EnterMutex(t, Unlock, AtUnlock(op, Some(id)));
    }

    /** One step inside `_mutex.lock()` or `_mutex.unlock()`. */
    method StepMutex(e: LockEvent) returns (enabled: bool)
      requires !terminated && !e.Install? && !e.Call? && (Point(e.thread).AtLock? || Point(e.thread).AtUnlock?)
      requires mutex.primitive == MutexObject()
      modifies this`pcs, mutex
      ensures enabled == Next(old(Snapshot()), Inner(e)).Some?
      ensures if enabled then Next(old(Snapshot()), Inner(e)) == Some(Snapshot()) else Snapshot() == old(Snapshot())
      ensures Point(e.thread) == if enabled && mutex.Point(e.thread).Idle? then Resume(old(Point(e.thread))) else old(Point(e.thread))
    {
      var pc := Point(e.thread);
      enabled := mutex.Perform(e);
      if enabled { pcs := pcs[e.thread := if mutex.Point(e.thread).Idle? then Resume(pc) else pc]; }
    }

    /** The call on the resolved signal. */
    method Use(t: Tid, result: SignalResult) returns (enabled: bool)
      requires !terminated && Point(t).AtSignal?
      modifies this`signals, this`pcs
      ensures enabled == Next(old(Snapshot()), Apply(t, result)).Some?
      ensures if enabled then Next(old(Snapshot()), Apply(t, result)) == Some(Snapshot()) else Snapshot() == old(Snapshot())
      ensures Point(t) == if enabled then AtReturn(old(Point(t)).op, result) else old(Point(t))
      ensures var id := old(Point(t)).id;
              && enabled == (id in old(signals) && SignalApply(old(signals)[id], t, old(Point(t)).op, result).Some?)
              && (enabled ==> signals == old(signals)[
                    id := SignalApply(old(signals)[id], t, old(Point(t)).op, result).value])
      ensures var op, id := old(Point(t)).op, old(Point(t)).id;
              && (enabled <==> id in old(signals) && result == Due(op, old(signals)[id]))
              && (op.Wait? && enabled && result.Succeeded? ==> old(signals)[id])
              && (op.Wait? && enabled && result.Timeout? ==> !old(signals)[id])
              && (enabled ==> signals == old(signals)[id := op.Give? || op.GiveFromInterrupt?])
    {
      var op, id := Point(t).op, Point(t).id;
      if id !in signals { return false; }
      var bit := SignalApply(signals[id], t, op, result);
      if bit.None? { return false; }
      signals := signals[id := bit.value];
      pcs := pcs[t := AtReturn(op, result)];
      return true;
    }

    /** Any event of the system, if it is enabled. */
    method Perform(e: Event) returns (enabled: bool)
      requires Valid()
      modifies this, mutex
      ensures Valid()
      ensures enabled == Next(old(Snapshot()), e).Some?
      ensures if enabled then Next(old(Snapshot()), e) == Some(Snapshot()) else Snapshot() == old(Snapshot())
    {
      ghost var before := Snapshot();
      enabled := Dispatch(e);
      if enabled { NextInv(before, e); }
    }

    method Dispatch(e: Event) returns (enabled: bool)
      requires Valid()
      modifies this, mutex
      ensures enabled == Next(old(Snapshot()), e).Some?
      ensures if enabled then Next(old(Snapshot()), e) == Some(Snapshot()) else Snapshot() == old(Snapshot())
    {
      if terminated { return false; }
      enabled := true;
      match e
      case Install(p) => mutex.SetProvider(p);
      case Call(t, op) =>
        if Point(t).Idle? { Call(t, op); } else { enabled := false; }
      case Make(t, outcome) =>
        if Point(t).AtFactory? { IdleMutex(t); CreateSignal(t, outcome); } else { enabled := false; }
      case Apply(t, result) =>
        if Point(t).AtSignal? { enabled := Use(t, result); } else { enabled := false; }
      case Inner(l) =>
        if !l.Install? && !l.Call? && (Point(l.thread).AtLock? || Point(l.thread).AtUnlock?) {
          enabled := StepMutex(l);
        } else {
          enabled := false;
        }
      case Advance(t) => enabled := Continue(t);
    }

    method Continue(t: Tid) returns (enabled: bool)
      requires Valid() && !terminated
      modifies this, mutex`pcs
      ensures enabled == Next(old(Snapshot()), Advance(t)).Some?
      ensures if enabled then Next(old(Snapshot()), Advance(t)) == Some(Snapshot()) else Snapshot() == old(Snapshot())
    {
      IdleMutex(t);
      enabled := true;
      match Point(t)
      case AtInterruptLoad => LoadForInterrupt(t);
      case AtFastLoad(_) => LoadResolved(t);
      case AtRecheck(_) => Recheck(t);
      case AtSlot(_) => ReadSlot(t);
      case AtPublish(_, _) => Publish(t);
      case AtReturn(_, _) => pcs := pcs[t := Idle];
      case _ => enabled := false;
    }

    /** A thread is inside the inner mutex only where the signal called it. */
    lemma IdleMutex(t: Tid)
      requires Valid()
      ensures !Point(t).AtLock? && !Point(t).AtUnlock? ==> mutex.Point(t).Idle?
    {
      assert ThreadInv(Snapshot(), t);
    }

    // ----------------------------------------------------------- whole operations

    method Interfere(t: Tid, steps: seq<Event>, ghost start: State, ghost past: seq<Event>) returns (ghost run: seq<Event>)
      requires Valid() && Run(start, past) == Some(Snapshot())
      modifies this, mutex
      ensures Valid() && Run(start, run) == Some(Snapshot())
      ensures Point(t) == old(Point(t)) && mutex.Point(t) == old(mutex.Point(t))
      ensures Snapshot() == AfterOthers(old(Snapshot()), t, steps)
      ensures steps == [] ==> run == past
    {
      hide AfterOthers;
      run := past;
      OthersNone(old(Snapshot()), t, steps);
      for i := 0 to |steps|
        invariant Valid() && Run(start, run) == Some(Snapshot())
        invariant Point(t) == old(Point(t)) && mutex.Point(t) == old(mutex.Point(t))
        invariant Snapshot() == AfterOthers(old(Snapshot()), t, steps[..i])
        invariant i == 0 ==> run == past
      {
        var e := steps[i];
        OthersNext(old(Snapshot()), t, steps, i);
        if ThreadOf(e) != Some(t) {
          ghost var before := Snapshot();
          var enabled := Perform(e);
          if enabled {
            OthersStay(before, e, t);
            run := Extended(start, run, e);
          }
        }
      }
      assert steps[..|steps|] == steps;
    }

    /**
     The inner call that the thread is in runs to its end, unless the schedule or the program ends first. A thread that is
     alone finishes it within nine steps.
     */
    method FinishCall(t: Tid, turns: seq<seq<Event>>, lockOutcome: W.Outcome, ghost outcome: W.Outcome,
                      ghost start: State, ghost past: seq<Event>)
        returns (finished: bool, ghost run: seq<Event>)
      requires Valid() && Run(start, past) == Some(Snapshot()) && (Point(t).AtLock? || Point(t).AtUnlock?)
      modifies this, mutex
      ensures Valid() && Run(start, run) == Some(Snapshot())
      ensures Point(t) == if finished then Resume(old(Point(t))) else old(Point(t))
      ensures finished ==> !terminated
      ensures Undisturbed(turns) && OnlyBy(t, outcome, past) ==> OnlyBy(t, outcome, run)
      ensures Solitary(old(Snapshot()), t) && Undisturbed(turns) && |turns| >= 9 ==> finished
    {
      InsideInner(Snapshot(), t);
      assert Solitary(Snapshot(), t) ==> !terminated;
      hide Next, Inv, Solitary, Run, OnlyBy, Progress.Rank;
      run := past;
      for i := 0 to |turns|
        invariant Valid() && Run(start, run) == Some(Snapshot())
        invariant Point(t) == old(Point(t))
        invariant Undisturbed(turns) && OnlyBy(t, outcome, past) ==> OnlyBy(t, outcome, run)
        invariant Solitary(old(Snapshot()), t) && Undisturbed(turns) ==>
                    Solitary(Snapshot(), t) && 0 < Progress.Rank(mutex.Point(t)) <= 9 - i
      {
        finished, run := StepCall(t, turns[i], lockOutcome, outcome, start, run);
        if finished || terminated { return; }
      }
      finished := false;
    }

    /** The others' steps, and then one inside the inner call; it is `finished` when the call has returned. */
    method StepCall(t: Tid, others: seq<Event>, lockOutcome: W.Outcome, ghost outcome: W.Outcome,
                    ghost start: State, ghost past: seq<Event>)
        returns (finished: bool, ghost run: seq<Event>)
      requires Valid() && Run(start, past) == Some(Snapshot()) && (Point(t).AtLock? || Point(t).AtUnlock?)
      modifies this, mutex
      ensures Valid() && Run(start, run) == Some(Snapshot())
      ensures Point(t) == if finished then Resume(old(Point(t))) else old(Point(t))
      ensures finished ==> !terminated
      ensures others == [] && OnlyBy(t, outcome, past) ==> OnlyBy(t, outcome, run)
      ensures Solitary(old(Snapshot()), t) && others == [] ==>
                && !terminated && Solitary(Snapshot(), t)
                && (!finished ==> 0 < Progress.Rank(mutex.Point(t)) < Progress.Rank(old(mutex.Point(t))))
    {
      assert Solitary(Snapshot(), t) ==> !terminated;
      hide Next, Inv, Solitary, Run, OnlyBy;
      run := Interfere(t, others, start, past);
      if terminated { return false, run; }
      finished, run := StepInside(t, lockOutcome, outcome, start, run);
    }

    /** One step inside the inner call, if it is enabled. */
    method StepInside(t: Tid, lockOutcome: W.Outcome, ghost outcome: W.Outcome, ghost start: State, ghost past: seq<Event>)
        returns (finished: bool, ghost run: seq<Event>)
      requires Valid() && !terminated && Run(start, past) == Some(Snapshot()) && (Point(t).AtLock? || Point(t).AtUnlock?)
      modifies this`pcs, mutex
      ensures Valid() && Run(start, run) == Some(Snapshot())
      ensures Point(t) == if finished then Resume(old(Point(t))) else old(Point(t))
      ensures OnlyBy(t, outcome, past) ==> OnlyBy(t, outcome, run)
      ensures Solitary(old(Snapshot()), t) ==>
                && Solitary(Snapshot(), t)
                && (!finished ==> 0 < Progress.Rank(mutex.Point(t)) < Progress.Rank(old(mutex.Point(t))))
    {
      hide Next, Inv, OnlyBy, Solitary, Progress.Rank, InnerMove, Run;
      ghost var before := Snapshot();
      var e := InnerMove(mutex.Point(t), t, lockOutcome, if Point(t).AtLock? then Held else Released);
      InnerMoveIsOwn(mutex.Point(t), t, lockOutcome, if Point(t).AtLock? then Held else Released);
      var enabled := StepMutex(e);
      SolitaryStep(before, Snapshot(), t, lockOutcome, e);
      finished, run := false, past;
      if enabled {
        run := Followed(start, run, before, Inner(e), Snapshot(), t, outcome);
        finished := mutex.Point(t).Idle?;
      }
    }

    /** Under the lock: the re-check, and an attempt if nothing is published; it ends with the call of `unlock`. */
    method Attempt(t: Tid, turns: seq<seq<Event>>, outcome: W.Outcome, ghost start: State, ghost past: seq<Event>)
        returns (ghost run: seq<Event>)
      requires Valid() && Run(start, past) == Some(Snapshot()) && Point(t).AtRecheck?
      modifies this, mutex
      ensures Valid() && Run(start, run) == Some(Snapshot())
      ensures !terminated ==> Point(t).AtUnlock? && Point(t).op == old(Point(t)).op
      ensures Undisturbed(turns) && OnlyBy(t, outcome, past) ==> OnlyBy(t, outcome, run)
    {
      hide Next, Inv, Run, OnlyBy;
      run := Interfere(t, Turn(turns, 0), start, past);
      if terminated { return; }
      ghost var before := Snapshot();
      IdleMutex(t);
      Recheck(t);
      run := Followed(start, run, before, Advance(t), Snapshot(), t, outcome);
      if Point(t).AtSlot? { run := Ask(t, turns, outcome, start, run); }
    }

    /** The read of the slot, and the factory call if a provider is installed. */
    method Ask(t: Tid, turns: seq<seq<Event>>, outcome: W.Outcome, ghost start: State, ghost past: seq<Event>)
        returns (ghost run: seq<Event>)
      requires Valid() && Run(start, past) == Some(Snapshot()) && Point(t).AtSlot?
      modifies this, mutex
      ensures Valid() && Run(start, run) == Some(Snapshot())
      ensures !terminated ==> Point(t).AtUnlock? && Point(t).op == old(Point(t)).op
      ensures Undisturbed(turns) && OnlyBy(t, outcome, past) ==> OnlyBy(t, outcome, run)
    {
      hide Next, Inv, Run, OnlyBy;
      run := Interfere(t, Turn(turns, 1), start, past);
      if terminated { return; }
      ghost var before := Snapshot();
      IdleMutex(t);
      ReadSlot(t);
      run := Followed(start, run, before, Advance(t), Snapshot(), t, outcome);
      if Point(t).AtFactory? { run := Create(t, turns, outcome, start, run); }
    }

    /** The factory call, and the publication if it yields a signal. */
    method Create(t: Tid, turns: seq<seq<Event>>, outcome: W.Outcome, ghost start: State, ghost past: seq<Event>)
        returns (ghost run: seq<Event>)
      requires Valid() && Run(start, past) == Some(Snapshot()) && Point(t).AtFactory?
      modifies this, mutex
      ensures Valid() && Run(start, run) == Some(Snapshot())
      ensures !terminated ==> Point(t).AtUnlock? && Point(t).op == old(Point(t)).op
      ensures Undisturbed(turns) && OnlyBy(t, outcome, past) ==> OnlyBy(t, outcome, run)
    {
      hide Next, Inv, Run, OnlyBy;
      run := Interfere(t, Turn(turns, 2), start, past);
      if terminated { return; }
      ghost var before := Snapshot();
      IdleMutex(t);
      CreateSignal(t, outcome);
      run := Followed(start, run, before, Make(t, outcome), Snapshot(), t, outcome);
      if !terminated && Point(t).AtPublish? { run := Store(t, turns, outcome, start, run); }
    }

    /** The publication of the signal that was created. */
    method Store(t: Tid, turns: seq<seq<Event>>, ghost outcome: W.Outcome, ghost start: State, ghost past: seq<Event>)
        returns (ghost run: seq<Event>)
      requires Valid() && Run(start, past) == Some(Snapshot()) && Point(t).AtPublish?
      modifies this, mutex
      ensures Valid() && Run(start, run) == Some(Snapshot())
      ensures !terminated ==> Point(t) == AtUnlock(old(Point(t)).op, Some(old(Point(t)).id))
      ensures Undisturbed(turns) && OnlyBy(t, outcome, past) ==> OnlyBy(t, outcome, run)
    {
      hide Next, Inv, Run, OnlyBy;
      run := Interfere(t, Turn(turns, 3), start, past);
      if terminated { return; }
      ghost var before := Snapshot();
      IdleMutex(t);
      Publish(t);
      run := Followed(start, run, before, Advance(t), Snapshot(), t, outcome);
    }

    /** The slow path: lock, attempt, unlock; it is not `finished` when the schedule or the program ends first. */
    method ResolveLocked(t: Tid, plan: Plan, ghost start: State, ghost past: seq<Event>)
        returns (finished: bool, ghost run: seq<Event>)
      requires Valid() && Run(start, past) == Some(Snapshot()) && Point(t).AtLock?
      modifies this, mutex
      ensures Valid() && Run(start, run) == Some(Snapshot())
      ensures finished ==> !terminated && (Point(t).AtSignal? || (Point(t).AtReturn? && Point(t).result == Unavailable))
      ensures finished ==> Point(t).op == old(Point(t)).op
      ensures Solitary(start, t) && Uninterrupted(plan) && OnlyBy(t, plan.outcome, past) ==>
                finished && OnlyBy(t, plan.outcome, run)
    {
      AloneSoFar(start, past, Snapshot(), t, plan);
      hide Next, Inv, Run, OnlyBy, Solitary;
      finished, run := FinishCall(t, plan.locking, plan.lockOutcome, plan.outcome, start, past);
      if finished { finished, run := AttemptLocked(t, plan, start, run); }
    }

    /** The same from the end of the inner `lock` on. */
    method AttemptLocked(t: Tid, plan: Plan, ghost start: State, ghost past: seq<Event>)
        returns (finished: bool, ghost run: seq<Event>)
      requires Valid() && Run(start, past) == Some(Snapshot()) && Point(t).AtRecheck?
      modifies this, mutex
      ensures Valid() && Run(start, run) == Some(Snapshot())
      ensures finished ==> !terminated && (Point(t).AtSignal? || (Point(t).AtReturn? && Point(t).result == Unavailable))
      ensures finished ==> Point(t).op == old(Point(t)).op
      ensures Solitary(start, t) && Uninterrupted(plan) && OnlyBy(t, plan.outcome, past) ==>
                finished && OnlyBy(t, plan.outcome, run)
    {
      hide Next, Inv, Run, OnlyBy, Solitary;
      run := Attempt(t, plan.inside, plan.outcome, start, past);
      AloneSoFar(start, run, Snapshot(), t, plan);
      if terminated { return false, run; }
      finished, run := FinishCall(t, plan.unlocking, plan.lockOutcome, plan.outcome, start, run);
    }

    /**
     `Resolve` of thread `t` under the given plan. A signal that it finds is the published one. It finds none, and the
     operation has its answer, if and only if its own attempt failed: it read an empty slot, or got null.
     */
    method Resolve(t: Tid, plan: Plan) returns (r: Resolution, ghost run: seq<Event>)
      requires Valid() && !terminated && Point(t).AtFastLoad? && !Point(t).op.GiveFromInterrupt?
      modifies this, mutex
      ensures Valid() && Run(old(Snapshot()), run) == Some(Snapshot())
      ensures r.Found? ==> Point(t) == AtSignal(old(Point(t)).op, r.id) && resolved == Some(r.id) && r.id in signals
      ensures r.NotFound? ==> Point(t) == AtReturn(old(Point(t)).op, Unavailable)
      ensures !r.Unfinished? ==> !terminated && (r.NotFound? <==> AttemptFailed(old(Snapshot()), run, t))
      ensures old(resolved).Some? ==> r.Found?
      ensures Solitary(old(Snapshot()), t) && Uninterrupted(plan) ==>
                && !r.Unfinished? && (r.Found? <==> Offered(old(Snapshot()), plan.outcome).Some?)
                && (r.Found? ==> Meets(Snapshot()) == Offered(old(Snapshot()), plan.outcome))
    {
      ghost var start := Snapshot();
      assert Run(start, []) == Some(start);
      hide Next, Inv, AttemptFailed, Solitary, Run, OnTheWay, Offered, Meets, Uninterrupted;
      IdleMutex(t);
      LoadResolved(t);
      run := Followed(start, [], start, Advance(t), Snapshot(), t, plan.outcome);
      if Point(t).AtLock? {
        var finished;
        finished, run := ResolveLocked(t, plan, start, run);
        if !finished { return Unfinished, run; }
      }
      AttemptDecides(start, run, Snapshot(), t);
      OfferDecides(start, run, Snapshot(), t, plan.outcome);
      if Point(t).AtSignal? {
        SignalIsPublished(Snapshot(), t);
        r := Found(Point(t).id);
      } else {
        r := NotFound;
      }
    }

    /** What the operation answers once `Resolve` has ended: the signal's `result`, if it can give it, or `Unavailable`. */
    method Answer(t: Tid, r: Resolution, result: SignalResult, ghost start: State, ghost past: seq<Event>)
        returns (answer: Option<SignalResult>, ghost run: seq<Event>)
      requires Valid() && Run(start, past) == Some(Snapshot()) && PcOf(start, t).Idle?
      requires !r.Unfinished? ==> !terminated && !Point(t).Idle? && !Point(t).AtInterruptLoad? && !Point(t).op.GiveFromInterrupt?
      requires r.Found? ==> Point(t) == AtSignal(Point(t).op, r.id) && resolved == Some(r.id) && r.id in signals
      requires r.NotFound? ==> Point(t) == AtReturn(Point(t).op, Unavailable)
      modifies this`signals, this`pcs
      ensures Valid() && Run(start, run) == Some(Snapshot())
      ensures answer.Some? ==> !r.Unfinished? && Point(t) == AtReturn(old(Point(t)).op, answer.value)
      ensures answer.Some? ==> (answer.value == Unavailable <==> AttemptFailed(start, run, t))
      ensures r.NotFound? <==> answer == Some(Unavailable)
      ensures r.Found? ==> old(Meets(Snapshot())).Some?
      ensures r.Found? ==> answer == if result == Due(old(Point(t)).op, old(Meets(Snapshot())).value) then Some(result) else None
      ensures answer.Some? && answer.value != Unavailable ==> AnsweredLast(start, run, t, old(Point(t)).op, result)
      ensures answer.Some? && answer.value != Unavailable ==>
                && answer.value == result && resolved.Some? && resolved.value in signals
                && signals[resolved.value] == old(Point(t)).op.Give?
    {
      hide Next, Inv, AttemptFailed;
      run, answer := past, None;
      match r
      case Unfinished =>
      case NotFound =>
        answer := Some(Unavailable);
        AttemptDecides(start, run, Snapshot(), t);
      case Found(_) =>
        ghost var s1 := Snapshot();
        var enabled := Use(t, result);
        if enabled {
          run := Followed(start, run, s1, Apply(t, result), Snapshot(), t, W.Null);
          answer := Some(result);
          AttemptDecides(start, run, Snapshot(), t);
        }
    }

    /**
     One whole `Give`, `Wait` or `Reset`. It answers `Unavailable` if and only if its own attempt failed, never when a
     signal was published before; otherwise the signal answers `result`, if it can when it is asked.
     */
    method Operate(t: Tid, op: SignalOp, result: SignalResult, plan: Plan) returns (answer: Option<SignalResult>, ghost run: seq<Event>)
      requires Valid() && !terminated && Point(t).Idle? && !op.GiveFromInterrupt?
      modifies this, mutex
      ensures Valid() && Run(old(Snapshot()), run) == Some(Snapshot())
      ensures answer.Some? ==> Point(t) == AtReturn(op, answer.value)
      ensures answer.Some? ==> (answer.value == Unavailable <==> AttemptFailed(old(Snapshot()), run, t))
      ensures old(resolved).Some? ==> answer != Some(Unavailable)
      ensures answer.Some? && answer.value != Unavailable ==>
                && answer.value == result && resolved.Some? && resolved.value in signals
                && signals[resolved.value] == op.Give?
      ensures answer.Some? && answer.value != Unavailable ==> AnsweredLast(old(Snapshot()), run, t, op, result)
      ensures Solitary(old(Snapshot()), t) && Uninterrupted(plan) ==>
                match Offered(old(Snapshot()), plan.outcome)
                case None => answer == Some(Unavailable)
                case Some(isSet) => answer == if result == Due(op, isSet) then Some(result) else None
    {
      ghost var start := Snapshot();
      Call(t, op);
      run := Followed(start, [], start, Event.Call(t, op), Snapshot(), t, W.Null);
      SolitaryCall(start, Snapshot(), t, op, plan.outcome);
      hide Next, Inv, AttemptFailed, Run, Solitary, Offered, Meets, AnsweredLast, Uninterrupted, Due;
      answer, run := Complete(t, result, plan, start, run);
    }

    /** The operation from its first load on. */
    method Complete(t: Tid, result: SignalResult, plan: Plan, ghost start: State, ghost past: seq<Event>)
        returns (answer: Option<SignalResult>, ghost run: seq<Event>)
      requires Valid() && !terminated && Point(t).AtFastLoad? && !Point(t).op.GiveFromInterrupt?
      requires Run(start, past) == Some(Snapshot()) && PcOf(start, t).Idle?
      modifies this, mutex
      ensures Valid() && Run(start, run) == Some(Snapshot())
      ensures answer.Some? ==> Point(t) == AtReturn(old(Point(t)).op, answer.value)
      ensures answer.Some? ==> (answer.value == Unavailable <==> AttemptFailed(start, run, t))
      ensures old(resolved).Some? ==> answer != Some(Unavailable)
      ensures answer.Some? && answer.value != Unavailable ==>
                && answer.value == result && resolved.Some? && resolved.value in signals
                && signals[resolved.value] == old(Point(t)).op.Give?
                && AnsweredLast(start, run, t, old(Point(t)).op, result)
      ensures Solitary(old(Snapshot()), t) && Uninterrupted(plan) ==>
                match Offered(old(Snapshot()), plan.outcome)
                case None => answer == Some(Unavailable)
                case Some(isSet) => answer == if result == Due(old(Point(t)).op, isSet) then Some(result) else None
    {
      hide Next, Inv, AttemptFailed, Run, Solitary, Offered, AnsweredLast, Uninterrupted, Due;
      var r, rest := Resolve(t, plan);
      RunConcat(start, past, rest);
      answer, run := Answer(t, r, result, start, past + rest);
    }

    /** `GiveFromInterrupt`: one load, and the published signal or `Unavailable`; the inner mutex is not touched. */
    method GiveFromInterruptContext(t: Tid) returns (answer: SignalResult, ghost run: seq<Event>)
      requires Valid() && !terminated && Point(t).Idle?
      modifies this`signals, this`pcs
      ensures Valid() && Run(old(Snapshot()), run) == Some(Snapshot())
      ensures Point(t) == AtReturn(GiveFromInterrupt, answer)
      ensures answer == if resolved.Some? then Succeeded else Unavailable
      ensures if resolved.Some? then signals == old(signals)[resolved.value := true] else signals == old(signals)
    {
      hide Next, Inv;
      ghost var start := Snapshot();
      Call(t, GiveFromInterrupt);
      run := Followed(start, [], start, Event.Call(t, GiveFromInterrupt), Snapshot(), t, W.Null);
      ghost var s0 := Snapshot();
      LoadForInterrupt(t);
      run := Followed(start, run, s0, Advance(t), Snapshot(), t, W.Null);
      answer := Unavailable;
      if Point(t).AtSignal? {
        ghost var s1 := Snapshot();
        SignalIsPublished(s1, t);
        var enabled := Use(t, Succeeded);
        run := Followed(start, run, s1, Apply(t, Succeeded), Snapshot(), t, W.Null);
        answer := Succeeded;
      }
    }
  }

  /** A signal of the installed provider, a deferred one, or the exception of the provider's factory. */
  datatype Creation = Direct(isSet: bool) | Deferred(handle: DeferredBinarySignal) | Propagates

  /** `CreateBinarySignal`: it never yields null; without a provider, or with one that yields null, the signal is deferred. */
  method CreateBinarySignal(slot: Option<ProviderId>, outcome: W.Outcome, initiallySet: bool) returns (c: Creation)
    ensures c.Direct? <==> slot.Some? && outcome.Fresh?
    ensures c.Propagates? <==> slot.Some? && outcome.Throw?
    ensures c.Direct? ==> c.isSet == initiallySet
    ensures c.Deferred? ==> fresh(c.handle) && c.handle.Valid() && c.handle.Snapshot() == Init(initiallySet, slot)
  {
    if slot.Some? {
      match outcome
      case Fresh => return Direct(initiallySet);
      case Throw => return Propagates;
      case Null =>
    }
    var deferred := new DeferredBinarySignal(initiallySet, slot);
    c := Deferred(deferred);
  }

  /** What the others do around the thread's actions, and how the factory calls end. */
  datatype Plan = Plan(
    locking: seq<seq<Event>>,
    inside: seq<seq<Event>>,
    unlocking: seq<seq<Event>>,
    lockOutcome: W.Outcome,
    outcome: W.Outcome)

  /** The state after those of the steps that are not of thread `t` and are enabled in their turn. */
  ghost function AfterOthers(s: State, t: Tid, steps: seq<Event>): State {
    if steps == [] then s
    else
      var s1, e := AfterOthers(s, t, steps[..|steps| - 1]), steps[|steps| - 1];
      if ThreadOf(e) != Some(t) && Next(s1, e).Some? then Next(s1, e).value else s1
  }

  lemma OthersNone(s: State, t: Tid, steps: seq<Event>)
    ensures AfterOthers(s, t, steps[..0]) == s
  {
  }

  lemma OthersNext(s: State, t: Tid, steps: seq<Event>, i: nat)
    requires i < |steps|
    ensures var s1 := AfterOthers(s, t, steps[..i]);
            AfterOthers(s, t, steps[..i + 1]) ==
            if ThreadOf(steps[i]) != Some(t) && Next(s1, steps[i]).Some? then Next(s1, steps[i]).value else s1
  {
    assert steps[..i + 1][..i] == steps[..i];
  }

  /** The other threads do nothing. */
  predicate Undisturbed(turns: seq<seq<Event>>) {
    forall i :: 0 <= i < |turns| ==> turns[i] == []
  }

  /** Nobody interferes, the inner calls get the steps that they need, and the factory of the signal does not throw. */
  predicate Uninterrupted(plan: Plan) {
    && Undisturbed(plan.locking) && Undisturbed(plan.inside) && Undisturbed(plan.unlocking)
    && |plan.locking| >= 9 && |plan.unlocking| >= 9 && !plan.outcome.Throw?
  }

  /** The last event of the run is the operation's effect on the published signal, and the answer is what it was due. */
  ghost predicate AnsweredLast(start: State, run: seq<Event>, t: Tid, op: SignalOp, result: SignalResult) {
    && run != [] && run[|run| - 1] == Apply(t, result) && Run(start, run[..|run| - 1]).Some?
    && var isSet := Meets(Run(start, run[..|run| - 1]).value);
       isSet.Some? && result == Due(op, isSet.value)
  }

  datatype Resolution = Found(id: nat) | NotFound | Unfinished

  function Turn(turns: seq<seq<Event>>, i: nat): seq<Event> {
    if i < |turns| then turns[i] else []
  }

  /** The run continued by a step that is a step of the system, which keeps the invariant. */
  lemma Followed(start: State, past: seq<Event>, s: State, e: Event, s': State, t: Tid, outcome: W.Outcome)
      returns (run: seq<Event>)
    requires Run(start, past) == Some(s) && Inv(s) && Next(s, e) == Some(s')
    ensures run == past + [e] && Run(start, run) == Some(s') && Inv(s')
    ensures OnlyBy(t, outcome, past) && StepOf(t, outcome, e) ==> OnlyBy(t, outcome, run)
  {
    run := Extended(start, past, e);
    NextInv(s, e);
  }

  /** As long as only `t` moves, it stays alone, and the program goes on. */
  lemma AloneSoFar(start: State, run: seq<Event>, s: State, t: Tid, plan: Plan)
    requires Run(start, run) == Some(s)
    ensures Solitary(start, t) && Uninterrupted(plan) && OnlyBy(t, plan.outcome, run) ==> Solitary(s, t) && !s.terminated
  {
    if Solitary(start, t) && Uninterrupted(plan) && OnlyBy(t, plan.outcome, run) { StaysAlone(start, run, t, plan.outcome); }
  }

  /** Alone, an operation finds the signal that it is offered, if any. */
  lemma OfferDecides(start: State, run: seq<Event>, s: State, t: Tid, outcome: W.Outcome)
    requires Inv(start) && Run(start, run) == Some(s) && PcOf(start, t).AtFastLoad?
    requires PcOf(s, t).AtSignal? || (PcOf(s, t).AtReturn? && PcOf(s, t).result == Unavailable)
    ensures OnlyBy(t, outcome, run) ==>
              && (PcOf(s, t).AtSignal? <==> Offered(start, outcome).Some?)
              && (PcOf(s, t).AtSignal? ==> Meets(s) == Offered(start, outcome))
  {
    if OnlyBy(t, outcome, run) { FindsWhatIsOffered(start, run, t, outcome); }
    hide Run, Inv, OnlyBy;
  }

  /** Where `Resolve` ends, and with which answer the operation does, is decided by its own attempt. */
  lemma AttemptDecides(start: State, run: seq<Event>, s: State, t: Tid)
    requires Run(start, run) == Some(s) && (PcOf(start, t).Idle? || PcOf(start, t).AtFastLoad?)
    ensures PcOf(s, t).AtSignal? ==> !AttemptFailed(start, run, t)
    ensures PcOf(s, t).AtReturn? && !PcOf(s, t).op.GiveFromInterrupt? ==>
              (PcOf(s, t).result == Unavailable <==> AttemptFailed(start, run, t))
  {
    UnavailableExactly(start, run, t);
  }

  /** Alone, the thread's step in the inner call is enabled and brings it nearer to its end. */
  lemma SolitaryStep(s: State, s': State, t: Tid, lockOutcome: W.Outcome, e: LockEvent)
    requires PcOf(s, t).AtLock? || PcOf(s, t).AtUnlock?
    requires e == InnerMove(W.PcOf(s.lock, t), t, lockOutcome, if PcOf(s, t).AtLock? then Held else Released)
    requires Next(s, Inner(e)).Some? ==> Next(s, Inner(e)) == Some(s')
    ensures Solitary(s, t) ==>
              && Next(s, Inner(e)).Some? && Solitary(s', t)
              && Progress.Rank(W.PcOf(s'.lock, t)) < Progress.Rank(W.PcOf(s.lock, t))
    ensures !W.PcOf(s'.lock, t).Idle? ==> 0 < Progress.Rank(W.PcOf(s'.lock, t))
  {
    if Solitary(s, t) { SolitaryInnerMove(s, t, lockOutcome); }
    RankZero(W.PcOf(s'.lock, t));
    hide Next, Solitary, InnerMove, Progress.Rank;
  }

  lemma InnerMoveIsOwn(inner: W.Pc<LockOp, LockResult>, t: Tid, lockOutcome: W.Outcome, result: LockResult)
    ensures var e := InnerMove(inner, t, lockOutcome, result);
            e.thread == t && !e.Install? && !e.Call?
  {
  }

  /** A call by a thread that is alone leaves it alone, and what it is offered as it was. */
  lemma SolitaryCall(s: State, s': State, t: Tid, op: SignalOp, outcome: W.Outcome)
    requires Next(s, Event.Call(t, op)) == Some(s')
    ensures Solitary(s, t) ==> Solitary(s', t)
    ensures Offered(s', outcome) == Offered(s, outcome)
  {
    if Solitary(s, t) { StaysSolitary(s, Event.Call(t, op)); }
    hide Inv, Solitary;
  }

  lemma InsideInner(s: State, t: Tid)
    requires Inv(s) && (PcOf(s, t).AtLock? || PcOf(s, t).AtUnlock?)
    ensures 0 < Progress.Rank(W.PcOf(s.lock, t)) <= 9
  {
    assert ThreadInv(s, t);
  }

  lemma SignalIsPublished(s: State, t: Tid)
    requires Inv(s) && PcOf(s, t).AtSignal?
    ensures s.resolved == Some(PcOf(s, t).id) && PcOf(s, t).id in s.signals
  {
    assert ThreadInv(s, t);
  }

  lemma {:induction false} RunConcat(s: State, es: seq<Event>, more: seq<Event>)
    requires Run(s, es).Some?
    ensures Run(s, es + more) == Run(Run(s, es).value, more)
  {
    if more == [] {
      assert es + more == es;
    } else {
      RunConcat(s, es, more[..|more| - 1]);
      assert (es + more)[..|es + more| - 1] == es + more[..|more| - 1];
    }
  }

  lemma Extended(s: State, es: seq<Event>, e: Event) returns (longer: seq<Event>)
    requires Run(s, es).Some?
    ensures longer == es + [e] && Run(s, longer) == Next(Run(s, es).value, e)
  {
    longer := es + [e];
    assert longer[..|es|] == es;
  }
}
