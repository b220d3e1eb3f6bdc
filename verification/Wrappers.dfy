/**
 The lazily resolved wrapper as an object: `Mutex`, `RecursiveMutex` and `ReadWriteLock` with their fields, their `Resolve`
 and their operations, each proved against the transition system of `LazyWrapper`.

 A method that stands for one atomic action of a thread is that action's step of the system. `Resolve` and `Operate` run
 the actions in the order of the source; between any two of them the other threads take the steps that a schedule gives,
 which is how the guard's loop ends. Its turns are bounded by the schedule: when it is used up the thread is still spinning.
 */
module Wrappers {
  import opened Common
  import opened AtomicObjects
  import opened LazyWrapper
  import Progress

  class Wrapper<S, Op, R> {
    const primitive: Object<S, Op, R>
    var slot: Option<ProviderId>       // the process-wide provider slot
    var owned: Option<nat>             // _owned
    var resolved: Option<Target>       // _resolved
    var guard: bool                    // _resolutionGuard
    var objects: map<Target, S>        // the primitives: _fallback, and what the factories created
    var log: seq<ProviderId>
    var pcs: map<Tid, Pc<Op, R>>

    ghost function Snapshot(): State<S, Op, R>
      reads this
    {
      State(slot, guard, owned, resolved, log, objects, pcs)
    }

    constructor (primitive: Object<S, Op, R>, slot: Option<ProviderId>)
      ensures this.primitive == primitive && Snapshot() == Init(primitive, slot)
    {
      this.primitive := primitive;
      this.slot := slot;
      owned, resolved, guard := None, None, false;
      objects, log, pcs := map[Fallback := primitive.init], [], map[];
    }

    function Point(t: Tid): Pc<Op, R>
      reads this
      ensures Point(t) == PcOf(Snapshot(), t)
    {
      if t in pcs then pcs[t] else Idle
    }

    method SetProvider(provider: Option<ProviderId>)
      modifies this`slot
      ensures Snapshot() == old(Snapshot()).(slot := provider)
    {
      slot := provider;
    }

    // ------------------------------------------------------------- single actions

    method LoadResolved(t: Tid)
      requires Point(t).AtFastLoad?
      modifies this`pcs
      ensures Next(primitive, old(Snapshot()), Advance(t)) == Some(Snapshot())
    {
      var op := Point(t).op;
      pcs := pcs[t := if resolved.Some? then AtPrimitive(op, resolved.value) else AtGuard(op)];
    }

    /** `test_and_set`: the flag is up afterwards, and the answer is what it was. */
    method TestAndSet(t: Tid) returns (was: bool)
      requires Point(t).AtGuard?
      modifies this`guard, this`pcs
      ensures was == old(guard) && guard
      ensures Next(primitive, old(Snapshot()), Advance(t)) == Some(Snapshot())
    {
      was := guard;
      guard := true;
      if !was { pcs := pcs[t := AtRecheck(Point(t).op)]; }
    }

    method Recheck(t: Tid)
      requires Point(t).AtRecheck?
      modifies this`pcs
      ensures Next(primitive, old(Snapshot()), Advance(t)) == Some(Snapshot())
      ensures Point(t) == if resolved.Some? then AtUnguard(old(Point(t)).op, resolved.value) else AtSlot(old(Point(t)).op)
    {
      var op := Point(t).op;
      pcs := pcs[t := if resolved.Some? then AtUnguard(op, resolved.value) else AtSlot(op)];
    }

    method ReadSlot(t: Tid)
      requires Point(t).AtSlot?
      modifies this`pcs
      ensures Next(primitive, old(Snapshot()), Advance(t)) == Some(Snapshot())
      ensures Point(t) == if slot.Some? then AtFactory(old(Point(t)).op, slot.value) else AtPublish(old(Point(t)).op)
    {
      var op := Point(t).op;
      pcs := pcs[t := if slot.Some? then AtFactory(op, slot.value) else AtPublish(op)];
    }

    method CallFactory(t: Tid, outcome: Outcome)
      requires Point(t).AtFactory?
      modifies this`owned, this`objects, this`log, this`pcs
      ensures Next(primitive, old(Snapshot()), Make(t, outcome)) == Some(Snapshot())
      ensures Point(t) == AtPublish(old(Point(t)).op)
      ensures old(owned).None? ==>
                && owned == (if outcome.Fresh? then Some(|old(log)|) else None)
                && objects == if outcome.Fresh? then old(objects)[Created(|old(log)|) := primitive.init] else old(objects)
    {
      var op, provider := Point(t).op, Point(t).provider;
      if !outcome.Throw? {
        objects := Disown(objects, owned);
        if outcome.Fresh? {
          owned := Some(|log|);
          objects := objects[Created(|log|) := primitive.init];
          log := log + [provider];
        } else {
          owned := None;
        }
      }
      pcs := pcs[t := AtPublish(op)];
    }

    method Publish(t: Tid)
      requires Point(t).AtPublish?
      modifies this`resolved, this`pcs
      ensures Next(primitive, old(Snapshot()), Advance(t)) == Some(Snapshot())
      ensures resolved == Some(Chosen(owned)) && Point(t) == AtUnguard(old(Point(t)).op, resolved.value)
    {
      var op := Point(t).op;
      var target := if owned.Some? then Created(owned.value) else Fallback;
      resolved := Some(target);
      pcs := pcs[t := AtUnguard(op, target)];
    }

    method Clear(t: Tid)
      requires Point(t).AtUnguard?
      modifies this`guard, this`pcs
      ensures Next(primitive, old(Snapshot()), Advance(t)) == Some(Snapshot())
      ensures !guard && Point(t) == AtPrimitive(old(Point(t)).op, old(Point(t)).target)
    {
      var op, target := Point(t).op, Point(t).target;
      guard := false;
      pcs := pcs[t := AtPrimitive(op, target)];
    }

    /** The call on the resolved primitive; it is not `enabled` while it blocks, or with an answer it cannot give. */
    method Invoke(t: Tid, result: R) returns (enabled: bool)
      requires Point(t).AtPrimitive?
      modifies this`objects, this`pcs
      ensures enabled == Next(primitive, old(Snapshot()), Apply(t, result)).Some?
      ensures if enabled then Next(primitive, old(Snapshot()), Apply(t, result)) == Some(Snapshot())
              else Snapshot() == old(Snapshot())
      ensures Point(t) == if enabled then AtReturn(old(Point(t)).op, result) else old(Point(t))
    {
      var op, target := Point(t).op, Point(t).target;
      if target !in objects { return false; }
      var after := primitive.apply(objects[target], t, op, result);
      if after.None? { return false; }
      objects := objects[target := after.value];
      pcs := pcs[t := AtReturn(op, result)];
      return true;
    }

    /** Any event of the system, if it is enabled. */
    method Perform(e: Event<Op, R>) returns (enabled: bool)
      modifies this
      ensures enabled == Next(primitive, old(Snapshot()), e).Some?
      ensures if enabled then Next(primitive, old(Snapshot()), e) == Some(Snapshot()) else Snapshot() == old(Snapshot())
    {
      enabled := true;
      match e
      case Install(p) => SetProvider(p);
      case Call(t, op) =>
        if Point(t).Idle? { pcs := pcs[t := AtFastLoad(op)]; } else { enabled := false; }
      case Make(t, outcome) =>
        if Point(t).AtFactory? { CallFactory(t, outcome); } else { enabled := false; }
      case Apply(t, result) =>
        if Point(t).AtPrimitive? { enabled := Invoke(t, result); } else { enabled := false; }
      case Advance(t) =>
        match Point(t)
        case AtFastLoad(_) => LoadResolved(t);
        case AtGuard(_) => var was := TestAndSet(t);
        case AtRecheck(_) => Recheck(t);
        case AtSlot(_) => ReadSlot(t);
        case AtPublish(_) => Publish(t);
        case AtUnguard(_, _) => Clear(t);
        case AtReturn(_, _) => pcs := pcs[t := Idle];
        case _ => enabled := false;
    }

    // ----------------------------------------------------------- whole operations

    /** The other threads take those of the given steps that are enabled in their turn; `run` is what happened since `start`. */
    method Interfere(t: Tid, steps: seq<Event<Op, R>>, ghost start: State<S, Op, R>, ghost past: seq<Event<Op, R>>)
        returns (ghost run: seq<Event<Op, R>>)
      requires Run(primitive, start, past) == Some(Snapshot())
      modifies this
      ensures Run(primitive, start, run) == Some(Snapshot())
      ensures Point(t) == old(Point(t))
      ensures Snapshot() == AfterOthers(primitive, old(Snapshot()), t, steps)
    {
      run := past;
      for i := 0 to |steps|
        invariant Run(primitive, start, run) == Some(Snapshot())
        invariant Point(t) == old(Point(t))
        invariant Snapshot() == AfterOthers(primitive, old(Snapshot()), t, steps[..i])
      {
        var e := steps[i];
        assert steps[..i + 1] == steps[..i] + [e];
        if e.Install? || e.thread != t {
          ghost var before := Snapshot();
          var enabled := Perform(e);
          if enabled {
            OthersStay(primitive, before, e);
            run := Extended(primitive, start, run, e);
          }
        }
      }
      assert steps[..|steps|] == steps;
    }

    /**
     The constructor of `ResolutionGuard`: the loop ends when the flag was down, or with the schedule, and then the flag is
     still up. When nobody interferes and the flag is down it enters at once.
     */
    method EnterGuard(t: Tid, schedule: seq<seq<Event<Op, R>>>, ghost start: State<S, Op, R>, ghost past: seq<Event<Op, R>>)
        returns (entered: bool, ghost run: seq<Event<Op, R>>)
      requires Run(primitive, start, past) == Some(Snapshot()) && Point(t).AtGuard?
      modifies this
      ensures Run(primitive, start, run) == Some(Snapshot())
      ensures Point(t) == if entered then AtRecheck(old(Point(t)).op) else old(Point(t))
      ensures !entered && schedule != [] ==> guard
      ensures schedule != [] && schedule[0] == [] && !old(guard) ==>
                entered && Snapshot() == old(Snapshot()).(guard := true, pcs := pcs)
    {
      run := past;
      for i := 0 to |schedule|
        invariant Run(primitive, start, run) == Some(Snapshot())
        invariant Point(t) == old(Point(t))
        invariant i == 0 ==> Snapshot() == old(Snapshot())
        invariant i > 0 ==> guard && (schedule[0] == [] ==> old(guard))
      {
        run := Interfere(t, schedule[i], start, run);
        var was := TestAndSet(t);
        run := Extended(primitive, start, run, Advance(t));
        if !was { return true, run; }
      }
      entered := false;
    }

    /**
     The choice: one read of the slot, the factory call if a provider is installed there, and the store. When nobody
     interferes it is what that provider makes, or else the fallback.
     */
    method Choose(t: Tid, schedule: seq<seq<Event<Op, R>>>, outcome: Outcome,
                  ghost start: State<S, Op, R>, ghost past: seq<Event<Op, R>>)
        returns (ghost run: seq<Event<Op, R>>)
      requires Run(primitive, start, past) == Some(Snapshot()) && Point(t).AtSlot?
      modifies this
      ensures Run(primitive, start, run) == Some(Snapshot())
      ensures Point(t).AtUnguard? && Point(t).op == old(Point(t)).op
      ensures Undisturbed(schedule) && old(owned).None? ==>
                if old(slot).Some? && outcome.Fresh? then
                  && resolved == Some(Created(|old(log)|))
                  && objects == old(objects)[Created(|old(log)|) := primitive.init]
                else
                  resolved == Some(Fallback) && objects == old(objects)
    {
      hide Next, Point, Run;
      run := Interfere(t, Turn(schedule, 1), start, past);
      ReadSlot(t);
      run := Extended(primitive, start, run, Advance(t));
      if Point(t).AtFactory? {
        run := Interfere(t, Turn(schedule, 2), start, run);
        CallFactory(t, outcome);
        run := Extended(primitive, start, run, Make(t, outcome));
      }
      run := Interfere(t, Turn(schedule, 3), start, run);
      Publish(t);
      run := Extended(primitive, start, run, Advance(t));
    }

    /** The guarded section, from the re-check to the destructor of the guard. */
    method ResolveGuarded(t: Tid, schedule: seq<seq<Event<Op, R>>>, outcome: Outcome,
                          ghost start: State<S, Op, R>, ghost past: seq<Event<Op, R>>)
        returns (ghost run: seq<Event<Op, R>>)
      requires Run(primitive, start, past) == Some(Snapshot()) && Point(t).AtRecheck?
      modifies this
      ensures Run(primitive, start, run) == Some(Snapshot())
      ensures Point(t).AtPrimitive? && Point(t).op == old(Point(t)).op
      ensures Undisturbed(schedule) && (old(resolved).None? ==> old(owned).None?) ==>
                && resolved == Some(Choice(old(Snapshot()), outcome))
                && objects == ChoiceObjects(primitive, old(Snapshot()), outcome)
    {
      hide Next, Point, Run;
      run := Interfere(t, Turn(schedule, 0), start, past);
      Recheck(t);
      run := Extended(primitive, start, run, Advance(t));
      if Point(t).AtSlot? { run := Choose(t, schedule, outcome, start, run); }
      run := Interfere(t, Turn(schedule, 4), start, run);
      Clear(t);
      run := Extended(primitive, start, run, Advance(t));
    }

    /**
     `Resolve` of thread `t`: the others take the steps `spinning[i]` before its i-th turn of the guard's loop and
     `guarded[i]` before its i-th action inside, and `outcome` is how a factory call ends. It yields the published pointer,
     unless the schedule ends while the thread still spins.
     */
    method Resolve(t: Tid, spinning: seq<seq<Event<Op, R>>>, guarded: seq<seq<Event<Op, R>>>, outcome: Outcome)
        returns (target: Option<Target>, ghost run: seq<Event<Op, R>>)
      requires Inv(primitive, Snapshot()) && Point(t).AtFastLoad?
      modifies this
      ensures Inv(primitive, Snapshot()) && Run(primitive, old(Snapshot()), run) == Some(Snapshot())
      ensures target.Some? ==> Point(t) == AtPrimitive(old(Point(t)).op, target.value) && resolved == target
      ensures target.None? ==> Point(t) == AtGuard(old(Point(t)).op)
      ensures Undisturbed(spinning) && Undisturbed(guarded) && spinning != [] && !old(guard) ==>
                target == Some(Choice(old(Snapshot()), outcome)) &&
                objects == ChoiceObjects(primitive, old(Snapshot()), outcome)
    {
      ghost var start := Snapshot();
      LoadResolved(t);
      run := Extended(primitive, start, [], Advance(t));
      if Point(t).AtGuard? {
        var entered;
        entered, run := EnterGuard(t, spinning, start, run);
        if !entered {
          RunInv(primitive, start, run);
          return None, run;
        }
        run := ResolveGuarded(t, guarded, outcome, start, run);
      }
      RunInv(primitive, start, run);
      assert Knows(Snapshot(), Point(t));
      target := Some(Point(t).target);
    }

    /**
     The call on the resolved primitive, tried again while it blocks and the schedule lasts. It completes when nobody
     interferes and the primitive can answer so.
     */
    method Await(t: Tid, result: R, patience: seq<seq<Event<Op, R>>>, ghost start: State<S, Op, R>, ghost past: seq<Event<Op, R>>)
        returns (completed: bool, ghost run: seq<Event<Op, R>>)
      requires Inv(primitive, start) && Run(primitive, start, past) == Some(Snapshot()) && Point(t).AtPrimitive?
      modifies this
      ensures Inv(primitive, Snapshot()) && Run(primitive, start, run) == Some(Snapshot())
      ensures Point(t) == if completed then AtReturn(old(Point(t)).op, result) else old(Point(t))
      ensures resolved == Some(old(Point(t)).target)
      ensures patience != [] && patience[0] == [] && Next(primitive, old(Snapshot()), Apply(t, result)).Some? ==> completed
      ensures Undisturbed(patience) && completed ==> Next(primitive, old(Snapshot()), Apply(t, result)) == Some(Snapshot())
    {
      hide Next, Guarded, Ownership, GuardExclusive;
      completed, run := false, past;
      var i := 0;
      while !completed && i < |patience|
        invariant Run(primitive, start, run) == Some(Snapshot())
        invariant Point(t) == if completed then AtReturn(old(Point(t)).op, result) else old(Point(t))
        invariant completed ==> resolved == Some(old(Point(t)).target)
        invariant i <= |patience| && (i == 0 ==> !completed && Snapshot() == old(Snapshot()))
        invariant Undisturbed(patience) ==>
                    if completed then Next(primitive, old(Snapshot()), Apply(t, result)) == Some(Snapshot())
                    else Snapshot() == old(Snapshot())
        invariant i > 0 && patience[0] == [] && Next(primitive, old(Snapshot()), Apply(t, result)).Some? ==> completed
      {
        run := Interfere(t, patience[i], start, run);
        RunInv(primitive, start, run);
        assert Knows(Snapshot(), Point(t));
        completed := Invoke(t, result);
        if completed { run := Extended(primitive, start, run, Apply(t, result)); }
        i := i + 1;
      }
      RunInv(primitive, start, run);
      assert Knows(Snapshot(), Point(t));
    }

    /**
     One whole operation, `Resolve().Op()`: it resolves, waits while the primitive blocks, and completes with `result` unless
     the schedule ends first.
     */
    method Operate(t: Tid, op: Op, result: R, spinning: seq<seq<Event<Op, R>>>, guarded: seq<seq<Event<Op, R>>>,
                   outcome: Outcome, patience: seq<seq<Event<Op, R>>>)
        returns (completed: bool, ghost run: seq<Event<Op, R>>)
      requires Inv(primitive, Snapshot()) && Point(t).Idle?
      modifies this
      ensures Inv(primitive, Snapshot()) && Run(primitive, old(Snapshot()), run) == Some(Snapshot())
      ensures completed ==> Point(t) == AtReturn(op, result) && resolved.Some?
      ensures !completed ==> Point(t) == AtGuard(op) || (resolved.Some? && Point(t) == AtPrimitive(op, resolved.value))
      ensures Undisturbed(spinning) && Undisturbed(guarded) && Undisturbed(patience) && spinning != [] && patience != [] && !old(guard) ==>
                && resolved == Some(Choice(old(Snapshot()), outcome))
                && (completed <==> primitive.apply(Primitive(primitive, old(Snapshot())), t, op, result).Some?)
                && (completed ==>
                      resolved.value in objects &&
                      primitive.apply(Primitive(primitive, old(Snapshot())), t, op, result) == Some(objects[resolved.value]))
    {
      ghost var start := Snapshot();
      pcs := pcs[t := AtFastLoad(op)];
      ghost var called := Snapshot();
      NextInv(primitive, start, Call(t, op));
      assert Next(primitive, start, Call(t, op)) == Some(called);
      assert Choice(called, outcome) == Choice(start, outcome) && Primitive(primitive, called) == Primitive(primitive, start);
      hide Next, Inv, Choice, Primitive, Run;
      ghost var rest;
      completed, rest := Complete(t, result, spinning, guarded, outcome, patience);
      run := [Call(t, op)] + rest;
      Progress.RunCons(primitive, start, Call(t, op), rest);
    }

    /** The operation from its first load on. */
    method Complete(t: Tid, result: R, spinning: seq<seq<Event<Op, R>>>, guarded: seq<seq<Event<Op, R>>>,
                    outcome: Outcome, patience: seq<seq<Event<Op, R>>>)
        returns (completed: bool, ghost run: seq<Event<Op, R>>)
      requires Inv(primitive, Snapshot()) && Point(t).AtFastLoad?
      modifies this
      ensures Inv(primitive, Snapshot()) && Run(primitive, old(Snapshot()), run) == Some(Snapshot())
      ensures completed ==> Point(t) == AtReturn(old(Point(t)).op, result) && resolved.Some?
      ensures !completed ==>
                Point(t) == AtGuard(old(Point(t)).op) ||
                (resolved.Some? && Point(t) == AtPrimitive(old(Point(t)).op, resolved.value))
      ensures Undisturbed(spinning) && Undisturbed(guarded) && Undisturbed(patience) &&
              spinning != [] && patience != [] && !old(guard) ==>
                && resolved == Some(Choice(old(Snapshot()), outcome))
                && (completed <==> primitive.apply(Primitive(primitive, old(Snapshot())), t, old(Point(t)).op, result).Some?)
                && (completed ==>
                      resolved.value in objects &&
                      primitive.apply(Primitive(primitive, old(Snapshot())), t, old(Point(t)).op, result) ==
                      Some(objects[resolved.value]))
    {
      ghost var start := Snapshot();
      hide Guarded, GuardExclusive;
      var target;
      target, run := Resolve(t, spinning, guarded, outcome);
      completed := false;
      if target.Some? { completed, run := Await(t, result, patience, start, run); }
    }
  }

  /** The state after those of the steps that are not of thread `t` and are enabled in their turn. */
  ghost function AfterOthers<S, Op, R>(obj: Object<S, Op, R>, s: State<S, Op, R>, t: Tid, steps: seq<Event<Op, R>>): State<S, Op, R> {
    if steps == [] then s
    else
      var s1, e := AfterOthers(obj, s, t, steps[..|steps| - 1]), steps[|steps| - 1];
      if (e.Install? || e.thread != t) && Next(obj, s1, e).Some? then Next(obj, s1, e).value else s1
  }

  /** The other threads do nothing. */
  predicate Undisturbed<Op, R>(schedule: seq<seq<Event<Op, R>>>) {
    forall i :: 0 <= i < |schedule| ==> schedule[i] == []
  }

  /** What `Resolve` settles on when nobody interferes. */
  function Choice<S, Op, R>(s: State<S, Op, R>, outcome: Outcome): Target {
    if s.resolved.Some? then s.resolved.value
    else if s.slot.Some? && outcome.Fresh? then Created(|s.log|)
    else Fallback
  }

  /** The state of the primitive that callers believe to use. */
  function Primitive<S, Op, R>(obj: Object<S, Op, R>, s: State<S, Op, R>): S {
    if s.resolved.Some? && s.resolved.value in s.objects then s.objects[s.resolved.value] else obj.init
  }

  function ChoiceObjects<S, Op, R>(obj: Object<S, Op, R>, s: State<S, Op, R>, outcome: Outcome): map<Target, S> {
    if s.resolved.None? && s.slot.Some? && outcome.Fresh? then s.objects[Created(|s.log|) := obj.init] else s.objects
  }

  function Turn<Op, R>(schedule: seq<seq<Event<Op, R>>>, i: nat): seq<Event<Op, R>> {
    if i < |schedule| then schedule[i] else []
  }

  lemma Extended<S, Op, R>(obj: Object<S, Op, R>, s: State<S, Op, R>, es: seq<Event<Op, R>>, e: Event<Op, R>)
      returns (longer: seq<Event<Op, R>>)
    requires Run(obj, s, es).Some?
    ensures longer == es + [e] && Run(obj, s, longer) == Next(obj, Run(obj, s, es).value, e)
  {
    longer := es + [e];
    assert longer[..|es|] == es;
  }
}
