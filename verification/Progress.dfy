/** Resolution makes progress: a spinning thread waits for another that can move, and the work per operation is bounded. */
module Progress {
  import opened Common
  import opened AtomicObjects
  import opened LazyWrapper
  import opened WrapperStability

  /** How many steps an operation still has before it is over. */
  function Rank<Op, R>(pc: Pc<Op, R>): nat {
    match pc
    case Idle => 0
    case AtReturn(_, _) => 1
    case AtPrimitive(_, _) => 2
    case AtUnguard(_, _) => 3
    case AtPublish(_) => 4
    case AtFactory(_, _) => 5
    case AtSlot(_) => 6
    case AtRecheck(_) => 7
    case AtGuard(_) => 8
    case AtFastLoad(_) => 9
  }

  const CALL_RANK := 9

  ghost function Sum(ranks: map<Tid, nat>): nat
    decreases |ranks|
  {
    if ranks == map[] then 0
    else
      var t :| t in ranks;
      ranks[t] + Sum(ranks - {t})
  }

  lemma {:induction false} SumOf(ranks: map<Tid, nat>, t: Tid)
    requires t in ranks
    ensures Sum(ranks) == ranks[t] + Sum(ranks - {t})
    decreases |ranks|
  {
    var u :| u in ranks && Sum(ranks) == ranks[u] + Sum(ranks - {u});
    if u != t {
      SumOf(ranks - {u}, t);
      SumOf(ranks - {t}, u);
      assert ranks - {u} - {t} == ranks - {t} - {u};
    }
  }

  /** Changing one rank changes the sum by as much. */
  lemma SumUpdate(ranks: map<Tid, nat>, t: Tid, rank: nat)
    ensures Sum(ranks[t := rank]) + (if t in ranks then ranks[t] else 0) == Sum(ranks) + rank
  {
    SumOf(ranks[t := rank], t);
    if t in ranks {
      SumOf(ranks, t);
      assert ranks[t := rank] - {t} == ranks - {t};
    } else {
      assert ranks[t := rank] - {t} == ranks;
    }
  }

  function Ranks<Op, R>(pcs: map<Tid, Pc<Op, R>>): map<Tid, nat> { map t | t in pcs :: Rank(pcs[t]) }

  /** What all threads together still have to do. */
  ghost function Work<Op, R>(pcs: map<Tid, Pc<Op, R>>): nat { Sum(Ranks(pcs)) }

  /** Moving one thread changes the work by the change of that thread's rank. */
  lemma WorkGoto<S, Op, R>(s: State<S, Op, R>, t: Tid, pc: Pc<Op, R>)
    ensures Work(s.pcs[t := pc]) + Rank(PcOf(s, t)) == Work(s.pcs) + Rank(pc)
  {
    assert Ranks(s.pcs[t := pc]) == Ranks(s.pcs)[t := Rank(pc)];
    SumUpdate(Ranks(s.pcs), t, Rank(pc));
  }

  /** A turn of the guard's loop that finds the flag set. */
  predicate Spins<S, Op, R>(s: State<S, Op, R>, e: Event<Op, R>) {
    e.Advance? && PcOf(s, e.thread).AtGuard? && s.guard
  }

  /** Only the moving thread's program counter changes, and its rank falls. */
  lemma RankFalls<S, Op, R>(obj: Object<S, Op, R>, s: State<S, Op, R>, e: Event<Op, R>)
    requires Next(obj, s, e).Some? && !e.Install? && !Spins(s, e)
    ensures var pc, pc' := PcOf(s, e.thread), PcOf(Next(obj, s, e).value, e.thread);
            && Next(obj, s, e).value.pcs == s.pcs[e.thread := pc']
            && if e.Call? then Rank(pc) == 0 && Rank(pc') == CALL_RANK else Rank(pc') < Rank(pc)
  {
  }

  /** Every step of an operation but a turn of the spin loop brings it strictly nearer to its end. */
  lemma StepsDecrease<S, Op, R>(obj: Object<S, Op, R>, s: State<S, Op, R>, e: Event<Op, R>)
    requires Next(obj, s, e).Some?
    ensures var s' := Next(obj, s, e).value;
            if e.Install? || Spins(s, e) then Work(s'.pcs) == Work(s.pcs)
            else if e.Call? then Work(s'.pcs) == Work(s.pcs) + CALL_RANK
            else Work(s'.pcs) < Work(s.pcs)
  {
    if !e.Install? && !Spins(s, e) {
      RankFalls(obj, s, e);
      WorkGoto(s, e.thread, PcOf(Next(obj, s, e).value, e.thread));
      hide Next, Rank, PcOf;
    }
  }

  /** The steps of a run that are neither calls, nor installations, nor turns of the spin loop. */
  function Steps<S, Op, R>(obj: Object<S, Op, R>, s: State<S, Op, R>, es: seq<Event<Op, R>>): nat
    requires Run(obj, s, es).Some?
  {
    if es == [] then 0
    else
      var before, e := es[..|es| - 1], es[|es| - 1];
      Steps(obj, s, before) +
      if e.Call? || e.Install? || Spins(Run(obj, s, before).value, e) then 0 else 1
  }

  function Calls<Op, R>(es: seq<Event<Op, R>>): nat {
    if es == [] then 0 else Calls(es[..|es| - 1]) + if es[|es| - 1].Call? then 1 else 0
  }

  /** Bounded work: a run takes at most nine steps per operation called in it, besides what was pending at its start. */
  lemma {:induction false} BoundedWork<S, Op, R>(obj: Object<S, Op, R>, s: State<S, Op, R>, es: seq<Event<Op, R>>)
    requires Run(obj, s, es).Some?
    ensures Steps(obj, s, es) + Work(Run(obj, s, es).value.pcs) <= Work(s.pcs) + CALL_RANK * Calls(es)
  {
    if es != [] {
      BoundedWork(obj, s, es[..|es| - 1]);
      StepsDecrease(obj, Run(obj, s, es[..|es| - 1]).value, es[|es| - 1]);
    }
  }

  /** The thread is inside `Resolve`. */
  predicate Resolving<Op, R>(pc: Pc<Op, R>) {
    pc.AtFastLoad? || pc.AtGuard? || Guarded(pc)
  }

  /** The step that thread `t` can take inside `Resolve`; a factory may end in any way. */
  function Move<S, Op, R>(s: State<S, Op, R>, t: Tid, outcome: Outcome): Event<Op, R> {
    if PcOf(s, t).AtFactory? then Make(t, outcome) else Advance(t)
  }

  /**
   No deadlock: a thread that finds the guard taken spins for a distinct thread that owns the guard, and the owner has
   an enabled step that brings resolution nearer to its end, however its factory call ends.
   */
  lemma SpinnerHasMovingOwner<S, Op, R>(obj: Object<S, Op, R>, s: State<S, Op, R>, t: Tid, outcome: Outcome) returns (owner: Tid)
    requires Inv(obj, s) && Spins(s, Advance(t))
    ensures owner != t && Guarded(PcOf(s, owner))
    ensures Next(obj, s, Move(s, owner, outcome)).Some?
    ensures Work(Next(obj, s, Move(s, owner, outcome)).value.pcs) < Work(s.pcs)
  {
    owner :| Guarded(PcOf(s, owner));
    StepsDecrease(obj, s, Move(s, owner, outcome));
  }

  /** From every reachable state some run without new calls leaves no thread inside `Resolve`. */
  lemma {:induction false} ResolutionDrains<S, Op, R>(obj: Object<S, Op, R>, s: State<S, Op, R>, outcome: Outcome)
      returns (es: seq<Event<Op, R>>)
    requires Inv(obj, s)
    ensures Run(obj, s, es).Some? && Calls(es) == 0 && |es| <= Work(s.pcs)
    ensures forall t :: !Resolving(PcOf(Run(obj, s, es).value, t))
    decreases Work(s.pcs)
  {
    if forall t :: !Resolving(PcOf(s, t)) {
      es := [];
    } else {
      var t :| Resolving(PcOf(s, t));
      if Spins(s, Advance(t)) {
        t := SpinnerHasMovingOwner(obj, s, t, outcome);
      }
      var e := Move(s, t, outcome);
      NextInv(obj, s, e);
      StepsDecrease(obj, s, e);
      var rest := ResolutionDrains(obj, Next(obj, s, e).value, outcome);
      es := [e] + rest;
      RunCons(obj, s, e, rest);
    }
  }

  lemma {:induction false} RunCons<S, Op, R>(obj: Object<S, Op, R>, s: State<S, Op, R>, e: Event<Op, R>, es: seq<Event<Op, R>>)
    requires Next(obj, s, e).Some?
    ensures Run(obj, s, [e] + es) == Run(obj, Next(obj, s, e).value, es)
    ensures Calls([e] + es) == Calls(es) + if e.Call? then 1 else 0
  {
    if es == [] {
      assert [e] + es == [e];
      assert [e][..0] == [];
    } else {
      RunCons(obj, s, e, es[..|es| - 1]);
      assert ([e] + es)[..|es|] == [e] + es[..|es| - 1];
    }
  }

  // ----------------------------------------------------- after the publication

  /** The thread has left the fast path and has not yet come back from the slow one. */
  predicate Slow<Op, R>(pc: Pc<Op, R>) { pc.AtGuard? || Guarded(pc) }

  ghost function SlowThreads<S, Op, R>(s: State<S, Op, R>): set<Tid> { set t | t in s.pcs && Slow(s.pcs[t]) }

  lemma SlowPathClosed<S, Op, R>(obj: Object<S, Op, R>, s: State<S, Op, R>, e: Event<Op, R>, t: Tid)
    requires Next(obj, s, e).Some? && s.resolved.Some?
    ensures Slow(PcOf(Next(obj, s, e).value, t)) ==> Slow(PcOf(s, t))
  {
    OthersStay(obj, s, e);
  }

  /**
   After the publication no thread enters the slow path again: those inside can only leave it. So at most as many slow
   visits remain as threads were inside when the pointer was published.
   */
  lemma {:induction false} SlowPathDrains<S, Op, R>(obj: Object<S, Op, R>, s: State<S, Op, R>, es: seq<Event<Op, R>>)
    requires Inv(obj, s) && s.resolved.Some? && Run(obj, s, es).Some?
    ensures SlowThreads(Run(obj, s, es).value) <= SlowThreads(s)
  {
    if es != [] {
      var before, e := es[..|es| - 1], es[|es| - 1];
      SlowPathDrains(obj, s, before);
      var s1, s2 := Run(obj, s, before).value, Run(obj, s, es).value;
      ResolvedForever(obj, s, before);
      forall t | t in SlowThreads(s2) ensures t in SlowThreads(s1) {
        assert Slow(PcOf(s2, t));
        SlowPathClosed(obj, s1, e, t);
      }
    }
  }
}
