/** What an operation of a deferred signal finds when no other thread takes a step from its first load on. */
module DeferredSignalAlone {
  import opened Common
  import opened Locks
  import opened DeferredSignal
  import opened DeferredSignalWork
  import W = LazyWrapper

  /** The state of the published signal, if there is one. */
  function Meets(s: State): Option<bool> {
    if s.resolved.Some? && s.resolved.value in s.signals then Some(s.signals[s.resolved.value]) else None
  }

  /** The state of the signal that the operation is to find: the published one, or the one that it gets created. */
  function Offered(s: State, outcome: W.Outcome): Option<bool> {
    if s.resolved.Some? then Meets(s)
    else if s.lock.slot.Some? && outcome.Fresh? then Some(s.initiallySet)
    else None
  }

  /** The event is a step of `t` inside its operation; a factory call of the signal ends with `outcome`. */
  predicate StepOf(t: Tid, outcome: W.Outcome, e: Event) {
    ThreadOf(e) == Some(t) && !e.Call? && (e.Make? ==> e.outcome == outcome)
  }

  predicate OnlyBy(t: Tid, outcome: W.Outcome, es: seq<Event>) {
    forall e :: e in es ==> StepOf(t, outcome, e)
  }

  /** How far the operation has come, told from the state `s0` at its first load. */
  predicate OnTheWay(s0: State, s: State, outcome: W.Outcome, pc: Pc) {
    && s.initiallySet == s0.initiallySet && s.lock.slot == s0.lock.slot
    && match pc
       case AtFastLoad(_) => s.resolved == s0.resolved && s.signals == s0.signals
       case AtLock(_) => s.resolved == s0.resolved && s.signals == s0.signals
       case AtRecheck(_) => s.resolved == s0.resolved && s.signals == s0.signals
       case AtSlot(_) => s.resolved.None? && s0.resolved.None?
       case AtFactory(_, _) => s.resolved.None? && s0.resolved.None? && s.lock.slot.Some?
       case AtPublish(_, _) => Offered(s0, outcome) == Some(s.initiallySet)
       case AtUnlock(_, found) => found == s.resolved && Meets(s) == Offered(s0, outcome) && found.Some? == Meets(s).Some?
       case AtSignal(_, id) => s.resolved == Some(id) && Meets(s) == Offered(s0, outcome) && Meets(s).Some?
       case AtReturn(op, r) => r == if Offered(s0, outcome).None? then Unavailable else Due(op, Offered(s0, outcome).value)
       case _ => true
  }

  lemma EnterKeeps(s: State, t: Tid, op: LockOp, pc: Pc)
    requires Enter(s, t, op, pc).Some?
    ensures var s' := Enter(s, t, op, pc).value;
            && PcOf(s', t) == pc && s' == s.(lock := s'.lock, pcs := s'.pcs) && s'.lock.slot == s.lock.slot
  {
  }

  lemma LoadedOnTheWay(s0: State, s: State, t: Tid, outcome: W.Outcome)
    requires Advanced(s, t).Some? && DeferredSignal.Ownership(s) && (PcOf(s, t).AtFastLoad? || PcOf(s, t).AtRecheck?)
    requires OnTheWay(s0, s, outcome, PcOf(s, t))
    ensures OnTheWay(s0, Advanced(s, t).value, outcome, PcOf(Advanced(s, t).value, t))
  {
    var op := PcOf(s, t).op;
    if PcOf(s, t).AtFastLoad? && s.resolved.None? { EnterKeeps(s, t, Lock, AtLock(op)); }
    if PcOf(s, t).AtRecheck? && s.resolved.Some? { EnterKeeps(s, t, Unlock, AtUnlock(op, s.resolved)); }
    hide Enter;
  }

  lemma ReadOnTheWay(s0: State, s: State, t: Tid, outcome: W.Outcome)
    requires Advanced(s, t).Some? && PcOf(s, t).AtSlot?
    requires OnTheWay(s0, s, outcome, PcOf(s, t))
    ensures OnTheWay(s0, Advanced(s, t).value, outcome, PcOf(Advanced(s, t).value, t))
  {
    if s.lock.slot.None? { EnterKeeps(s, t, Unlock, AtUnlock(PcOf(s, t).op, None)); }
    hide Enter;
  }

  lemma StoredOnTheWay(s0: State, s: State, t: Tid, outcome: W.Outcome)
    requires Advanced(s, t).Some? && Knows(s, PcOf(s, t)) && PcOf(s, t).AtPublish?
    requires OnTheWay(s0, s, outcome, PcOf(s, t))
    ensures OnTheWay(s0, Advanced(s, t).value, outcome, PcOf(Advanced(s, t).value, t))
  {
    var op, id := PcOf(s, t).op, PcOf(s, t).id;
    EnterKeeps(s.(resolved := Some(id)), t, Unlock, AtUnlock(op, Some(id)));
    hide Enter, Offered;
  }

  lemma AdvancedOnTheWay(s0: State, s: State, t: Tid, outcome: W.Outcome)
    requires Advanced(s, t).Some? && DeferredSignal.Ownership(s) && Knows(s, PcOf(s, t)) && !PcOf(s, t).AtInterruptLoad?
    requires OnTheWay(s0, s, outcome, PcOf(s, t))
    ensures OnTheWay(s0, Advanced(s, t).value, outcome, PcOf(Advanced(s, t).value, t))
  {
    match PcOf(s, t)
    case AtSlot(_) => ReadOnTheWay(s0, s, t, outcome);
    case AtPublish(_, _) => StoredOnTheWay(s0, s, t, outcome);
    case AtReturn(_, _) =>
    case _ => LoadedOnTheWay(s0, s, t, outcome);
    hide Enter, Meets, Offered;
  }

  lemma InnerOnTheWay(s0: State, s: State, l: LockEvent, outcome: W.Outcome)
    requires Stepped(s, l).Some? && OnTheWay(s0, s, outcome, PcOf(s, l.thread))
    ensures OnTheWay(s0, Stepped(s, l).value, outcome, PcOf(Stepped(s, l).value, l.thread))
  {
    SteppedShared(s, l);
    InnerKeepsSlot(s.lock, l);
    hide W.Next, Offered;
  }

  lemma StaysOffInterrupt(s: State, e: Event, t: Tid)
    requires Next(s, e).Some? && !PcOf(s, t).AtInterruptLoad? && !e.Call?
    ensures !PcOf(Next(s, e).value, t).AtInterruptLoad?
  {
    hide W.Next;
    match e
    case Advance(_) => hide Stepped, Made, Applied;
    case Make(_, _) => hide Stepped, Advanced, Applied;
    case _ => hide Advanced, Made;
  }

  lemma NextOnTheWay(s0: State, s: State, e: Event, t: Tid, outcome: W.Outcome)
    requires Inv(s) && Next(s, e).Some? && StepOf(t, outcome, e) && !PcOf(s, t).AtInterruptLoad?
    requires OnTheWay(s0, s, outcome, PcOf(s, t))
    ensures OnTheWay(s0, Next(s, e).value, outcome, PcOf(Next(s, e).value, t))
  {
    assert ThreadInv(s, t) && DeferredSignal.Ownership(s);
    hide Inv, ThreadInv, Stepped, Advanced, Coupled, OwnsMutex, NoneYet;
    match e
    case Advance(_) => AdvancedOnTheWay(s0, s, t, outcome); hide OnTheWay;
    case Inner(l) => InnerOnTheWay(s0, s, l, outcome); hide OnTheWay;
    case Make(_, _) => hide Applied;
    case Apply(_, _) => hide Made;
  }

  /** The operation of a thread that is alone finds exactly what it was offered, and is answered accordingly. */
  lemma {:induction false} FindsWhatIsOffered(s0: State, es: seq<Event>, t: Tid, outcome: W.Outcome)
    requires Inv(s0) && Run(s0, es).Some? && PcOf(s0, t).AtFastLoad? && OnlyBy(t, outcome, es)
    ensures OnTheWay(s0, Run(s0, es).value, outcome, PcOf(Run(s0, es).value, t))
    ensures !PcOf(Run(s0, es).value, t).AtInterruptLoad?
  {
    if es != [] {
      var before, e := es[..|es| - 1], es[|es| - 1];
      assert e in es;
      FindsWhatIsOffered(s0, before, t, outcome);
      RunInv(s0, before);
      NextOnTheWay(s0, Run(s0, before).value, e, t, outcome);
      StaysOffInterrupt(Run(s0, before).value, e, t);
      hide Next, Inv, OnTheWay;
    }
  }

  /** Alone it stays, and unless its factory throws the program goes on. */
  lemma {:induction false} StaysAlone(s0: State, es: seq<Event>, t: Tid, outcome: W.Outcome)
    requires Solitary(s0, t) && Run(s0, es).Some? && OnlyBy(t, outcome, es) && !outcome.Throw?
    ensures Solitary(Run(s0, es).value, t) && !Run(s0, es).value.terminated
  {
    if es != [] {
      var before, e := es[..|es| - 1], es[|es| - 1];
      assert e in es;
      StaysAlone(s0, before, t, outcome);
      OnlyThrowTerminates(Run(s0, before).value, e);
      StaysSolitary(Run(s0, before).value, e);
      hide Next, Solitary;
    }
  }
}
