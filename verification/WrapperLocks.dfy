/** What the refinement gives for the three wrappers: statements about every run, in terms callers can observe. */
module WrapperLocks {
  import opened Common
  import opened AtomicObjects
  import opened LazyWrapper
  import opened WrapperRefinement
  import opened Locks

  type MutexEvent = Event<LockOp, LockResult>
  type SharedEvent = Event<SharedOp, LockResult>

  /**
   `Mutex` excludes: at most one thread is between the return of `lock` (or of a successful `try_lock`) and its call of
   `unlock`, in every run, with the provider slot changing at any step.
   */
  lemma MutexExcludes(slot: Option<ProviderId>, es: seq<MutexEvent>, t: Tid, u: Tid)
    requires Run(MutexObject(), Init(MutexObject(), slot), es).Some?
    ensures var trace := Trace(MutexObject(), Init(MutexObject(), slot), es);
            && Inside(LockHolding(), trace, t) <= 1
            && (t != u && Inside(LockHolding(), trace, t) >= 1 ==> Inside(LockHolding(), trace, u) <= 0)
  {
    var trace := Trace(MutexObject(), Init(MutexObject(), slot), es);
    Linearizable(MutexObject(), slot, es);
    MutexBalance(Effects(trace), t);
    MutexBalance(Effects(trace), u);
    InsideIsHeld(LockHolding(), trace, t);
    InsideIsHeld(LockHolding(), trace, u);
  }

  /**
   `RecursiveMutex` keeps depth: on the primitive that was chosen, a thread's depth is its acquisitions less its
   releases through the wrapper; and while one thread is inside no other is.
   */
  lemma RecursiveDepth(slot: Option<ProviderId>, es: seq<MutexEvent>, t: Tid, u: Tid)
    requires Run(RecursiveObject(), Init(RecursiveObject(), slot), es).Some?
    ensures var s := Run(RecursiveObject(), Init(RecursiveObject(), slot), es).value;
            var trace := Trace(RecursiveObject(), Init(RecursiveObject(), slot), es);
            && (s.resolved.Some? ==>
                  s.resolved.value in s.objects &&
                  DepthOf(s.objects[s.resolved.value], t) == Balance(LockHolding(), Effects(trace), t))
            && (t != u && Inside(LockHolding(), trace, t) >= 1 ==> Inside(LockHolding(), trace, u) <= 0)
  {
    var trace := Trace(RecursiveObject(), Init(RecursiveObject(), slot), es);
    Linearizable(RecursiveObject(), slot, es);
    RecursiveBalance(Effects(trace), t);
    RecursiveBalance(Effects(trace), u);
    InsideIsHeld(LockHolding(), trace, t);
    InsideIsHeld(LockHolding(), trace, u);
  }

  /** A thread acquires a `RecursiveMutex` only at an instant when every other thread's depth is zero. */
  lemma RecursiveAcquiresAlone(slot: Option<ProviderId>, es: seq<MutexEvent>, t: Tid, u: Tid)
    requires Run(RecursiveObject(), Init(RecursiveObject(), slot), es + [Apply(t, Held)]).Some? && t != u
    ensures Run(RecursiveObject(), Init(RecursiveObject(), slot), es).Some?
    ensures Balance(LockHolding(), Effects(Trace(RecursiveObject(), Init(RecursiveObject(), slot), es)), u) == 0
  {
    TraceSnoc(RecursiveObject(), Init(RecursiveObject(), slot), es, Apply(t, Held));
    var trace := Trace(RecursiveObject(), Init(RecursiveObject(), slot), es);
    var s := Run(RecursiveObject(), Init(RecursiveObject(), slot), es).value;
    Linearizable(RecursiveObject(), slot, es);
    Simulates(RecursiveObject(), s, Apply(t, Held));
    RecursiveBalance(Effects(trace), u);
    AcquiresAlone(Abs(RecursiveObject(), s), t, PcOf(s, t).op, u);
    hide Next, RecursiveApply, Abs, Inv;
  }

  /**
   `ReadWriteLock` never has a writer together with another holder, and its reader count is the successful shared
   acquisitions less the shared releases.
   */
  lemma ReadersAndWriters(slot: Option<ProviderId>, es: seq<SharedEvent>, t: Tid, u: Tid)
    requires Run(SharedObject(), Init(SharedObject(), slot), es).Some?
    ensures var s := Run(SharedObject(), Init(SharedObject(), slot), es).value;
            var trace := Trace(SharedObject(), Init(SharedObject(), slot), es);
            && (s.resolved.Some? ==>
                  s.resolved.value in s.objects &&
                  |s.objects[s.resolved.value].readers| == Total(SharedHolding(), Effects(trace)))
            && (t != u && Inside(ExclusiveHolding(), trace, t) >= 1 ==> Inside(ExclusiveHolding(), trace, u) <= 0)
            && (Inside(ExclusiveHolding(), trace, t) >= 1 ==> Inside(SharedHolding(), trace, u) <= 0)
  {
    var trace := Trace(SharedObject(), Init(SharedObject(), slot), es);
    Linearizable(SharedObject(), slot, es);
    SharedBalance(Effects(trace), t);
    SharedBalance(Effects(trace), u);
    InsideIsHeld(ExclusiveHolding(), trace, t);
    InsideIsHeld(ExclusiveHolding(), trace, u);
    InsideIsHeld(SharedHolding(), trace, u);
  }

  /**
   When an acquisition is granted: a thread that has resolved the `Mutex` can acquire it exactly when no thread holds it, can
   release it exactly when it holds it itself, and can always be refused by `try_lock`.
   */
  lemma MutexGrants(slot: Option<ProviderId>, es: seq<MutexEvent>, t: Tid)
    requires Run(MutexObject(), Init(MutexObject(), slot), es).Some?
    requires PcOf(Run(MutexObject(), Init(MutexObject(), slot), es).value, t).AtPrimitive?
    ensures var s := Run(MutexObject(), Init(MutexObject(), slot), es).value;
            var h := Effects(Trace(MutexObject(), Init(MutexObject(), slot), es));
            var op := PcOf(s, t).op;
            && (op.Lock? || op.TryLock? ==>
                  (Next(MutexObject(), s, Apply(t, Held)).Some? <==> Unheld(LockHolding(), h, None)))
            && (op.TryLock? ==> Next(MutexObject(), s, Apply(t, Refused)).Some?)
            && (op.Unlock? ==> (Next(MutexObject(), s, Apply(t, Released)).Some? <==> Balance(LockHolding(), h, t) == 1))
  {
    var s := Run(MutexObject(), Init(MutexObject(), slot), es).value;
    Linearizable(MutexObject(), slot, es);
    MutexAnswers(Effects(Trace(MutexObject(), Init(MutexObject(), slot), es)), t);
    CompletesAsAtomic(MutexObject(), s, t, Held);
    CompletesAsAtomic(MutexObject(), s, t, Refused);
    CompletesAsAtomic(MutexObject(), s, t, Released);
    hide Next, Run, Trace, Inv, Balance, AtomicRun, Abs, Effects, Unheld;
  }

  /**
   A thread that has resolved the `RecursiveMutex` can acquire it exactly when every other thread's depth is zero, whatever
   its own, and can release it exactly when its own is not.
   */
  lemma RecursiveGrants(slot: Option<ProviderId>, es: seq<MutexEvent>, t: Tid)
    requires Run(RecursiveObject(), Init(RecursiveObject(), slot), es).Some?
    requires PcOf(Run(RecursiveObject(), Init(RecursiveObject(), slot), es).value, t).AtPrimitive?
    ensures var s := Run(RecursiveObject(), Init(RecursiveObject(), slot), es).value;
            var h := Effects(Trace(RecursiveObject(), Init(RecursiveObject(), slot), es));
            var op := PcOf(s, t).op;
            && (op.Lock? || op.TryLock? ==>
                  (Next(RecursiveObject(), s, Apply(t, Held)).Some? <==> Unheld(LockHolding(), h, Some(t))))
            && (op.TryLock? ==> Next(RecursiveObject(), s, Apply(t, Refused)).Some?)
            && (op.Unlock? ==> (Next(RecursiveObject(), s, Apply(t, Released)).Some? <==> Balance(LockHolding(), h, t) > 0))
  {
    var s := Run(RecursiveObject(), Init(RecursiveObject(), slot), es).value;
    Linearizable(RecursiveObject(), slot, es);
    RecursiveAnswers(Effects(Trace(RecursiveObject(), Init(RecursiveObject(), slot), es)), t);
    CompletesAsAtomic(RecursiveObject(), s, t, Held);
    CompletesAsAtomic(RecursiveObject(), s, t, Refused);
    CompletesAsAtomic(RecursiveObject(), s, t, Released);
    hide Next, Run, Trace, Inv, Balance, AtomicRun, Abs, Effects, Unheld;
  }

  /**
   A thread that has resolved the `ReadWriteLock` can acquire it shared exactly when no thread holds it exclusively, and
   exclusively exactly when no thread holds it at all; it can release what it holds, and nothing else.
   */
  lemma SharedGrants(slot: Option<ProviderId>, es: seq<SharedEvent>, t: Tid)
    requires Run(SharedObject(), Init(SharedObject(), slot), es).Some?
    requires PcOf(Run(SharedObject(), Init(SharedObject(), slot), es).value, t).AtPrimitive?
    ensures var s := Run(SharedObject(), Init(SharedObject(), slot), es).value;
            var h := Effects(Trace(SharedObject(), Init(SharedObject(), slot), es));
            var op := PcOf(s, t).op;
            && (op.op.Lock? || op.op.TryLock? ==>
                  (Next(SharedObject(), s, Apply(t, Held)).Some? <==>
                     Unheld(ExclusiveHolding(), h, None) && (op.Exclusive? ==> Unheld(SharedHolding(), h, None))))
            && (op.op.TryLock? ==> Next(SharedObject(), s, Apply(t, Refused)).Some?)
            && (op.op.Unlock? ==>
                  (Next(SharedObject(), s, Apply(t, Released)).Some? <==>
                     if op.Exclusive? then Balance(ExclusiveHolding(), h, t) == 1 else Balance(SharedHolding(), h, t) > 0))
  {
    var s := Run(SharedObject(), Init(SharedObject(), slot), es).value;
    Linearizable(SharedObject(), slot, es);
    SharedAnswers(Effects(Trace(SharedObject(), Init(SharedObject(), slot), es)), t, PcOf(s, t).op.op);
    CompletesAsAtomic(SharedObject(), s, t, Held);
    CompletesAsAtomic(SharedObject(), s, t, Refused);
    CompletesAsAtomic(SharedObject(), s, t, Released);
    hide Next, Run, Trace, Inv, Balance, AtomicRun, Abs, Effects, Unheld;
  }
}
