/**
 `DeferredBinarySignal`: a second lazy resolution, with its own retry policy, on top of a `Mutex` that is itself resolved
 lazily. The inner mutex is the machine of `LazyWrapper`, step by step, and both resolutions read the same slot.
 */
module DeferredSignal {
  import opened Common
  import opened AtomicObjects
  import opened Locks
  import W = LazyWrapper
  import WrapperRefinement

  datatype SignalOp = Give | GiveFromInterrupt | Wait | Reset
  datatype SignalResult = Succeeded | Unavailable | Timeout

  /** A binary signal: giving sets it, a successful wait consumes it, and a wait times out only while it is unset. */
  function SignalApply(bit: bool, t: Tid, op: SignalOp, r: SignalResult): Option<bool> {
    match op
    case Give => if r.Succeeded? then Some(true) else None
    case GiveFromInterrupt => if r.Succeeded? then Some(true) else None
    case Wait => if r.Succeeded? && bit then Some(false) else if r.Timeout? && !bit then Some(false) else None
    case Reset => if r.Succeeded? then Some(false) else None
  }

  /** What a binary signal owes an operation: only a wait times out, and exactly while the signal is unset. */
  function Due(op: SignalOp, isSet: bool): SignalResult {
    if op.Wait? && !isSet then Timeout else Succeeded
  }

  function SignalObject(initiallySet: bool): Object<bool, SignalOp, SignalResult> { Object(initiallySet, SignalApply) }

  type LockState = W.State<Option<Tid>, LockOp, LockResult>
  type LockEvent = W.Event<LockOp, LockResult>

  datatype Pc =
    | Idle
    | AtInterruptLoad                                // GiveFromInterrupt: _resolved.load(acquire)
    | AtFastLoad(op: SignalOp)                       // _resolved.load(acquire)
    | AtLock(op: SignalOp)                           // inside _mutex.lock()
    | AtRecheck(op: SignalOp)                        // _resolved.load(relaxed)
    | AtSlot(op: SignalOp)                           // Provider()
    | AtFactory(op: SignalOp, provider: ProviderId)  // provider->CreateBinarySignal()
    | AtPublish(op: SignalOp, id: nat)               // _resolved.store(..., release)
    | AtUnlock(op: SignalOp, found: Option<nat>)     // inside _mutex.unlock()
    | AtSignal(op: SignalOp, id: nat)                // the call on the resolved signal
    | AtReturn(op: SignalOp, result: SignalResult)

  datatype State = State(
    initiallySet: bool,
    lock: LockState,             // _mutex; its slot is the process-wide provider slot
    signal: Option<nat>,         // _signal
    resolved: Option<nat>,
    signals: map<nat, bool>,     // the signals that exist, and whether they are set
    log: seq<ProviderId>,        // log[i] is the provider that created signal i
    pcs: map<Tid, Pc>,
    terminated: bool)            // an exception left a noexcept function

  datatype Event =
    | Install(provider: Option<ProviderId>)
    | Call(thread: Tid, op: SignalOp)
    | Advance(thread: Tid)
    | Make(thread: Tid, outcome: W.Outcome)
    | Apply(thread: Tid, result: SignalResult)
    | Inner(step: LockEvent)     // a step inside _mutex.lock() or _mutex.unlock()

  function Init(initiallySet: bool, slot: Option<ProviderId>): State {
    State(initiallySet, W.Init(MutexObject(), slot), None, None, map[], [], map[], false)
  }

  function PcOf(s: State, t: Tid): Pc {
    if t in s.pcs then s.pcs[t] else Idle
  }

  function Goto(s: State, t: Tid, pc: Pc): State {
    s.(pcs := s.pcs[t := pc])
  }

  /** Thread `t` calls `lock` or `unlock` on the inner mutex. */
  function Enter(s: State, t: Tid, op: LockOp, pc: Pc): Option<State> {
    if W.PcOf(s.lock, t).Idle? then Some(Goto(s.(lock := W.Goto(s.lock, t, W.AtFastLoad(op))), t, pc)) else None
  }

  function Advanced(s: State, t: Tid): Option<State> {
    match PcOf(s, t)
    case AtInterruptLoad =>
      Some(Goto(s, t, if s.resolved.Some? then AtSignal(GiveFromInterrupt, s.resolved.value)
                      else AtReturn(GiveFromInterrupt, Unavailable)))
    case AtFastLoad(op) =>
      if s.resolved.Some? then Some(Goto(s, t, AtSignal(op, s.resolved.value))) else Enter(s, t, Lock, AtLock(op))
    case AtRecheck(op) =>
      if s.resolved.Some? then Enter(s, t, Unlock, AtUnlock(op, s.resolved)) else Some(Goto(s, t, AtSlot(op)))
    case AtSlot(op) =>
      if s.lock.slot.Some? then Some(Goto(s, t, AtFactory(op, s.lock.slot.value)))
      else Enter(s, t, Unlock, AtUnlock(op, None))
    case AtPublish(op, id) =>
      Enter(s.(resolved := Some(id)), t, Unlock, AtUnlock(op, Some(id)))
    case AtReturn(_, _) => Some(Goto(s, t, Idle))
    case _ => None
  }

  /** Assigning to `_signal` destroys the signal it held. */
  function Drop(signals: map<nat, bool>, signal: Option<nat>): map<nat, bool> {
    if signal.Some? then signals - {signal.value} else signals
  }

  function Made(s: State, t: Tid, outcome: W.Outcome): Option<State> {
    match PcOf(s, t)
    case AtFactory(op, p) =>
      (match outcome
       case Throw => Some(s.(terminated := true))
       case Null => Enter(s.(signal := None, signals := Drop(s.signals, s.signal)), t, Unlock, AtUnlock(op, None))
       case Fresh =>
         var id := |s.log|;
         Some(Goto(s.(signal := Some(id), signals := Drop(s.signals, s.signal)[id := s.initiallySet], log := s.log + [p]),
                   t, AtPublish(op, id))))
    case _ => None
  }

  function Applied(s: State, t: Tid, result: SignalResult): Option<State> {
    match PcOf(s, t)
    case AtSignal(op, id) =>
      if id !in s.signals then None else
      (match SignalApply(s.signals[id], t, op, result)
       case None => None
       case Some(bit) => Some(Goto(s.(signals := s.signals[id := bit]), t, AtReturn(op, result))))
    case _ => None
  }

  /** Where a thread goes when the inner call that it was in has returned. */
  function Resume(pc: Pc): Pc {
    match pc
    case AtLock(op) => AtRecheck(op)
    case AtUnlock(op, Some(id)) => AtSignal(op, id)
    case AtUnlock(op, None) => AtReturn(op, Unavailable)
    case _ => pc
  }

  function Stepped(s: State, e: LockEvent): Option<State> {
    if e.Install? || e.Call? then None else
    var pc := PcOf(s, e.thread);
    if !pc.AtLock? && !pc.AtUnlock? then None else
    match W.Next(MutexObject(), s.lock, e)
    case None => None
    case Some(l) => Some(Goto(s.(lock := l), e.thread, if W.PcOf(l, e.thread).Idle? then Resume(pc) else pc))
  }

  function Next(s: State, e: Event): Option<State> {
    if s.terminated then None else
    match e
    case Install(p) => Some(s.(lock := s.lock.(slot := p)))
    case Call(t, op) =>
      if PcOf(s, t).Idle? then
        Some(Goto(s, t, if op.GiveFromInterrupt? then AtInterruptLoad else AtFastLoad(op)))
      else None
    case Advance(t) => Advanced(s, t)
    case Make(t, outcome) => Made(s, t, outcome)
    case Apply(t, result) => Applied(s, t, result)
    case Inner(l) => Stepped(s, l)
  }

  function Run(s: State, es: seq<Event>): Option<State> {
    if es == [] then Some(s)
    else
      match Run(s, es[..|es| - 1])
      case None => None
      case Some(s1) => Next(s1, es[|es| - 1])
  }

  function ThreadOf(e: Event): Option<Tid> {
    match e
    case Install(_) => None
    case Inner(l) => if l.Install? then None else Some(l.thread)
    case _ => Some(e.thread)
  }

  // ---------------------------------------------------------------- invariant

  /** The owner of the mutex that the inner wrapper implements. */
  ghost function Holder(s: State): Option<Tid>
    requires W.Inv(MutexObject(), s.lock)
  {
    WrapperRefinement.Abs(MutexObject(), s.lock)
  }

  /** Between the effect of the inner `lock` and the effect of the inner `unlock`. */
  predicate OwnsMutex(s: State, t: Tid) {
    var pc, inner := PcOf(s, t), W.PcOf(s.lock, t);
    || pc.AtRecheck? || pc.AtSlot? || pc.AtFactory? || pc.AtPublish?
    || (pc.AtLock? && inner.AtReturn?)
    || (pc.AtUnlock? && !inner.AtReturn?)
  }

  /** The outer and the inner program counter of a thread belong together. */
  predicate Coupled(pc: Pc, inner: W.Pc<LockOp, LockResult>) {
    if pc.AtLock? then !inner.Idle? && inner.op == Lock
    else if pc.AtUnlock? then !inner.Idle? && inner.op == Unlock
    else inner.Idle?
  }

  ghost predicate Knows(s: State, pc: Pc) {
    && (pc.AtRecheck? && s.resolved.None? ==> s.signal.None?)
    && (pc.AtSlot? || pc.AtFactory? ==> s.resolved.None? && s.signal.None?)
    && (pc.AtPublish? ==> s.resolved.None? && s.signal == Some(pc.id) && s.signals == map[pc.id := s.initiallySet])
    && (pc.AtUnlock? && pc.found.Some? ==> s.resolved == pc.found)
    && (pc.AtSignal? ==> s.resolved == Some(pc.id))
    && (pc.AtFastLoad? || pc.AtLock? || pc.AtRecheck? || pc.AtSlot? || pc.AtFactory? || pc.AtPublish? || pc.AtUnlock?
        ==> !pc.op.GiveFromInterrupt?)
  }

  /** At most one signal was created, `_signal` still holds it, and only it can be what was published. */
  ghost predicate Ownership(s: State) {
    && |s.log| <= 1
    && s.signal == (if s.log == [] then None else Some(0))
    && s.signals.Keys == (if s.signal.Some? then {s.signal.value} else {})
    && (s.resolved.Some? ==> s.signal == s.resolved)
  }

  /** Nobody is inside and nothing is published only while `_signal` is null, except at the publication itself. */
  ghost predicate NoneYet(s: State, t: Tid) {
    OwnsMutex(s, t) && !PcOf(s, t).AtPublish? && s.resolved.None? ==> s.signal.None?
  }

  /** Everything that the invariant says of one thread. */
  ghost predicate ThreadInv(s: State, t: Tid)
    requires W.Inv(MutexObject(), s.lock)
  {
    && Coupled(PcOf(s, t), W.PcOf(s.lock, t))
    && (OwnsMutex(s, t) <==> Holder(s) == Some(t))
    && Knows(s, PcOf(s, t)) && NoneYet(s, t)
  }

  ghost predicate Inv(s: State) {
    && W.Inv(MutexObject(), s.lock)
    && Ownership(s)
    && (forall t: Tid :: ThreadInv(s, t))
    && (Holder(s).None? && s.resolved.None? ==> s.signal.None?)
  }

  lemma InitInv(initiallySet: bool, slot: Option<ProviderId>)
    ensures Inv(Init(initiallySet, slot))
  {
    W.InitInv(MutexObject(), slot);
  }

  /** The step of the inner mutex inside a step of the signal. */
  function LockStep(s: State, e: Event): LockEvent {
    match e
    case Install(p) => W.Install(p)
    case Inner(l) => l
    case _ => W.Call(e.thread, if PcOf(s, e.thread).AtFastLoad? then Lock else Unlock)
  }

  lemma InnerKeepsSlot(l: LockState, e: LockEvent)
    requires W.Next(MutexObject(), l, e).Some? && !e.Install?
    ensures W.Next(MutexObject(), l, e).value.slot == l.slot
  {
  }

  lemma NextLock(s: State, e: Event)
    requires Next(s, e).Some?
    ensures Next(s, e).value.lock == s.lock || W.Next(MutexObject(), s.lock, LockStep(s, e)) == Some(Next(s, e).value.lock)
    ensures e.Inner? ==> W.Next(MutexObject(), s.lock, e.step) == Some(Next(s, e).value.lock)
  {
  }

  lemma PcsStay(s: State, e: Event, t: Tid)
    requires Next(s, e).Some? && ThreadOf(e) != Some(t)
    ensures PcOf(Next(s, e).value, t) == PcOf(s, t)
  {
    hide W.Next;
    match e
    case Advance(_) => hide Stepped, Made, Applied;
    case Make(_, _) => hide Stepped, Advanced, Applied;
    case _ => hide Advanced, Made;
  }

  lemma OthersStay(s: State, e: Event, t: Tid)
    requires Next(s, e).Some? && ThreadOf(e) != Some(t)
    ensures PcOf(Next(s, e).value, t) == PcOf(s, t) && W.PcOf(Next(s, e).value.lock, t) == W.PcOf(s.lock, t)
  {
    NextLock(s, e);
    PcsStay(s, e, t);
    hide Next, W.Next, PcOf;
    if Next(s, e).value.lock != s.lock { W.OthersStay(MutexObject(), s.lock, LockStep(s, e)); }
  }

  lemma SteppedCoupled(s: State, l: LockEvent)
    requires Stepped(s, l).Some? && Coupled(PcOf(s, l.thread), W.PcOf(s.lock, l.thread))
    ensures Coupled(PcOf(Stepped(s, l).value, l.thread), W.PcOf(Stepped(s, l).value.lock, l.thread))
  {
    W.OwnStep(MutexObject(), s.lock, l);
    hide W.Next;
  }

  lemma EnterCoupled(s: State, t: Tid, op: LockOp, pc: Pc)
    requires Enter(s, t, op, pc).Some?
    ensures PcOf(Enter(s, t, op, pc).value, t) == pc
    ensures W.PcOf(Enter(s, t, op, pc).value.lock, t) == W.AtFastLoad(op)
  {
  }

  lemma AdvancedCoupled(s: State, t: Tid)
    requires Advanced(s, t).Some? && Coupled(PcOf(s, t), W.PcOf(s.lock, t))
    ensures Coupled(PcOf(Advanced(s, t).value, t), W.PcOf(Advanced(s, t).value.lock, t))
    ensures OwnsMutex(Advanced(s, t).value, t) == OwnsMutex(s, t)
  {
    match PcOf(s, t)
    case AtFastLoad(op) =>
      if s.resolved.None? { EnterCoupled(s, t, Lock, AtLock(op)); }
    case AtRecheck(op) =>
      if s.resolved.Some? { EnterCoupled(s, t, Unlock, AtUnlock(op, s.resolved)); }
    case AtSlot(op) =>
      if s.lock.slot.None? { EnterCoupled(s, t, Unlock, AtUnlock(op, None)); }
    case AtPublish(op, id) =>
      EnterCoupled(s.(resolved := Some(id)), t, Unlock, AtUnlock(op, Some(id)));
    case _ =>
  }

  lemma NextCoupled(s: State, e: Event, t: Tid)
    requires Next(s, e).Some? && Coupled(PcOf(s, t), W.PcOf(s.lock, t))
    ensures Coupled(PcOf(Next(s, e).value, t), W.PcOf(Next(s, e).value.lock, t))
  {
    if ThreadOf(e) != Some(t) {
      OthersStay(s, e, t);
      hide Next;
    } else if e.Inner? {
      SteppedCoupled(s, e.step);
      hide Stepped;
    } else if e.Advance? {
      AdvancedCoupled(s, t);
      hide Advanced;
    } else {
      hide Stepped, Advanced;
    }
  }

  /**
   What one step does to the owner of the inner mutex. It follows from the refinement of the inner wrapper: only the
   effect of an inner `lock` makes an owner, when there is none, and only that owner's inner `unlock` removes it.
   */
  lemma NextHolder(s: State, e: Event)
    requires Inv(s) && Next(s, e).Some?
    ensures W.Inv(MutexObject(), Next(s, e).value.lock)
    ensures if e.Inner? && e.step.Apply? then
              if PcOf(s, e.step.thread).AtLock? then
                Holder(s).None? && Holder(Next(s, e).value) == Some(e.step.thread)
              else
                Holder(s) == Some(e.step.thread) && Holder(Next(s, e).value).None?
            else Holder(Next(s, e).value) == Holder(s)
  {
    NextLock(s, e);
    if e.Inner? { W.OwnStep(MutexObject(), s.lock, e.step); }
    hide Next, W.Next;
    if Next(s, e).value.lock != s.lock || e.Inner? {
      WrapperRefinement.Simulates(MutexObject(), s.lock, LockStep(s, e));
    }
    if e.Inner? { assert ThreadInv(s, e.step.thread); }
  }

  lemma SteppedOwnsMutex(s: State, l: LockEvent)
    requires Stepped(s, l).Some? && Coupled(PcOf(s, l.thread), W.PcOf(s.lock, l.thread))
    ensures OwnsMutex(Stepped(s, l).value, l.thread) ==
            if l.Apply? then PcOf(s, l.thread).AtLock? else OwnsMutex(s, l.thread)
  {
    W.OwnStep(MutexObject(), s.lock, l);
    hide W.Next;
  }

  lemma NextOwnsMutex(s: State, e: Event, t: Tid)
    requires Next(s, e).Some? && Coupled(PcOf(s, t), W.PcOf(s.lock, t))
    ensures OwnsMutex(Next(s, e).value, t) ==
            if e.Inner? && e.step.Apply? && t == e.step.thread then PcOf(s, t).AtLock? else OwnsMutex(s, t)
  {
    if ThreadOf(e) != Some(t) {
      OthersStay(s, e, t);
      hide Next;
    } else if e.Inner? {
      SteppedOwnsMutex(s, e.step);
      hide Stepped;
    } else if e.Advance? {
      AdvancedCoupled(s, t);
      hide Advanced, OwnsMutex;
    } else {
      hide Stepped, Advanced;
    }
  }

  lemma SteppedShared(s: State, l: LockEvent)
    requires Stepped(s, l).Some?
    ensures Stepped(s, l).value == s.(lock := Stepped(s, l).value.lock, pcs := Stepped(s, l).value.pcs)
  {
    hide W.Next;
  }

  /** What a step of thread `t` may write; without a thread it is an installation. */
  ghost predicate OnlyOwnerWrites(s: State, s': State, t: Option<Tid>) {
    && (t.None? || !OwnsMutex(s, t.value) || s.resolved.Some? ==>
          s'.signal == s.signal && s'.resolved == s.resolved && s'.log == s.log)
    && (s.resolved.None? && (t.None? || !OwnsMutex(s, t.value)) ==> s'.signals == s.signals)
    && s'.initiallySet == s.initiallySet
    && Ownership(s')
  }

  lemma AdvancedShared(s: State, t: Tid)
    requires Advanced(s, t).Some? && Ownership(s) && Knows(s, PcOf(s, t))
    ensures OnlyOwnerWrites(s, Advanced(s, t).value, Some(t))
  {
  }

  lemma MadeShared(s: State, t: Tid, outcome: W.Outcome)
    requires Made(s, t, outcome).Some? && Ownership(s) && Knows(s, PcOf(s, t))
    ensures OnlyOwnerWrites(s, Made(s, t, outcome).value, Some(t))
  {
  }

  lemma AppliedShared(s: State, t: Tid, result: SignalResult)
    requires Applied(s, t, result).Some? && Ownership(s) && Knows(s, PcOf(s, t))
    ensures OnlyOwnerWrites(s, Applied(s, t, result).value, Some(t))
  {
    hide SignalApply;
  }

  /** Only the owner of the inner mutex writes `_signal` and `_resolved`, and nobody does once a pointer is published. */
  lemma SharedStays(s: State, e: Event)
    requires Inv(s) && Next(s, e).Some?
    ensures OnlyOwnerWrites(s, Next(s, e).value, ThreadOf(e))
  {
    if ThreadOf(e).Some? { assert ThreadInv(s, ThreadOf(e).value); }
    hide Stepped, Advanced, Made, Applied, OwnsMutex, Knows;
    match e
    case Advance(t) => AdvancedShared(s, t);
    case Make(t, outcome) => MadeShared(s, t, outcome);
    case Apply(t, result) => AppliedShared(s, t, result);
    case Inner(l) => SteppedShared(s, l);
    case _ =>
  }

  lemma NextKnowsOther(s: State, e: Event, t: Tid)
    requires Inv(s) && Next(s, e).Some? && ThreadOf(e) != Some(t)
    ensures Knows(Next(s, e).value, PcOf(Next(s, e).value, t))
    ensures NoneYet(Next(s, e).value, t)
  {
    OthersStay(s, e, t);
    SharedStays(s, e);
    hide Next;
    assert ThreadInv(s, t);
    if ThreadOf(e).Some? { assert ThreadInv(s, ThreadOf(e).value); }
  }

  lemma SteppedKnows(s: State, l: LockEvent)
    requires Stepped(s, l).Some? && Coupled(PcOf(s, l.thread), W.PcOf(s.lock, l.thread))
    requires Knows(s, PcOf(s, l.thread)) && NoneYet(s, l.thread)
    ensures Knows(Stepped(s, l).value, PcOf(Stepped(s, l).value, l.thread))
  {
    W.OwnStep(MutexObject(), s.lock, l);
    hide W.Next;
  }

  lemma AdvancedKnows(s: State, t: Tid)
    requires Advanced(s, t).Some? && Ownership(s) && Knows(s, PcOf(s, t)) && NoneYet(s, t)
    ensures Knows(Advanced(s, t).value, PcOf(Advanced(s, t).value, t))
  {
    match PcOf(s, t)
    case AtFastLoad(_) =>
    case AtRecheck(_) =>
    case AtSlot(_) =>
    case AtPublish(_, _) =>
    case _ =>
  }

  lemma MadeKnows(s: State, t: Tid, outcome: W.Outcome)
    requires Made(s, t, outcome).Some? && Ownership(s) && Knows(s, PcOf(s, t))
    ensures Knows(Made(s, t, outcome).value, PcOf(Made(s, t, outcome).value, t))
  {
    assert s.signals == map[];
  }

  lemma NextKnowsSelf(s: State, e: Event, t: Tid)
    requires Next(s, e).Some? && ThreadOf(e) == Some(t) && Coupled(PcOf(s, t), W.PcOf(s.lock, t))
    requires Ownership(s) && Knows(s, PcOf(s, t)) && NoneYet(s, t)
    ensures Knows(Next(s, e).value, PcOf(Next(s, e).value, t))
  {
    match e
    case Install(_) =>
    case Call(_, _) =>
    case Advance(_) => AdvancedKnows(s, t); hide Advanced, Knows;
    case Make(_, outcome) => MadeKnows(s, t, outcome); hide Made, Knows;
    case Apply(_, _) =>
    case Inner(l) => SteppedKnows(s, l); hide Stepped, Knows;
  }

  lemma NextNoneYetSelf(s: State, e: Event, t: Tid)
    requires Inv(s) && Next(s, e).Some? && ThreadOf(e) == Some(t)
    ensures NoneYet(Next(s, e).value, t)
    ensures Holder(s).None? && s.resolved.None? ==> Next(s, e).value.signal.None?
  {
    assert ThreadInv(s, t);
    NextOwnsMutex(s, e, t);
    SharedStays(s, e);
    hide W.Next;
  }

  lemma NextThreadInv(s: State, e: Event, t: Tid)
    requires Inv(s) && Next(s, e).Some?
    ensures W.Inv(MutexObject(), Next(s, e).value.lock)
    ensures ThreadInv(Next(s, e).value, t)
  {
    assert ThreadInv(s, t);
    NextHolder(s, e);
    NextCoupled(s, e, t);
    NextOwnsMutex(s, e, t);
    if ThreadOf(e) == Some(t) {
      NextKnowsSelf(s, e, t);
      NextNoneYetSelf(s, e, t);
    } else {
      NextKnowsOther(s, e, t);
    }
    hide Next, Holder, PcOf, OwnsMutex, Coupled, Knows, NoneYet;
  }

  lemma NextUnowned(s: State, e: Event)
    requires Inv(s) && Next(s, e).Some?
    ensures W.Inv(MutexObject(), Next(s, e).value.lock)
    ensures Holder(Next(s, e).value).None? && Next(s, e).value.resolved.None? ==> Next(s, e).value.signal.None?
  {
    NextHolder(s, e);
    SharedStays(s, e);
    if ThreadOf(e).Some? {
      assert ThreadInv(s, ThreadOf(e).value);
      NextNoneYetSelf(s, e, ThreadOf(e).value);
      if e.Inner? { SteppedShared(s, e.step); }
    }
    hide Stepped, Advanced, Made, Applied, Ownership;
  }

  lemma NextInv(s: State, e: Event)
    requires Inv(s) && Next(s, e).Some?
    ensures Inv(Next(s, e).value)
  {
    NextUnowned(s, e);
    SharedStays(s, e);
    hide Next, Ownership;
    forall t: Tid ensures ThreadInv(Next(s, e).value, t) {
      NextThreadInv(s, e, t);
    }
  }

  lemma {:induction false} RunInv(s: State, es: seq<Event>)
    requires Inv(s) && Run(s, es).Some?
    ensures Inv(Run(s, es).value)
  {
    if es != [] {
      RunInv(s, es[..|es| - 1]);
      NextInv(Run(s, es[..|es| - 1]).value, es[|es| - 1]);
    }
  }
}
