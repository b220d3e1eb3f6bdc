/** What the deferred signal promises to its users, over every run. */
module DeferredSignalTheorems {
  import opened Common
  import opened AtomicObjects
  import opened Locks
  import opened DeferredSignal
  import W = LazyWrapper

  // ---------------------------------------------------------- linearizability

  /**
   What callers see of event `e`. An operation that ends in `Unavailable` takes effect when it finds no signal to use,
   not when it returns: others may publish one in between.
   */
  function Visible(s: State, e: Event): seq<Label<SignalOp, SignalResult>> {
    match e
    case Call(t, op) => [Called(t, op)]
    case Apply(t, r) => (match PcOf(s, t) case AtSignal(op, _) => [Effected(t, op, r)] case _ => [])
    case Make(t, outcome) =>
      (match PcOf(s, t)
       case AtFactory(op, _) => if outcome.Null? then [Effected(t, op, Unavailable)] else []
       case _ => [])
    case Advance(t) =>
      (match PcOf(s, t)
       case AtInterruptLoad => if s.resolved.None? then [Effected(t, GiveFromInterrupt, Unavailable)] else []
       case AtSlot(op) => if s.lock.slot.None? then [Effected(t, op, Unavailable)] else []
       case AtReturn(op, r) => [Returned(t, op, r)]
       case _ => [])
    case _ => []
  }

  function Trace(s: State, es: seq<Event>): seq<Label<SignalOp, SignalResult>>
    requires Run(s, es).Some?
  {
    if es == [] then []
    else Trace(s, es[..|es| - 1]) + Visible(Run(s, es[..|es| - 1]).value, es[|es| - 1])
  }

  /** How many operations of the run took effect before the release store that publishes the signal. */
  function EffectsBeforeStore(s: State, es: seq<Event>): nat
    requires Run(s, es).Some?
  {
    if es != [] && Run(s, es[..|es| - 1]).value.resolved.Some? then EffectsBeforeStore(s, es[..|es| - 1])
    else |Effects(Trace(s, es))|
  }

  function PhaseOf(pc: Pc): Phase<SignalOp, SignalResult> {
    match pc
    case Idle => Quiet
    case AtInterruptLoad => Pending(GiveFromInterrupt)
    case AtUnlock(op, None) => Decided(op, Unavailable)
    case AtReturn(op, r) => Decided(op, r)
    case _ => Pending(pc.op)
  }

  /** The first `n` operations found nothing and left no trace; the others are those of a signal that starts with them. */
  ghost predicate Explains(s: State, h: seq<Completed<SignalOp, SignalResult>>, n: nat) {
    && n <= |h|
    && (forall i :: 0 <= i < n ==> h[i].result == Unavailable)
    && (s.resolved.None? ==> n == |h|)
    && (s.resolved.Some? ==>
          s.resolved.value in s.signals &&
          AtomicRun(SignalObject(s.initiallySet), h[n..]) == Some(s.signals[s.resolved.value]))
  }

  /** The effect of one step, seen as `v`, on the published signal: none, or the one operation that is visible. */
  ghost predicate BitMoves(s: State, s': State, v: seq<Label<SignalOp, SignalResult>>) {
    && |v| <= 1 && s'.initiallySet == s.initiallySet
    && (v != [] && v[0].Effected? && s.resolved.None? ==> v[0].result == Unavailable && s'.resolved.None?)
    && (s.resolved.None? && s'.resolved.Some? ==> s'.signals == map[s'.resolved.value := s.initiallySet])
    && (s.resolved.Some? ==>
          s'.resolved == s.resolved && s.resolved.value in s.signals && s.resolved.value in s'.signals &&
          if v != [] && v[0].Effected? then
            SignalApply(s.signals[s.resolved.value], v[0].thread, v[0].op, v[0].result) ==
            Some(s'.signals[s.resolved.value])
          else s'.signals[s.resolved.value] == s.signals[s.resolved.value])
  }

  lemma AdvancedBit(s: State, t: Tid)
    requires Advanced(s, t).Some? && DeferredSignal.Ownership(s) && Knows(s, PcOf(s, t))
    ensures BitMoves(s, Advanced(s, t).value, Visible(s, Advance(t)))
  {
  }

  lemma MadeBit(s: State, t: Tid, outcome: W.Outcome)
    requires Made(s, t, outcome).Some? && DeferredSignal.Ownership(s) && Knows(s, PcOf(s, t))
    ensures BitMoves(s, Made(s, t, outcome).value, Visible(s, Make(t, outcome)))
  {
  }

  lemma AppliedBit(s: State, t: Tid, result: SignalResult)
    requires Applied(s, t, result).Some? && DeferredSignal.Ownership(s) && Knows(s, PcOf(s, t))
    ensures BitMoves(s, Applied(s, t, result).value, Visible(s, Apply(t, result)))
  {
    hide SignalApply;
  }

  lemma NextBit(s: State, e: Event)
    requires Inv(s) && Next(s, e).Some?
    ensures BitMoves(s, Next(s, e).value, Visible(s, e))
  {
    if ThreadOf(e).Some? { assert ThreadInv(s, ThreadOf(e).value); }
    hide Stepped, Advanced, Made, Applied, Knows, SignalApply;
    match e
    case Advance(t) => AdvancedBit(s, t); hide Visible;
    case Make(t, outcome) => MadeBit(s, t, outcome); hide Visible;
    case Apply(t, result) => AppliedBit(s, t, result); hide Visible;
    case Inner(l) => SteppedShared(s, l);
    case _ =>
  }

  /** What the callers see of a step agrees with how the phase of thread `t` changes. */
  ghost predicate PhaseMoves(s: State, e: Event, t: Tid)
    requires Next(s, e).Some?
  {
    var v := Visible(s, e);
    Some(PhaseOf(PcOf(Next(s, e).value, t))) ==
      if v == [] then Some(PhaseOf(PcOf(s, t))) else PhaseStep(PhaseOf(PcOf(s, t)), v[0], t)
  }

  lemma InnerPhase(s: State, l: LockEvent)
    requires Next(s, Inner(l)).Some? && Coupled(PcOf(s, l.thread), W.PcOf(s.lock, l.thread))
    ensures PhaseMoves(s, Inner(l), l.thread)
  {
    hide W.Next, Advanced, Made, Applied;
  }

  lemma AdvancedPhase(s: State, t: Tid)
    requires Next(s, Advance(t)).Some?
    ensures PhaseMoves(s, Advance(t), t)
  {
    hide Stepped, Made, Applied;
    match PcOf(s, t)
    case AtFastLoad(_) =>
    case AtRecheck(_) =>
    case AtSlot(_) =>
    case AtPublish(_, _) =>
    case _ =>
  }

  lemma OwnPhase(s: State, e: Event, t: Tid)
    requires Next(s, e).Some? && ThreadOf(e) == Some(t) && Coupled(PcOf(s, t), W.PcOf(s.lock, t))
    ensures PhaseMoves(s, e, t)
  {
    match e
    case Advance(_) => AdvancedPhase(s, t); hide PhaseMoves;
    case Inner(l) => InnerPhase(s, l); hide PhaseMoves;
    case _ => hide Stepped, Advanced;
  }

  lemma NextPhase(s: State, e: Event, t: Tid)
    requires Inv(s) && Next(s, e).Some?
    ensures PhaseMoves(s, e, t)
  {
    if ThreadOf(e) != Some(t) {
      OthersStay(s, e, t);
      assert Visible(s, e) != [] ==> Visible(s, e)[0].thread != t;
      hide Next;
    } else {
      assert ThreadInv(s, t);
      OwnPhase(s, e, t);
      hide Next;
    }
  }

  ghost predicate PhasesAgree(s: State, trace: seq<Label<SignalOp, SignalResult>>) {
    forall t: Tid :: PhaseAfter(trace, t) == Some(PhaseOf(PcOf(s, t)))
  }

  lemma TraceSnoc(s0: State, es: seq<Event>, e: Event)
    requires Run(s0, es + [e]).Some?
    ensures Run(s0, es).Some? && Next(Run(s0, es).value, e) == Run(s0, es + [e])
    ensures Trace(s0, es + [e]) == Trace(s0, es) + Visible(Run(s0, es).value, e)
    ensures EffectsBeforeStore(s0, es + [e]) ==
            if Run(s0, es).value.resolved.Some? then EffectsBeforeStore(s0, es) else |Effects(Trace(s0, es + [e]))|
  {
    assert (es + [e])[..|es|] == es;
  }

  lemma NextPhases(s: State, e: Event, trace: seq<Label<SignalOp, SignalResult>>)
    requires Inv(s) && Next(s, e).Some? && PhasesAgree(s, trace)
    ensures PhasesAgree(Next(s, e).value, trace + Visible(s, e))
  {
    NextBit(s, e);
    var v := Visible(s, e);
    forall t: Tid ensures PhaseAfter(trace + v, t) == Some(PhaseOf(PcOf(Next(s, e).value, t))) {
      NextPhase(s, e, t);
      if v == [] {
        assert trace + v == trace;
      } else {
        assert v == [v[0]];
        PhaseSnoc(trace, v[0], t);
      }
    }
  }

  /** An operation on the published signal, explained. */
  lemma ExplainsUse(s: State, s': State, h: seq<Completed<SignalOp, SignalResult>>, c: Completed<SignalOp, SignalResult>, n: nat)
    requires Explains(s, h, n) && s.resolved.Some? && s'.resolved == s.resolved && s'.initiallySet == s.initiallySet
    requires s.resolved.value in s'.signals
    requires SignalApply(s.signals[s.resolved.value], c.thread, c.op, c.result) == Some(s'.signals[s.resolved.value])
    ensures Explains(s', h + [c], n)
  {
    assert (h + [c])[n..] == h[n..] + [c];
    AtomicRunSnoc(SignalObject(s.initiallySet), h[n..], c);
  }

  /** The publication, explained: nothing has happened to the signal yet. */
  lemma ExplainsPublication(s: State, s': State, h: seq<Completed<SignalOp, SignalResult>>)
    requires Explains(s, h, |h|) && s.resolved.None? && s'.resolved.Some? && s'.initiallySet == s.initiallySet
    requires s'.signals == map[s'.resolved.value := s.initiallySet]
    ensures Explains(s', h, |h|)
  {
    assert h[|h|..] == [];
  }

  lemma VisibleEffects(s: State, e: Event, trace: seq<Label<SignalOp, SignalResult>>)
    requires |Visible(s, e)| <= 1
    ensures Effects(trace + Visible(s, e)) == Effects(trace) +
              if Visible(s, e) != [] && Visible(s, e)[0].Effected? then
                [Completed(Visible(s, e)[0].thread, Visible(s, e)[0].op, Visible(s, e)[0].result)]
              else []
  {
    var v := Visible(s, e);
    if v == [] {
      assert trace + v == trace;
      assert Effects(trace) + [] == Effects(trace);
    } else {
      assert v == [v[0]];
      EffectsSnoc(trace, v[0]);
    }
  }

  /** One more step, explained. */
  lemma NextExplains(s: State, e: Event, trace: seq<Label<SignalOp, SignalResult>>, n: nat)
    requires Inv(s) && Next(s, e).Some? && Explains(s, Effects(trace), n)
    ensures var h := Effects(trace + Visible(s, e));
            Explains(Next(s, e).value, h, if s.resolved.Some? then n else |h|)
  {
    NextBit(s, e);
    VisibleEffects(s, e, trace);
    var v, h, s' := Visible(s, e), Effects(trace), Next(s, e).value;
    hide Next, SignalApply, Visible, Inv;
    if v != [] && v[0].Effected? {
      var c := Completed(v[0].thread, v[0].op, v[0].result);
      if s.resolved.Some? { ExplainsUse(s, s', h, c, n); }
    } else {
      assert h + [] == h;
      if s.resolved.None? && s'.resolved.Some? { ExplainsPublication(s, s', h); }
    }
  }

  /**
   The deferred signal is linearizable to `Unresolved | Resolved(bit)`, and resolution takes effect at the release store.
   Every operation takes effect once, between its call and its return. Those that take effect before the store answer
   `Unavailable` and leave no trace; those after it answer exactly as a binary signal that starts from `initiallySet`.
   */
  lemma {:induction false} Linearizable(initiallySet: bool, slot: Option<ProviderId>, es: seq<Event>)
    requires Run(Init(initiallySet, slot), es).Some?
    ensures var s := Run(Init(initiallySet, slot), es).value;
            var trace := Trace(Init(initiallySet, slot), es);
            && Inv(s) && s.initiallySet == initiallySet
            && PhasesAgree(s, trace)
            && Explains(s, Effects(trace), EffectsBeforeStore(Init(initiallySet, slot), es))
  {
    var s0 := Init(initiallySet, slot);
    InitInv(initiallySet, slot);
    if es != [] {
      var before, e := es[..|es| - 1], es[|es| - 1];
      assert es == before + [e];
      TraceSnoc(s0, before, e);
      Linearizable(initiallySet, slot, before);
      var s := Run(s0, before).value;
      NextInv(s, e);
      NextBit(s, e);
      NextPhases(s, e, Trace(s0, before));
      NextExplains(s, e, Trace(s0, before), EffectsBeforeStore(s0, before));
    }
  }

  // --------------------------------------------------------- layered exclusion

  /** The section that creates and publishes the signal, from the re-check to the store. */
  predicate Creating(pc: Pc) { pc.AtRecheck? || pc.AtSlot? || pc.AtFactory? || pc.AtPublish? }

  lemma OneCreator(s: State, t: Tid, u: Tid)
    requires Inv(s) && Creating(PcOf(s, t))
    ensures Creating(PcOf(s, u)) ==> t == u
    ensures OwnsInner(s, t)
  {
    assert ThreadInv(s, t) && ThreadInv(s, u);
  }

  /** Thread `t` owns the primitive that the inner mutex settled on. */
  predicate OwnsInner(s: State, t: Tid) {
    && s.lock.resolved.Some? && s.lock.resolved.value in s.lock.objects
    && s.lock.objects[s.lock.resolved.value] == Some(t)
  }

  /**
   At most one thread is in the section that creates and publishes the signal, whatever primitive the inner mutex settled
   on and whenever a provider is installed; while a thread is there it owns that primitive.
   */
  lemma CreationExcludes(initiallySet: bool, slot: Option<ProviderId>, es: seq<Event>, t: Tid, u: Tid)
    requires Run(Init(initiallySet, slot), es).Some?
    ensures var s := Run(Init(initiallySet, slot), es).value;
            && (Creating(PcOf(s, t)) && Creating(PcOf(s, u)) ==> t == u)
            && (Creating(PcOf(s, t)) ==> OwnsInner(s, t))
  {
    Linearizable(initiallySet, slot, es);
    var s := Run(Init(initiallySet, slot), es).value;
    if Creating(PcOf(s, t)) { OneCreator(s, t, u); }
  }

  // ------------------------------------------------------ stability and retries

  /**
   Permanence: a published signal is the one that `_signal` holds and the only one ever created; every continuation keeps
   it, published and alive, and creates no other.
   */
  lemma {:induction false} ResolvedForever(s: State, es: seq<Event>)
    requires Inv(s) && s.resolved.Some? && Run(s, es).Some?
    ensures var s' := Run(s, es).value;
            && Inv(s')
            && s'.resolved == s.resolved && s'.signal == s.resolved && s'.log == s.log
            && |s'.log| == 1 && s'.signals.Keys == {s.resolved.value}
  {
    if es != [] {
      var before := es[..|es| - 1];
      ResolvedForever(s, before);
      NextInv(Run(s, before).value, es[|es| - 1]);
      SharedStays(Run(s, before).value, es[|es| - 1]);
    }
  }

  /** No attempt of the run got a signal from a provider. */
  predicate AllAttemptsFail(es: seq<Event>) {
    forall e :: e in es ==> !(e.Make? && e.outcome.Fresh?)
  }

  ghost predicate Deferred(s: State) {
    s.resolved.None? && s.signal.None? && s.log == [] && forall t: Tid :: !PcOf(s, t).AtPublish?
  }

  lemma FailedStep(s: State, e: Event)
    requires Deferred(s) && Next(s, e).Some? && AllAttemptsFail([e])
    ensures Deferred(Next(s, e).value)
  {
    assert e in [e];
    forall t: Tid ensures !PcOf(Next(s, e).value, t).AtPublish? {
      if ThreadOf(e) != Some(t) {
        OthersStay(s, e, t);
        hide Next;
      } else {
        assert !PcOf(s, t).AtPublish?;
        hide W.Next;
      }
    }
    if ThreadOf(e).Some? { assert !PcOf(s, ThreadOf(e).value).AtPublish?; }
    hide W.Next;
  }

  /**
   However many attempts fail, the signal stays resolvable: it publishes nothing and creates nothing before some attempt
   yields a signal.
   */
  lemma {:induction false} FailuresLeaveItDeferred(initiallySet: bool, slot: Option<ProviderId>, es: seq<Event>)
    requires Run(Init(initiallySet, slot), es).Some? && AllAttemptsFail(es)
    ensures Deferred(Run(Init(initiallySet, slot), es).value)
  {
    if es != [] {
      FailuresLeaveItDeferred(initiallySet, slot, es[..|es| - 1]);
      FailedStep(Run(Init(initiallySet, slot), es[..|es| - 1]).value, es[|es| - 1]);
    }
  }

  /** The provider of the last installation among the events, or `slot` when there is none. */
  function LastInstalled(es: seq<Event>, slot: Option<ProviderId>): Option<ProviderId> {
    if es == [] then slot
    else if es[|es| - 1].Install? then es[|es| - 1].provider
    else LastInstalled(es[..|es| - 1], slot)
  }

  lemma NextSlot(s: State, e: Event)
    requires Next(s, e).Some?
    ensures Next(s, e).value.lock.slot == if e.Install? then e.provider else s.lock.slot
  {
    if e.Inner? { InnerKeepsSlot(s.lock, e.step); }
    hide W.Next;
  }

  /** Installations, and nothing else, decide what a later attempt finds in the slot. */
  lemma {:induction false} SlotIsLastInstalled(s: State, es: seq<Event>)
    requires Run(s, es).Some?
    ensures Run(s, es).value.lock.slot == LastInstalled(es, s.lock.slot)
  {
    if es != [] {
      SlotIsLastInstalled(s, es[..|es| - 1]);
      NextSlot(Run(s, es[..|es| - 1]).value, es[|es| - 1]);
    }
  }

  // ---------------------------------------------------------------- interrupts

  /**
   A thread inside `GiveFromInterrupt` only loads the pointer and gives the published signal: none of its steps creates a
   signal, changes what is resolved, or touches the inner mutex.
   */
  lemma InterruptNeverResolves(s: State, e: Event, t: Tid)
    requires Inv(s) && Next(s, e).Some? && ThreadOf(e) == Some(t)
    requires PhaseOf(PcOf(s, t)) != Quiet && OpOf(PcOf(s, t)) == GiveFromInterrupt
    ensures var s' := Next(s, e).value;
            && s'.lock == s.lock && s'.signal == s.signal && s'.resolved == s.resolved && s'.log == s.log
            && s'.signals.Keys == s.signals.Keys
            && (PcOf(s', t) == Idle || OpOf(PcOf(s', t)) == GiveFromInterrupt)
  {
    assert ThreadInv(s, t);
    hide W.Next;
  }

  function OpOf(pc: Pc): SignalOp
    requires !pc.Idle?
  {
    if pc.AtInterruptLoad? then GiveFromInterrupt else pc.op
  }
}
