/** A deferred signal can always be resolved later: one thread alone, with a provider installed, gets its operation done. */
module DeferredSignalProgress {
  import opened Common
  import opened AtomicObjects
  import opened Locks
  import opened DeferredSignal
  import opened DeferredSignalTheorems
  import opened DeferredSignalWork
  import opened DeferredSignalSnapshot
  import W = LazyWrapper

  /** The other threads are outside, and a provider is installed. */
  ghost predicate Alone(s: State, t: Tid) { Solitary(s, t) && s.lock.slot.Some? }

  /** The next step of thread `t`, when its provider delivers. */
  function Step(s: State, t: Tid): Event {
    match PcOf(s, t)
    case AtSignal(op, id) => Apply(t, if id in s.signals then Due(op, s.signals[id]) else Succeeded)
    case _ => Move(s, t, W.Fresh, W.Fresh)
  }

  /** The operation of `t` is on its way to an answer from a published signal. */
  predicate Hopeful(s: State, pc: Pc) {
    && pc != AtInterruptLoad
    && (pc.AtUnlock? ==> pc.found.Some?)
    && (pc.AtReturn? ==> pc.result != Unavailable)
    && (s.resolved.Some? || pc.AtFastLoad? || pc.AtLock? || pc.AtRecheck? || pc.AtSlot? || pc.AtFactory? || pc.AtPublish?)
  }

  /** The step is enabled, brings the thread nearer to its answer, and lets it hope on. */
  ghost predicate Moves(s: State, t: Tid, e: Event) {
    && ThreadOf(e) == Some(t) && Next(s, e).Some?
    && var s' := Next(s, e).value;
       && !s'.terminated && s'.lock.slot == s.lock.slot
       && DistanceAt(s', t) < DistanceAt(s, t)
       && (PcOf(s', t).Idle? || Hopeful(s', PcOf(s', t)))
       && (PcOf(s', t).Idle? ==> s'.resolved.Some?)
  }

  lemma InnerStepMoves(s: State, t: Tid)
    requires Alone(s, t) && (PcOf(s, t).AtLock? || PcOf(s, t).AtUnlock?) && Hopeful(s, PcOf(s, t))
    ensures Moves(s, t, Step(s, t))
  {
    var e := Step(s, t);
    SolitaryInnerMove(s, t, W.Fresh);
    InnerStepCounts(s, t);
    DistanceFalls(s, e);
    HopesOn(s, e.step);
    hide W.Next, InnerMove, Inv, Solitary, DistanceAt, Counts, Stepped, Hopeful, Advanced, Made, Applied;
  }

  /** An inner call that ends leaves the operation on its way. */
  lemma HopesOn(s: State, l: LockEvent)
    requires Inv(s) && Stepped(s, l).Some? && Hopeful(s, PcOf(s, l.thread))
    ensures var s' := Stepped(s, l).value;
            Hopeful(s', PcOf(s', l.thread)) && !PcOf(s', l.thread).Idle? && s'.terminated == s.terminated
  {
    assert ThreadInv(s, l.thread);
    SteppedShared(s, l);
    hide W.Next, Inv;
  }

  lemma InnerStepCounts(s: State, t: Tid)
    requires Alone(s, t) && (PcOf(s, t).AtLock? || PcOf(s, t).AtUnlock?)
    ensures Counts(s, Step(s, t))
  {
    NeverBlocked(s, t);
    MoveEnabled(s, t, W.Fresh, W.Fresh);
  }

  lemma SignalAnswers(s: State, t: Tid)
    requires Alone(s, t) && PcOf(s, t).AtSignal?
    ensures Next(s, Step(s, t)).Some? && Counts(s, Step(s, t))
  {
    assert ThreadInv(s, t);
    hide Inv, ThreadInv, Stepped;
    assert s.resolved == Some(PcOf(s, t).id) && PcOf(s, t).id in s.signals by { assert DeferredSignal.Ownership(s); }
  }

  lemma OuterStepEnabled(s: State, t: Tid)
    requires Alone(s, t) && !PcOf(s, t).Idle? && !PcOf(s, t).AtLock? && !PcOf(s, t).AtUnlock? && Hopeful(s, PcOf(s, t))
    ensures var e := Step(s, t);
            ThreadOf(e) == Some(t) && Next(s, e).Some? && Counts(s, e)
  {
    if Resolving(PcOf(s, t)) {
      NeverBlocked(s, t);
      MoveEnabled(s, t, W.Fresh, W.Fresh);
    } else if PcOf(s, t).AtSignal? {
      SignalAnswers(s, t);
    }
    hide Inv, Stepped;
  }

  lemma OuterStepMoves(s: State, t: Tid)
    requires Alone(s, t) && !PcOf(s, t).Idle? && !PcOf(s, t).AtLock? && !PcOf(s, t).AtUnlock? && Hopeful(s, PcOf(s, t))
    ensures Moves(s, t, Step(s, t))
  {
    OuterStepEnabled(s, t);
    DistanceFalls(s, Step(s, t));
    assert ThreadInv(s, t);
    hide Inv, ThreadInv, Stepped, OwnsMutex, NoneYet, DistanceAt;
  }

  /** Alone, a thread always has a step. */
  lemma StepMoves(s: State, t: Tid)
    requires Alone(s, t) && !PcOf(s, t).Idle? && Hopeful(s, PcOf(s, t))
    ensures Moves(s, t, Step(s, t))
  {
    if PcOf(s, t).AtLock? || PcOf(s, t).AtUnlock? {
      InnerStepMoves(s, t);
    } else {
      OuterStepMoves(s, t);
    }
  }

  lemma StepStaysAlone(s: State, t: Tid)
    requires Alone(s, t) && !PcOf(s, t).Idle? && Hopeful(s, PcOf(s, t))
    ensures Next(s, Step(s, t)).Some? && Alone(Next(s, Step(s, t)).value, t)
  {
    StepMoves(s, t);
    NextInv(s, Step(s, t));
    forall u: Tid | u != t ensures PcOf(Next(s, Step(s, t)).value, u).Idle? {
      PcsStay(s, Step(s, t), u);
    }
    hide Next, Inv, Step;
  }

  lemma {:induction false} TraceCons(s: State, e: Event, es: seq<Event>)
    requires Next(s, e).Some?
    ensures Run(s, [e] + es) == Run(Next(s, e).value, es)
    ensures Run(s, [e] + es).Some? ==> Trace(s, [e] + es) == Visible(s, e) + Trace(Next(s, e).value, es)
  {
    RunCons(s, e, es);
    hide Next, Visible;
    if es == [] {
      assert [e] + es == [e] && [e][..0] == [];
    } else {
      var most := es[..|es| - 1];
      TraceCons(s, e, most);
      assert ([e] + es)[..|[e] + es| - 1] == [e] + most;
    }
  }

  /** What remains to be seen of an operation in the given phase, when it ends with `r`. */
  function Rest(phase: Phase<SignalOp, SignalResult>, t: Tid, r: SignalResult): seq<Label<SignalOp, SignalResult>> {
    match phase
    case Quiet => []
    case Pending(op) => [Effected(t, op, r), Returned(t, op, r)]
    case Decided(op, q) => [Returned(t, op, q)]
  }

  lemma VisibleIsOwn(s: State, e: Event, t: Tid)
    requires ThreadOf(e) == Some(t)
    ensures forall l :: l in Visible(s, e) ==> l.thread == t
  {
  }

  /** One step shows the first of what remains to be seen, and leaves the rest. */
  lemma StepShows(s: State, t: Tid, r: SignalResult)
    requires Alone(s, t) && !PcOf(s, t).Idle? && Hopeful(s, PcOf(s, t))
    requires Next(s, Step(s, t)).Some?
    requires PhaseOf(PcOf(Next(s, Step(s, t)).value, t)).Decided? ==> r == PhaseOf(PcOf(Next(s, Step(s, t)).value, t)).result
    ensures Visible(s, Step(s, t)) + Rest(PhaseOf(PcOf(Next(s, Step(s, t)).value, t)), t, r) == Rest(PhaseOf(PcOf(s, t)), t, r)
  {
    var e := Step(s, t);
    StepMoves(s, t);
    NextBit(s, e);
    NextPhase(s, e, t);
    VisibleIsOwn(s, e, t);
    PhaseNotQuiet(PcOf(s, t));
    var v := Visible(s, e);
    hide Next, Visible, PhaseOf, Step, Inv, Hopeful;
    if v != [] { assert v == [v[0]] && v[0] in v; }
  }

  lemma PhaseNotQuiet(pc: Pc)
    ensures PhaseOf(pc) == Quiet <==> pc.Idle?
  {
  }

  /** A decided operation that hopes does not end in `Unavailable`. */
  lemma DecidedIsAnswer(s: State, pc: Pc)
    requires Hopeful(s, pc) && PhaseOf(pc).Decided?
    ensures PhaseOf(pc).result != Unavailable
  {
  }

  lemma {:induction false} CompletesAlone(s: State, t: Tid) returns (es: seq<Event>, r: SignalResult)
    requires Alone(s, t) && Hopeful(s, PcOf(s, t)) && !PcOf(s, t).Idle?
    ensures Run(s, es).Some? && PcOf(Run(s, es).value, t).Idle? && Run(s, es).value.resolved.Some?
    ensures r != Unavailable && Trace(s, es) == Rest(PhaseOf(PcOf(s, t)), t, r)
    ensures PhaseOf(PcOf(s, t)).Decided? ==> r == PhaseOf(PcOf(s, t)).result
    ensures forall e :: e in es ==> ThreadOf(e) == Some(t)
    decreases DistanceAt(s, t)
  {
    var e := Step(s, t);
    StepMoves(s, t);
    StepStaysAlone(s, t);
    NextPhase(s, e, t);
    NextBit(s, e);
    VisibleIsOwn(s, e, t);
    var s' := Next(s, e).value;
    PhaseNotQuiet(PcOf(s', t));
    PhaseNotQuiet(PcOf(s, t));
    if PhaseOf(PcOf(s, t)).Decided? { DecidedIsAnswer(s, PcOf(s, t)); }
    assert Visible(s, e) != [] ==> Visible(s, e)[0] in Visible(s, e);
    hide Next, Visible, PhaseOf, Step, Inv, Hopeful, Alone, DistanceAt, PcOf;
    if PcOf(s', t).Idle? {
      es, r := [e], if PhaseOf(PcOf(s, t)).Decided? then PhaseOf(PcOf(s, t)).result else Succeeded;
      StepShows(s, t, r);
      TraceCons(s, e, []);
      assert [e] + [] == [e] && Run(s', []) == Some(s');
    } else {
      var rest;
      rest, r := CompletesAlone(s', t);
      es := [e] + rest;
      StepShows(s, t, r);
      TraceCons(s, e, rest);
    }
  }

  lemma CallAlone(s: State, t: Tid, op: SignalOp)
    requires Inv(s) && !s.terminated && s.lock.slot.Some? && !op.GiveFromInterrupt?
    requires forall u: Tid :: PcOf(s, u).Idle?
    ensures var e := Event.Call(t, op);
            && Next(s, e).Some? && Alone(Next(s, e).value, t)
            && PcOf(Next(s, e).value, t) == AtFastLoad(op) && Visible(s, e) == [Called(t, op)]
  {
    NextInv(s, Event.Call(t, op));
    forall u: Tid | u != t ensures PcOf(Next(s, Event.Call(t, op)).value, u).Idle? {
      assert PcOf(s, u).Idle?;
    }
  }

  lemma RetryFrom(s: State, t: Tid, op: SignalOp) returns (es: seq<Event>, r: SignalResult)
    requires Inv(s) && !s.terminated && s.lock.slot.Some? && !op.GiveFromInterrupt?
    requires forall u: Tid :: PcOf(s, u).Idle?
    ensures Run(s, es).Some? && Run(s, es).value.resolved.Some?
    ensures Trace(s, es) == [Called(t, op), Effected(t, op, r), Returned(t, op, r)] && r != Unavailable
    ensures forall e :: e in es ==> ThreadOf(e) == Some(t)
  {
    var e := Event.Call(t, op);
    CallAlone(s, t, op);
    hide Next, Visible, Inv, Alone, PcOf, Run, Trace;
    var rest;
    rest, r := CompletesAlone(Next(s, e).value, t);
    es := [e] + rest;
    TraceCons(s, e, rest);
  }

  /**
   Retrying works. From every reachable state in which no thread is inside and some provider is installed, whatever failed
   before, a thread that calls `Give`, `Wait` or `Reset` alone, with a provider that delivers, gets the answer of a binary
   signal, and the signal is resolved.
   */
  lemma RetrySucceeds(initiallySet: bool, slot: Option<ProviderId>, before: seq<Event>, t: Tid, op: SignalOp)
      returns (es: seq<Event>, r: SignalResult)
    requires Run(Init(initiallySet, slot), before).Some? && !op.GiveFromInterrupt?
    requires var s := Run(Init(initiallySet, slot), before).value;
             !s.terminated && s.lock.slot.Some? && forall u: Tid :: PcOf(s, u).Idle?
    ensures var s := Run(Init(initiallySet, slot), before).value;
            && Run(s, es).Some? && Run(s, es).value.resolved.Some?
            && Trace(s, es) == [Called(t, op), Effected(t, op, r), Returned(t, op, r)] && r != Unavailable
  {
    Linearizable(initiallySet, slot, before);
    hide Inv, Explains, PhasesAgree, PcOf, Run, Trace;
    es, r := RetryFrom(Run(Init(initiallySet, slot), before).value, t, op);
  }

  lemma {:induction false} NoneInstalled(es: seq<Event>, slot: Option<ProviderId>)
    requires forall e :: e in es ==> !e.Install?
    ensures LastInstalled(es, slot) == slot
  {
    if es != [] {
      assert es[|es| - 1] in es;
      NoneInstalled(es[..|es| - 1], slot);
    }
  }

  /** While nothing else is installed, a signal that gets published comes from the provider in the slot. */
  lemma FromTheInstalled(s: State, es: seq<Event>, p: ProviderId)
    requires Inv(s) && s.resolved.None? && s.lock.slot == Some(p) && forall u: Tid :: PcOf(s, u).Idle?
    requires Run(s, es).Some? && Run(s, es).value.resolved.Some? && forall e :: e in es ==> !e.Install?
    ensures Run(s, es).value.log == [p]
  {
    var t, q, read, store := PublishedFromOneRead(s, es);
    assert Run(s, es[..read]).Some? && Reads(Run(s, es[..read]).value, t, q);
    SlotIsLastInstalled(s, es[..read]);
    NoneInstalled(es[..read], s.lock.slot);
  }

  /** The installation of `p` in a state in which no thread is inside. */
  lemma Installs(s: State, p: ProviderId)
    requires Inv(s) && !s.terminated && forall u: Tid :: PcOf(s, u).Idle?
    ensures Next(s, Install(Some(p))).Some? && Visible(s, Install(Some(p))) == []
    ensures var s' := Next(s, Install(Some(p))).value;
            && Inv(s') && !s'.terminated && s'.resolved == s.resolved && s'.lock.slot == Some(p)
            && forall u: Tid :: PcOf(s', u).Idle?
  {
    NextInv(s, Install(Some(p)));
    NextSlot(s, Install(Some(p)));
    forall u: Tid ensures PcOf(Next(s, Install(Some(p))).value, u).Idle? { PcsStay(s, Install(Some(p)), u); }
  }

  lemma InstallAndRetry(s: State, p: ProviderId, t: Tid, op: SignalOp) returns (rest: seq<Event>, r: SignalResult)
    requires Inv(s) && !s.terminated && !op.GiveFromInterrupt? && forall u: Tid :: PcOf(s, u).Idle?
    ensures var es := [Install(Some(p))] + rest;
            && Run(s, es).Some? && Run(s, es).value.resolved.Some?
            && Trace(s, es) == [Called(t, op), Effected(t, op, r), Returned(t, op, r)] && r != Unavailable
            && (s.resolved.None? ==> Run(s, es).value.log == [p])
  {
    Installs(s, p);
    hide Run, Trace, Next, Inv, PcOf, Visible;
    var s' := Next(s, Install(Some(p))).value;
    rest, r := RetryFrom(s', t, op);
    TraceCons(s, Install(Some(p)), rest);
    if s.resolved.None? {
      forall e | e in rest ensures !e.Install? { assert ThreadOf(e) == Some(t); }
      FromTheInstalled(s', rest, p);
    }
  }

  /**
   Late binding. From every reachable state in which no thread is inside, whatever is installed there and whatever failed
   before: once any provider `p` is installed, a thread that calls `Give`, `Wait` or `Reset` alone gets an answer other than
   `Unavailable`, provided that `p` delivers; the signal is then resolved, and if it was not before, `p` created it.
   */
  lemma RetryAfterInstalling(initiallySet: bool, slot: Option<ProviderId>, before: seq<Event>, p: ProviderId, t: Tid, op: SignalOp)
      returns (rest: seq<Event>, r: SignalResult)
    requires Run(Init(initiallySet, slot), before).Some? && !op.GiveFromInterrupt?
    requires var s := Run(Init(initiallySet, slot), before).value;
             !s.terminated && forall u: Tid :: PcOf(s, u).Idle?
    ensures var s, es := Run(Init(initiallySet, slot), before).value, [Install(Some(p))] + rest;
            && Run(s, es).Some? && Run(s, es).value.resolved.Some?
            && Trace(s, es) == [Called(t, op), Effected(t, op, r), Returned(t, op, r)] && r != Unavailable
            && (s.resolved.None? ==> Run(s, es).value.log == [p])
  {
    Linearizable(initiallySet, slot, before);
    hide Explains, PhasesAgree, Run, Trace, Inv, PcOf;
    rest, r := InstallAndRetry(Run(Init(initiallySet, slot), before).value, p, t, op);
  }
}
