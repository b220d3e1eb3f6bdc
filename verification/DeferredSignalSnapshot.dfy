/**
 On which attempt a deferred signal settles: one read of the provider slot and one factory call, by one thread that owns the
 inner mutex from the read to the store; every attempt before that one failed.
 */
module DeferredSignalSnapshot {
  import opened Common
  import opened DeferredSignal
  import opened DeferredSignalTheorems
  import W = LazyWrapper
  import opened WrapperStability

  function DecidedBy(s: State, e: Event): seq<Decision> {
    match e
    case Advance(t) => if PcOf(s, t).AtSlot? then [Read(t, s.lock.slot)] else []
    case Make(t, outcome) => (match PcOf(s, t) case AtFactory(_, p) => [Factory(t, p, outcome)] case _ => [])
    case _ => []
  }

  /** The reads of the slot and the factory calls of a run. */
  function Attempts(s: State, es: seq<Event>): seq<Decision>
    requires Run(s, es).Some?
  {
    if es == [] then []
    else Attempts(s, es[..|es| - 1]) + DecidedBy(Run(s, es[..|es| - 1]).value, es[|es| - 1])
  }

  /** Whole attempts, each of which found the slot empty or got null from the provider that it found there. */
  predicate AllFailed(d: seq<Decision>)
    decreases |d|
  {
    d == [] ||
    var before, last := d[..|d| - 1], d[|d| - 1];
    if last.Read? then last.slot.None? && AllFailed(before)
    else last.outcome.Null? && Asked(before, last.thread, last.provider)
  }

  /** After failed attempts thread `t` found provider `p` in the slot. */
  predicate Asked(d: seq<Decision>, t: Tid, p: ProviderId)
    decreases |d|
  {
    d != [] && d[|d| - 1] == Read(t, Some(p)) && AllFailed(d[..|d| - 1])
  }

  /** ... and asked it for a signal, with the given outcome. */
  predicate Got(d: seq<Decision>, t: Tid, p: ProviderId, outcome: W.Outcome) {
    d != [] && d[|d| - 1] == Factory(t, p, outcome) && Asked(d[..|d| - 1], t, p)
  }

  predicate InAttempt(pc: Pc) { pc.AtFactory? || pc.AtPublish? }

  /** What the attempts so far say about the state. */
  ghost predicate Settled(s: State, d: seq<Decision>) {
    && (s.resolved.Some? ==> s.log != [] && d != [] && Got(d, d[|d| - 1].thread, s.log[0], W.Fresh))
    && (s.terminated ==> s.resolved.None? && d != [] && d[|d| - 1].Factory? &&
                         Got(d, d[|d| - 1].thread, d[|d| - 1].provider, W.Throw))
    && (!s.terminated && s.resolved.None? && (forall t: Tid :: !InAttempt(PcOf(s, t))) ==> AllFailed(d))
    && (!s.terminated ==> forall t: Tid :: SettledAt(s, d, t, PcOf(s, t)))
  }

  ghost predicate SettledAt(s: State, d: seq<Decision>, t: Tid, pc: Pc) {
    && (pc.AtFactory? ==> Asked(d, t, pc.provider))
    && (pc.AtPublish? ==> s.log != [] && Got(d, t, s.log[0], W.Fresh))
  }

  /** The step begins, continues or ends an attempt. */
  predicate Attempting(s: State, e: Event) {
    ThreadOf(e).Some? && (PcOf(s, ThreadOf(e).value).AtSlot? || InAttempt(PcOf(s, ThreadOf(e).value)))
  }

  lemma OutsideStays(s: State, e: Event, t: Tid)
    requires Next(s, e).Some? && !Attempting(s, e)
    ensures var s' := Next(s, e).value;
            && s'.resolved == s.resolved && s'.log == s.log && s'.terminated == s.terminated && DecidedBy(s, e) == []
            && (InAttempt(PcOf(s', t)) || InAttempt(PcOf(s, t)) ==> PcOf(s', t) == PcOf(s, t))
  {
    hide W.Next;
    match e
    case Advance(_) => hide Stepped, Made, Applied;
    case Make(_, _) => hide Stepped, Advanced, Applied;
    case Inner(_) => hide Advanced, Made, Applied;
    case _ => hide Stepped, Advanced, Made;
  }

  /** A step outside every attempt decides nothing. */
  lemma SettledOutside(s: State, e: Event, d: seq<Decision>)
    requires Next(s, e).Some? && Settled(s, d) && !Attempting(s, e)
    ensures Settled(Next(s, e).value, d + DecidedBy(s, e))
  {
    var s' := Next(s, e).value;
    OutsideStays(s, e, 0);
    assert d + [] == d;
    forall t: Tid ensures InAttempt(PcOf(s', t)) || InAttempt(PcOf(s, t)) ==> PcOf(s', t) == PcOf(s, t) {
      OutsideStays(s, e, t);
    }
    hide Next, Asked, Got, AllFailed;
    forall t: Tid ensures SettledAt(s', d, t, PcOf(s', t)) {
      assert SettledAt(s, d, t, PcOf(s, t));
    }
  }

  /** One more decision extends the attempts as the transitions of a single attempt say. */
  lemma OneMore(d: seq<Decision>, last: Decision)
    ensures AllFailed(d) && last.Read? && last.slot.Some? ==> Asked(d + [last], last.thread, last.slot.value)
    ensures AllFailed(d) && last.Read? && last.slot.None? ==> AllFailed(d + [last])
    ensures last.Factory? && Asked(d, last.thread, last.provider) ==>
              Got(d + [last], last.thread, last.provider, last.outcome) && (last.outcome.Null? ==> AllFailed(d + [last]))
  {
    assert (d + [last])[..|d|] == d;
  }

  lemma AttemptEvent(s: State, e: Event)
    requires Next(s, e).Some? && Attempting(s, e)
    ensures if PcOf(s, ThreadOf(e).value).AtFactory? then e.Make? else e.Advance?
  {
    hide W.Next;
  }

  /** The other threads are in no attempt, before or after a step inside one. */
  lemma AttemptIsAlone(s: State, e: Event, u: Tid)
    requires Inv(s) && Next(s, e).Some? && Attempting(s, e) && ThreadOf(e) != Some(u)
    ensures !InAttempt(PcOf(s, u)) && PcOf(Next(s, e).value, u) == PcOf(s, u)
  {
    OneCreator(s, ThreadOf(e).value, u);
    PcsStay(s, e, u);
  }

  lemma SettledRead(s: State, e: Event, d: seq<Decision>)
    requires Inv(s) && Next(s, e).Some? && Settled(s, d) && Attempting(s, e) && PcOf(s, ThreadOf(e).value).AtSlot?
    ensures Settled(Next(s, e).value, d + DecidedBy(s, e))
  {
    var s', t := Next(s, e).value, ThreadOf(e).value;
    AttemptEvent(s, e);
    forall u: Tid | u != t ensures !InAttempt(PcOf(s, u)) && PcOf(s', u) == PcOf(s, u) { AttemptIsAlone(s, e, u); }
    assert ThreadInv(s, t) && AllFailed(d);
    OneMore(d, Read(t, s.lock.slot));
    assert DecidedBy(s, e) == [Read(t, s.lock.slot)];
    hide Inv, ThreadInv, Asked, AllFailed, Got, OwnsMutex;
    assert SettledAt(s', d + DecidedBy(s, e), t, PcOf(s', t));
  }

  lemma SettledMade(s: State, e: Event, d: seq<Decision>)
    requires Inv(s) && Next(s, e).Some? && Settled(s, d) && Attempting(s, e) && PcOf(s, ThreadOf(e).value).AtFactory?
    ensures Settled(Next(s, e).value, d + DecidedBy(s, e))
  {
    var s', t := Next(s, e).value, ThreadOf(e).value;
    AttemptEvent(s, e);
    forall u: Tid | u != t ensures !InAttempt(PcOf(s, u)) && PcOf(s', u) == PcOf(s, u) { AttemptIsAlone(s, e, u); }
    assert ThreadInv(s, t) && SettledAt(s, d, t, PcOf(s, t));
    OneMore(d, Factory(t, PcOf(s, t).provider, e.outcome));
    assert DecidedBy(s, e) == [Factory(t, PcOf(s, t).provider, e.outcome)];
    hide Inv, ThreadInv, Asked, AllFailed, Got, OwnsMutex;
    assert e.outcome.Fresh? ==> SettledAt(s', d + DecidedBy(s, e), t, PcOf(s', t));
  }

  lemma SettledStored(s: State, e: Event, d: seq<Decision>)
    requires Inv(s) && Next(s, e).Some? && Settled(s, d) && Attempting(s, e) && PcOf(s, ThreadOf(e).value).AtPublish?
    ensures Settled(Next(s, e).value, d + DecidedBy(s, e))
  {
    var s', t := Next(s, e).value, ThreadOf(e).value;
    AttemptEvent(s, e);
    forall u: Tid | u != t ensures !InAttempt(PcOf(s, u)) && PcOf(s', u) == PcOf(s, u) { AttemptIsAlone(s, e, u); }
    assert SettledAt(s, d, t, PcOf(s, t));
    assert d + [] == d;
    hide Inv, ThreadInv, Asked, AllFailed, OwnsMutex;
  }

  lemma NextSettled(s: State, e: Event, d: seq<Decision>)
    requires Inv(s) && Next(s, e).Some? && Settled(s, d)
    ensures Settled(Next(s, e).value, d + DecidedBy(s, e))
  {
    if !Attempting(s, e) {
      SettledOutside(s, e, d);
    } else {
      match PcOf(s, ThreadOf(e).value)
      case AtSlot(_) => SettledRead(s, e, d);
      case AtFactory(_, _) => SettledMade(s, e, d);
      case AtPublish(_, _) => SettledStored(s, e, d);
    }
    hide Next, Inv, Settled;
  }

  lemma {:induction false} RunSettled(initiallySet: bool, slot: Option<ProviderId>, es: seq<Event>)
    requires Run(Init(initiallySet, slot), es).Some?
    ensures Inv(Run(Init(initiallySet, slot), es).value)
    ensures Settled(Run(Init(initiallySet, slot), es).value, Attempts(Init(initiallySet, slot), es))
  {
    if es == [] {
      InitInv(initiallySet, slot);
    } else {
      var before := es[..|es| - 1];
      RunSettled(initiallySet, slot, before);
      var s := Run(Init(initiallySet, slot), before).value;
      hide Next, Inv, Settled;
      NextInv(s, es[|es| - 1]);
      NextSettled(s, es[|es| - 1], Attempts(Init(initiallySet, slot), before));
    }
  }

  lemma GotIsAttempt(d: seq<Decision>, t: Tid, p: ProviderId, outcome: W.Outcome)
    requires Got(d, t, p, outcome)
    ensures |d| >= 2 && d[|d| - 2] == Read(t, Some(p)) && d[|d| - 1] == Factory(t, p, outcome) && AllFailed(d[..|d| - 2])
  {
    assert d[..|d| - 1][..|d| - 2] == d[..|d| - 2];
  }

  /**
   Snapshot. In every run the reads of the slot and the factory calls form whole attempts, one after the other. When a
   signal is published, it is the only one ever created; it came from the last attempt, in which one thread read a provider
   from the slot, asked that provider and got it; and each earlier attempt read an empty slot or got null.
   */
  lemma OneSnapshot(initiallySet: bool, slot: Option<ProviderId>, es: seq<Event>)
    requires Run(Init(initiallySet, slot), es).Some?
    ensures var s := Run(Init(initiallySet, slot), es).value;
            var d := Attempts(Init(initiallySet, slot), es);
            && Settled(s, d)
            && (s.resolved.Some? ==>
                  && |d| >= 2 && d[|d| - 1].Factory? && d[|d| - 1].outcome.Fresh?
                  && d[|d| - 2] == Read(d[|d| - 1].thread, Some(d[|d| - 1].provider))
                  && s.log == [d[|d| - 1].provider] && s.resolved == Some(0)
                  && AllFailed(d[..|d| - 2]))
  {
    RunSettled(initiallySet, slot, es);
    var s, d := Run(Init(initiallySet, slot), es).value, Attempts(Init(initiallySet, slot), es);
    hide Run, Attempts, ThreadInv, Got, AllFailed;
    if s.resolved.Some? { GotIsAttempt(d, d[|d| - 1].thread, s.log[0], W.Fresh); }
  }

  // ------------------------------------------------------------- from the read to the store

  /** Thread `t`, which owns the inner mutex, is about to read provider `p` from the slot. */
  predicate Reads(s: State, t: Tid, p: ProviderId) {
    PcOf(s, t).AtSlot? && s.lock.slot == Some(p) && OwnsInner(s, t)
  }

  /** Thread `t`, which owns the inner mutex, asks provider `p` for a signal or is about to publish what `p` made. */
  predicate Creates(s: State, t: Tid, p: ProviderId) {
    && s.resolved.None? && OwnsInner(s, t)
    && ((PcOf(s, t).AtFactory? && PcOf(s, t).provider == p) || (PcOf(s, t).AtPublish? && s.log == [p]))
  }

  /** Event `i` of the run is a read of `p` by `t`, which is in the attempt that this began until event `n`. */
  ghost predicate Attempted(s0: State, es: seq<Event>, i: nat, n: nat, t: Tid, p: ProviderId) {
    && i < n <= |es| && es[i] == Advance(t)
    && Run(s0, es[..i]).Some? && Reads(Run(s0, es[..i]).value, t, p)
    && forall k :: i < k <= n ==> Run(s0, es[..k]).Some? && Creates(Run(s0, es[..k]).value, t, p)
  }

  lemma Prefixes(es: seq<Event>, e: Event, k: nat)
    requires k <= |es|
    ensures (es + [e])[..k] == es[..k] && (es + [e])[..|es| + 1] == es + [e]
  {
  }

  lemma AttemptedLonger(s0: State, es: seq<Event>, e: Event, i: nat, n: nat, t: Tid, p: ProviderId)
    requires Attempted(s0, es, i, n, t, p)
    ensures Attempted(s0, es + [e], i, n, t, p)
  {
    hide Run, Reads, Creates;
    Prefixes(es, e, i);
    forall k | i < k <= n
      ensures Run(s0, (es + [e])[..k]).Some? && Creates(Run(s0, (es + [e])[..k]).value, t, p)
    {
      Prefixes(es, e, k);
    }
  }

  lemma AttemptedOneMore(s0: State, es: seq<Event>, e: Event, i: nat, t: Tid, p: ProviderId)
    requires Attempted(s0, es, i, |es|, t, p) && Run(s0, es + [e]).Some? && Creates(Run(s0, es + [e]).value, t, p)
    ensures Attempted(s0, es + [e], i, |es| + 1, t, p)
  {
    hide Run, Reads, Creates;
    Prefixes(es, e, i);
    forall k | i < k <= |es| + 1
      ensures Run(s0, (es + [e])[..k]).Some? && Creates(Run(s0, (es + [e])[..k]).value, t, p)
    {
      if k <= |es| { Prefixes(es, e, k); }
    }
  }

  lemma AttemptedFirst(s0: State, es: seq<Event>, t: Tid, p: ProviderId)
    requires Run(s0, es).Some? && Reads(Run(s0, es).value, t, p)
    requires Run(s0, es + [Advance(t)]).Some? && Creates(Run(s0, es + [Advance(t)]).value, t, p)
    ensures Attempted(s0, es + [Advance(t)], |es|, |es| + 1, t, p)
  {
    hide Run, Reads, Creates;
    Prefixes(es, Advance(t), |es|);
    assert es[..|es|] == es;
  }

  /** How one step brings a thread into an attempt, or leaves it there. */
  ghost predicate Continues(s: State, e: Event, s': State, t: Tid) {
    var pc, pc' := PcOf(s, t), PcOf(s', t);
    if pc.AtSlot? then
      e == Advance(t) && pc'.AtFactory? && s.lock.slot == Some(pc'.provider)
    else
      && InAttempt(pc)
      && (pc.AtPublish? ==> pc'.AtPublish? && s'.log == s.log && s.log != [])
      && (pc.AtFactory? && pc'.AtFactory? ==> pc'.provider == pc.provider)
      && (pc.AtFactory? && pc'.AtPublish? ==> s'.log == [pc.provider])
  }

  lemma ContinuesOther(s: State, e: Event, t: Tid)
    requires Inv(s) && Next(s, e).Some? && InAttempt(PcOf(Next(s, e).value, t)) && ThreadOf(e) != Some(t)
    ensures Continues(s, e, Next(s, e).value, t)
  {
    assert ThreadInv(s, t) && Ownership(s);
    PcsStay(s, e, t);
    SharedStays(s, e);
    if ThreadOf(e).Some? { OneCreator(s, t, ThreadOf(e).value); assert ThreadInv(s, ThreadOf(e).value); }
    hide Next, Inv;
  }

  lemma ContinuesAdvanced(s: State, t: Tid)
    requires Advanced(s, t).Some? && InAttempt(PcOf(Advanced(s, t).value, t))
    ensures Continues(s, Advance(t), Advanced(s, t).value, t)
  {
  }

  lemma ContinuesOwn(s: State, e: Event, t: Tid)
    requires Next(s, e).Some? && InAttempt(PcOf(Next(s, e).value, t)) && ThreadOf(e) == Some(t)
    requires Ownership(s) && Knows(s, PcOf(s, t))
    ensures Continues(s, e, Next(s, e).value, t)
  {
    match e
    case Advance(_) => ContinuesAdvanced(s, t); hide Advanced, Continues;
    case Make(_, _) => hide Stepped, Advanced, Applied;
    case Inner(_) => hide W.Next, Advanced, Made, Applied;
    case _ => hide Stepped, Advanced, Made;
  }

  /** What a thread in an attempt has decided, after one more event. */
  lemma NextCreates(s: State, e: Event, t: Tid, p: ProviderId)
    requires Inv(s) && Next(s, e).Some? && InAttempt(PcOf(Next(s, e).value, t))
    ensures Inv(Next(s, e).value)
    ensures Creates(s, t, p) ==> Creates(Next(s, e).value, t, p)
    ensures PcOf(s, t).AtSlot? ==>
              e == Advance(t) && s.lock.slot.Some? && Reads(s, t, s.lock.slot.value) &&
              Creates(Next(s, e).value, t, s.lock.slot.value)
    ensures !PcOf(s, t).AtSlot? ==> InAttempt(PcOf(s, t))
  {
    var s' := Next(s, e).value;
    if ThreadOf(e) == Some(t) { assert ThreadInv(s, t); ContinuesOwn(s, e, t); } else { ContinuesOther(s, e, t); }
    NextInv(s, e);
    OneCreator(s, t, t);
    OneCreator(s', t, t);
    assert ThreadInv(s', t);
    hide Next, Inv, OwnsInner, OwnsMutex;
  }

  /** Whoever is in an attempt read its provider from the slot, and has owned the inner mutex ever since. */
  lemma {:induction false} ReadBefore(s0: State, es: seq<Event>, t: Tid) returns (p: ProviderId, i: nat)
    requires Inv(s0) && !InAttempt(PcOf(s0, t))
    requires Run(s0, es).Some? && InAttempt(PcOf(Run(s0, es).value, t))
    ensures Attempted(s0, es, i, |es|, t, p)
  {
    var before, e := es[..|es| - 1], es[|es| - 1];
    assert es == before + [e];
    var s := Run(s0, before).value;
    RunInv(s0, before);
    hide Next, Inv, Creates, Reads, Attempted;
    if PcOf(s, t).AtSlot? {
      NextCreates(s, e, t, 0);
      p, i := s.lock.slot.value, |before|;
      AttemptedFirst(s0, before, t, p);
    } else {
      NextCreates(s, e, t, 0);
      p, i := ReadBefore(s0, before, t);
      AttemptedNow(s0, before, i, t, p);
      NextCreates(s, e, t, p);
      AttemptedOneMore(s0, before, e, i, t, p);
    }
  }

  lemma AttemptedNow(s0: State, es: seq<Event>, i: nat, t: Tid, p: ProviderId)
    requires Attempted(s0, es, i, |es|, t, p)
    ensures Run(s0, es).Some? && Creates(Run(s0, es).value, t, p)
  {
    assert es[..|es|] == es;
    hide Run, Reads, Creates;
  }

  /**
   The published signal came from the provider that one thread read from the slot at one instant; that thread owned the
   inner mutex from the read to the release store, and nothing was published in between.
   */
  lemma {:induction false} PublishedFromOneRead(s0: State, es: seq<Event>)
      returns (t: Tid, p: ProviderId, read: nat, store: nat)
    requires Inv(s0) && s0.resolved.None? && forall u: Tid :: !InAttempt(PcOf(s0, u))
    requires Run(s0, es).Some? && Run(s0, es).value.resolved.Some?
    ensures Run(s0, es).value.log == [p]
    ensures Attempted(s0, es, read, store, t, p)
    ensures store < |es| && es[store] == Advance(t)
    ensures Run(s0, es[..store]).Some? && PcOf(Run(s0, es[..store]).value, t).AtPublish?
  {
    var before, e := es[..|es| - 1], es[|es| - 1];
    assert es == before + [e];
    var s := Run(s0, before).value;
    RunInv(s0, before);
    if s.resolved.Some? {
      SharedStays(s, e);
      hide Next, Inv, Attempted;
      t, p, read, store := PublishedFromOneRead(s0, before);
      Prefixes(before, e, store);
    } else {
      hide Inv, Attempted;
      t, p, read := PublishedNow(s0, before, e);
      store := |before|;
      hide Next;
      Prefixes(before, e, store);
      assert before[..|before|] == before;
    }
    AttemptedLonger(s0, before, e, read, store, t, p);
  }

  lemma PublishedNow(s0: State, es: seq<Event>, e: Event) returns (t: Tid, p: ProviderId, read: nat)
    requires Inv(s0) && forall u: Tid :: !InAttempt(PcOf(s0, u))
    requires Run(s0, es).Some? && Run(s0, es).value.resolved.None?
    requires Next(Run(s0, es).value, e).Some? && Next(Run(s0, es).value, e).value.resolved.Some?
    ensures e == Advance(t) && PcOf(Run(s0, es).value, t).AtPublish? && Next(Run(s0, es).value, e).value.log == [p]
    ensures Attempted(s0, es, read, |es|, t, p)
  {
    Publishes(Run(s0, es).value, e);
    hide Next, Inv, Attempted;
    t := e.thread;
    p, read := ReadBefore(s0, es, t);
    AttemptedNow(s0, es, read, t, p);
  }

  lemma Publishes(s: State, e: Event)
    requires Next(s, e).Some? && s.resolved.None? && Next(s, e).value.resolved.Some?
    ensures e.Advance? && PcOf(s, e.thread).AtPublish? && Next(s, e).value.log == s.log
  {
    hide W.Next;
  }

  // ------------------------------------------------------------- the answer

  predicate Fails(d: seq<Decision>, t: Tid) {
    d != [] && d[0].thread == t && if d[0].Read? then d[0].slot.None? else d[0].outcome.Null?
  }

  /** Since its last call thread `t` has made an attempt, which found no provider or got null. */
  function AttemptFailed(s: State, es: seq<Event>, t: Tid): bool
    requires Run(s, es).Some?
  {
    if es == [] then false
    else
      var before, e := es[..|es| - 1], es[|es| - 1];
      if e.Call? && e.thread == t then false
      else Fails(DecidedBy(Run(s, before).value, e), t) || AttemptFailed(s, before, t)
  }

  /** The answer of an operation that may resolve: `Unavailable` if and only if its own attempt `failed`. */
  predicate AnswersFor(pc: Pc, failed: bool) {
    match pc
    case Idle => true
    case AtUnlock(_, found) => found.None? <==> failed
    case AtReturn(op, r) => op.GiveFromInterrupt? || (r.Unavailable? <==> failed)
    case _ => !failed
  }

  lemma NextAnswer(s: State, e: Event, t: Tid, failed: bool)
    requires Next(s, e).Some? && AnswersFor(PcOf(s, t), failed)
    ensures AnswersFor(PcOf(Next(s, e).value, t), !(e.Call? && e.thread == t) && (Fails(DecidedBy(s, e), t) || failed))
  {
    if ThreadOf(e) != Some(t) {
      PcsStay(s, e, t);
      hide Next;
    } else {
      hide W.Next;
    }
  }

  lemma {:induction false} UnavailableExactly(s: State, es: seq<Event>, t: Tid)
    requires Run(s, es).Some? && AnswersFor(PcOf(s, t), false)
    ensures AnswersFor(PcOf(Run(s, es).value, t), AttemptFailed(s, es, t))
  {
    if es != [] {
      var before, e := es[..|es| - 1], es[|es| - 1];
      UnavailableExactly(s, before, t);
      NextAnswer(Run(s, before).value, e, t, AttemptFailed(s, before, t));
      hide Next, AnswersFor, Fails, DecidedBy;
    }
  }
}
