/**
 What resolution decides, and for how long: the published pointer, its owner, and the one provider snapshot on which the
 choice rests.
 */
module WrapperStability {
  import opened Common
  import opened AtomicObjects
  import opened LazyWrapper

  // ------------------------------------------------------------- published pointer

  /**
   No pointer to a primitive dangles: what is published is the fallback or the primitive that `_owned` holds, it exists,
   and it is the only pointer that any thread carries.
   */
  lemma PublishedIsOwned<S, Op, R>(obj: Object<S, Op, R>, slot: Option<ProviderId>, es: seq<Event<Op, R>>, t: Tid)
    requires Run(obj, Init(obj, slot), es).Some?
    ensures var s := Run(obj, Init(obj, slot), es).value;
            var pc := PcOf(s, t);
            && (s.resolved.Some? ==>
                  s.resolved.value in s.objects &&
                  (s.resolved.value.Created? <==> s.owned.Some?) &&
                  (s.resolved.value.Created? ==> s.owned == Some(s.resolved.value.id)))
            && (pc.AtUnguard? || pc.AtPrimitive? ==> s.resolved == Some(pc.target))
  {
    InitInv(obj, slot);
    RunInv(obj, Init(obj, slot), es);
    assert Knows(Run(obj, Init(obj, slot), es).value, PcOf(Run(obj, Init(obj, slot), es).value, t));
  }

  /** The provider calls that create primitives, counted along a run. */
  function FactoryCalls<Op, R>(es: seq<Event<Op, R>>): nat {
    if es == [] then 0 else FactoryCalls(es[..|es| - 1]) + if es[|es| - 1].Make? then 1 else 0
  }

  /**
   Permanence: once a pointer is published, every continuation keeps it and its owner, and calls no factory again,
   whatever is installed later. In particular a wrapper that settled on its fallback keeps the fallback.
   */
  lemma {:induction false} ResolvedForever<S, Op, R>(obj: Object<S, Op, R>, s: State<S, Op, R>, es: seq<Event<Op, R>>)
    requires Inv(obj, s) && s.resolved.Some? && Run(obj, s, es).Some?
    ensures var s' := Run(obj, s, es).value;
            && s'.resolved == s.resolved && s'.owned == s.owned && s'.log == s.log
            && s'.objects.Keys == s.objects.Keys
    ensures FactoryCalls(es) == 0
  {
    if es != [] {
      var before := es[..|es| - 1];
      ResolvedForever(obj, s, before);
      RunInv(obj, s, before);
      var s1, e := Run(obj, s, before).value, es[|es| - 1];
      if !e.Install? { assert Knows(s1, PcOf(s1, e.thread)); }
    }
  }

  /** The provider of the last installation among the events, or `slot` when there is none. */
  function LastInstalled<Op, R>(es: seq<Event<Op, R>>, slot: Option<ProviderId>): Option<ProviderId> {
    if es == [] then slot
    else if es[|es| - 1].Install? then es[|es| - 1].provider
    else LastInstalled(es[..|es| - 1], slot)
  }

  /** Installations, and nothing else, decide what a later read of the slot finds. */
  lemma {:induction false} SlotIsLastInstalled<S, Op, R>(obj: Object<S, Op, R>, s: State<S, Op, R>, es: seq<Event<Op, R>>)
    requires Run(obj, s, es).Some?
    ensures Run(obj, s, es).value.slot == LastInstalled(es, s.slot)
  {
    if es != [] { SlotIsLastInstalled(obj, s, es[..|es| - 1]); }
  }

  // ------------------------------------------------------------- the snapshot

  /** The choices that the provider slot and the factories make for the wrapper. */
  datatype Decision =
    | Read(thread: Tid, slot: Option<ProviderId>)
    | Factory(thread: Tid, provider: ProviderId, outcome: Outcome)

  function Decided<S, Op, R>(s: State<S, Op, R>, e: Event<Op, R>): seq<Decision> {
    match e
    case Advance(t) => if PcOf(s, t).AtSlot? then [Read(t, s.slot)] else []
    case Make(t, outcome) => (match PcOf(s, t) case AtFactory(_, p) => [Factory(t, p, outcome)] case _ => [])
    case _ => []
  }

  function Decisions<S, Op, R>(obj: Object<S, Op, R>, s: State<S, Op, R>, es: seq<Event<Op, R>>): seq<Decision>
    requires Run(obj, s, es).Some?
  {
    if es == [] then []
    else
      var before := es[..|es| - 1];
      Decisions(obj, s, before) + Decided(Run(obj, s, before).value, es[|es| - 1])
  }

  /** One thread read the slot once, asked the provider that it saw there, if any, and took what that provider made. */
  predicate Settles(d: seq<Decision>, owned: Option<nat>, log: seq<ProviderId>) {
    || (|d| == 1 && d[0].Read? && d[0].slot.None? && owned.None?)
    || (&& |d| == 2 && d[1].Factory?
        && d[0] == Read(d[1].thread, Some(d[1].provider))
        && owned.Some? == d[1].outcome.Fresh?
        && (owned.Some? ==> log == [d[1].provider]))
  }

  ghost predicate DecisionsMatch<S, Op, R>(s: State<S, Op, R>, d: seq<Decision>) {
    && (s.resolved.None? && !s.guard ==> d == [])
    && (s.resolved.Some? ==> Settles(d, s.owned, s.log))
    && (forall t :: DecisionsAt(s, d, t, PcOf(s, t)))
  }

  ghost predicate DecisionsAt<S, Op, R>(s: State<S, Op, R>, d: seq<Decision>, t: Tid, pc: Pc<Op, R>) {
    && (pc.AtRecheck? && s.resolved.None? ==> d == [])
    && (pc.AtSlot? ==> d == [])
    && (pc.AtFactory? ==> d == [Read(t, Some(pc.provider))])
    && (pc.AtPublish? ==> Settles(d, s.owned, s.log))
  }

  lemma NextDecisionsOther<S, Op, R>(obj: Object<S, Op, R>, s: State<S, Op, R>, e: Event<Op, R>, d: seq<Decision>, t: Tid)
    requires Inv(obj, s) && Next(obj, s, e).Some? && DecisionsMatch(s, d) && (e.Install? || e.thread != t)
    ensures DecisionsAt(Next(obj, s, e).value, d + Decided(s, e), t, PcOf(Next(obj, s, e).value, t))
  {
    assert DecisionsAt(s, d, t, PcOf(s, t)) && Knows(s, PcOf(s, t));
    OthersStay(obj, s, e);
    assert !e.Install? && Guarded(PcOf(s, t)) ==> !Guarded(PcOf(s, e.thread));
    DecidedInside(s, e);
    if e.Install? || !Guarded(PcOf(s, e.thread)) { SharedStays(obj, s, e); }
    assert d + [] == d;
    hide Next, Inv, Decided;
  }

  lemma NextDecisionsOwn<S, Op, R>(obj: Object<S, Op, R>, s: State<S, Op, R>, e: Event<Op, R>, d: seq<Decision>)
    requires Ownership(obj, s) && Next(obj, s, e).Some? && !e.Install?
    requires DecisionsAt(s, d, e.thread, PcOf(s, e.thread)) && Knows(s, PcOf(s, e.thread))
    requires s.resolved.None? && !s.guard ==> d == []
    ensures DecisionsAt(Next(obj, s, e).value, d + Decided(s, e), e.thread, PcOf(Next(obj, s, e).value, e.thread))
  {
    match e
    case Advance(_) => hide Made, Applied;
    case Make(_, _) => hide Advanced, Applied;
    case _ => hide Advanced, Made;
  }

  lemma NextDecisionsAt<S, Op, R>(obj: Object<S, Op, R>, s: State<S, Op, R>, e: Event<Op, R>, d: seq<Decision>, t: Tid)
    requires Inv(obj, s) && Next(obj, s, e).Some? && DecisionsMatch(s, d)
    ensures DecisionsAt(Next(obj, s, e).value, d + Decided(s, e), t, PcOf(Next(obj, s, e).value, t))
  {
    if e.Install? || e.thread != t {
      NextDecisionsOther(obj, s, e, d, t);
    } else {
      assert DecisionsAt(s, d, t, PcOf(s, t)) && Knows(s, PcOf(s, t));
      NextDecisionsOwn(obj, s, e, d);
    }
    hide Next, DecisionsAt, Decided;
  }

  lemma DecidedInside<S, Op, R>(s: State<S, Op, R>, e: Event<Op, R>)
    ensures Decided(s, e) != [] ==> !e.Install? && Guarded(PcOf(s, e.thread))
  {
  }

  lemma NextDecisions<S, Op, R>(obj: Object<S, Op, R>, s: State<S, Op, R>, e: Event<Op, R>, d: seq<Decision>)
    requires Inv(obj, s) && Next(obj, s, e).Some? && DecisionsMatch(s, d)
    ensures DecisionsMatch(Next(obj, s, e).value, d + Decided(s, e))
  {
    forall t ensures DecisionsAt(Next(obj, s, e).value, d + Decided(s, e), t, PcOf(Next(obj, s, e).value, t)) {
      NextDecisionsAt(obj, s, e, d, t);
    }
    if !e.Install? {
      assert DecisionsAt(s, d, e.thread, PcOf(s, e.thread));
      assert Knows(s, PcOf(s, e.thread));
    }
  }

  /**
   Snapshot: a run reads the slot for the wrapper at most once, at one instant inside the guarded section of one thread,
   and when the wrapper is resolved its primitive came from the provider that was installed at that instant; it is the
   fallback exactly when the slot was empty then or that provider returned null or threw.
   */
  lemma {:induction false} OneSnapshot<S, Op, R>(obj: Object<S, Op, R>, slot: Option<ProviderId>, es: seq<Event<Op, R>>)
    requires Run(obj, Init(obj, slot), es).Some?
    ensures var s := Run(obj, Init(obj, slot), es).value;
            var d := Decisions(obj, Init(obj, slot), es);
            && Inv(obj, s) && DecisionsMatch(s, d)
            && (s.resolved.Some? ==>
                  |d| > 0 && d[0].Read? &&
                  (s.resolved.value.Fallback? <==> d[0].slot.None? || (|d| == 2 && !d[1].outcome.Fresh?)) &&
                  (s.resolved.value.Created? ==> s.log == [d[0].slot.value]))
  {
    InitInv(obj, slot);
    if es != [] {
      var before := es[..|es| - 1];
      OneSnapshot(obj, slot, before);
      var s := Run(obj, Init(obj, slot), before).value;
      NextInv(obj, s, es[|es| - 1]);
      NextDecisions(obj, s, es[|es| - 1], Decisions(obj, Init(obj, slot), before));
    }
  }
}
