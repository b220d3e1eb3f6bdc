/**
 The lazily resolved wrapper behaves as one primitive that existed from the start: a forward simulation from the
 machine of `LazyWrapper` to the `Object` it is built on, whatever happens to the provider slot.
 */
module WrapperRefinement {
  import opened Common
  import opened AtomicObjects
  import opened LazyWrapper

  /** The state of the primitive that callers believe to use. */
  ghost function Abs<S, Op, R>(obj: Object<S, Op, R>, s: State<S, Op, R>): S
    requires Inv(obj, s)
  {
    if s.resolved.Some? then s.objects[s.resolved.value] else obj.init
  }

  /** What the callers of the wrapper see of event `e`. */
  function Visible<S, Op, R>(s: State<S, Op, R>, e: Event<Op, R>): seq<Label<Op, R>> {
    match e
    case Call(t, op) => [Called(t, op)]
    case Apply(t, r) => (match PcOf(s, t) case AtPrimitive(op, _) => [Effected(t, op, r)] case _ => [])
    case Advance(t) => (match PcOf(s, t) case AtReturn(op, r) => [Returned(t, op, r)] case _ => [])
    case _ => []
  }

  function Trace<S, Op, R>(obj: Object<S, Op, R>, s: State<S, Op, R>, es: seq<Event<Op, R>>): seq<Label<Op, R>>
    requires Run(obj, s, es).Some?
  {
    if es == [] then []
    else
      var before := es[..|es| - 1];
      Trace(obj, s, before) + Visible(Run(obj, s, before).value, es[|es| - 1])
  }

  function PhaseOf<Op, R>(pc: Pc<Op, R>): Phase<Op, R> {
    match pc
    case Idle => Quiet
    case AtReturn(op, r) => Decided(op, r)
    case _ => Pending(pc.op)
  }

  /** One step of the wrapper is one operation of the primitive, or nothing at all. */
  lemma Simulates<S, Op, R>(obj: Object<S, Op, R>, s: State<S, Op, R>, e: Event<Op, R>)
    requires Inv(obj, s) && Next(obj, s, e).Some?
    ensures Inv(obj, Next(obj, s, e).value)
    ensures e.Apply? ==>
      PcOf(s, e.thread).AtPrimitive? &&
      obj.apply(Abs(obj, s), e.thread, PcOf(s, e.thread).op, e.result) == Some(Abs(obj, Next(obj, s, e).value))
    ensures !e.Apply? ==> Abs(obj, Next(obj, s, e).value) == Abs(obj, s)
  {
    NextInv(obj, s, e);
    if !e.Install? { assert Knows(s, PcOf(s, e.thread)); }
  }

  /** A call on the resolved primitive completes exactly when it would on the one that callers believe to use. */
  lemma CompletesAsAtomic<S, Op, R>(obj: Object<S, Op, R>, s: State<S, Op, R>, t: Tid, r: R)
    requires Inv(obj, s) && PcOf(s, t).AtPrimitive?
    ensures Next(obj, s, Apply(t, r)).Some? <==> obj.apply(Abs(obj, s), t, PcOf(s, t).op, r).Some?
  {
    assert Knows(s, PcOf(s, t));
  }

  lemma PhaseFollows<S, Op, R>(obj: Object<S, Op, R>, s: State<S, Op, R>, e: Event<Op, R>, t: Tid)
    requires Next(obj, s, e).Some?
    ensures var v := Visible(s, e);
            var after := Some(PhaseOf(PcOf(Next(obj, s, e).value, t)));
            |v| <= 1 && after == if v == [] then Some(PhaseOf(PcOf(s, t))) else PhaseStep(PhaseOf(PcOf(s, t)), v[0], t)
  {
    OthersStay(obj, s, e);
  }

  lemma TraceSnoc<S, Op, R>(obj: Object<S, Op, R>, s0: State<S, Op, R>, es: seq<Event<Op, R>>, e: Event<Op, R>)
    requires Run(obj, s0, es + [e]).Some?
    ensures Run(obj, s0, es).Some? && Next(obj, Run(obj, s0, es).value, e) == Run(obj, s0, es + [e])
    ensures Trace(obj, s0, es + [e]) == Trace(obj, s0, es) + Visible(Run(obj, s0, es).value, e)
  {
    assert (es + [e])[..|es|] == es;
  }

  /** The trace agrees with the object, and its calls and returns with the program counters of `s`. */
  ghost predicate Agrees<S, Op, R>(obj: Object<S, Op, R>, s: State<S, Op, R>, trace: seq<Label<Op, R>>)
    requires Inv(obj, s)
  {
    && AtomicRun(obj, Effects(trace)) == Some(Abs(obj, s))
    && forall t :: PhaseAfter(trace, t) == Some(PhaseOf(PcOf(s, t)))
  }

  lemma NextAgrees<S, Op, R>(obj: Object<S, Op, R>, s: State<S, Op, R>, e: Event<Op, R>, trace: seq<Label<Op, R>>)
    requires Inv(obj, s) && Next(obj, s, e).Some? && Agrees(obj, s, trace)
    ensures Inv(obj, Next(obj, s, e).value)
    ensures Agrees(obj, Next(obj, s, e).value, trace + Visible(s, e))
  {
    Simulates(obj, s, e);
    var s', v := Next(obj, s, e).value, Visible(s, e);
    if v == [] {
      assert trace + v == trace;
    } else {
      assert v == [v[0]];
      EffectsSnoc(trace, v[0]);
      if v[0].Effected? {
        AtomicRunSnoc(obj, Effects(trace), Completed(v[0].thread, v[0].op, v[0].result));
      } else {
        assert Effects(trace + v) == Effects(trace);
      }
    }
    forall t ensures PhaseAfter(trace + v, t) == Some(PhaseOf(PcOf(s', t))) {
      PhaseFollows(obj, s, e, t);
      if v != [] { PhaseSnoc(trace, v[0], t); }
    }
  }

  /**
   Linearizability. In every run every operation takes effect once, between its call and its return, and returns the
   result with which it took effect; and the operations, in the order of their effects, are a run of the primitive.
   */
  lemma {:induction false} Linearizable<S, Op, R>(obj: Object<S, Op, R>, slot: Option<ProviderId>, es: seq<Event<Op, R>>)
    requires Run(obj, Init(obj, slot), es).Some?
    ensures var s := Run(obj, Init(obj, slot), es).value;
            Inv(obj, s) && Agrees(obj, s, Trace(obj, Init(obj, slot), es))
  {
    InitInv(obj, slot);
    if es != [] {
      var before, e := es[..|es| - 1], es[|es| - 1];
      assert es == before + [e];
      TraceSnoc(obj, Init(obj, slot), before, e);
      Linearizable(obj, slot, before);
      NextAgrees(obj, Run(obj, Init(obj, slot), before).value, e, Trace(obj, Init(obj, slot), before));
    }
  }
}
