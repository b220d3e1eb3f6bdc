/**
 The executions of `WeakMemory` contain the runs of `LazyWrapper`: each sequentially consistent run is the execution in which
 every load reads the latest store, and every store is placed last.
 */
module WeakMemoryRuns {
  import opened Common
  import opened AtomicObjects
  import opened WeakMemory
  import W = LazyWrapper

  /** Where the thread stands in `WeakMemory`; the call and the return of an operation are no actions there. */
  function PointOf<Op, R>(pc: W.Pc<Op, R>): Point {
    match pc
    case Idle => Outside
    case AtFastLoad(_) => Outside
    case AtGuard(_) => Entering
    case AtRecheck(_) => Rechecking
    case AtSlot(_) => ReadingSlot
    case AtFactory(_, p) => Creating(p)
    case AtPublish(_) => Publishing
    case AtUnguard(_, target) => Leaving(target)
    case AtPrimitive(_, target) => Using(target)
    case AtReturn(_, _) => Outside
  }

  /** The last store to each atomic. */
  datatype Front = Front(
    flag: Message<bool>,
    resolved: Message<Option<W.Target>>,
    slot: Message<Option<ProviderId>>)

  ghost predicate Latest<V>(messages: set<Message<V>>, last: Message<V>) {
    last in messages && forall m :: m in messages ==> m.to <= last.to
  }

  ghost predicate Within(v: View, f: Front, built: set<ProviderId>) {
    v.flag <= f.flag.to && v.resolved <= f.resolved.to && v.slot <= f.slot.to && v.providers <= built
  }

  /** `f` is the front of the machine, and nobody has seen anything beyond it. */
  ghost predicate AtFront(m: Machine, f: Front) {
    && Latest(m.flag, f.flag) && Latest(m.resolved, f.resolved) && Latest(m.slot, f.slot)
    && (forall t :: Within(At(m, t).view, f, m.built))
    && (forall n :: n in m.flag ==> Within(n.view, f, m.built))
    && (forall n :: n in m.resolved ==> Within(n.view, f, m.built))
    && (forall n :: n in m.slot ==> Within(n.view, f, m.built))
  }

  /** Thread 0 makes all installations, and has built all providers. */
  const INSTALLER: Tid := 0

  /** The machine, read at its front, is the state of the wrapper. */
  ghost predicate Matches<S, Op, R>(s: W.State<S, Op, R>, m: Machine, f: Front) {
    && f.flag.value == s.guard && f.resolved.value == s.resolved && f.slot.value == s.slot
    && m.owned == s.owned && m.created == |s.log|
    && (s.resolved.Some? ==> m.published != [] && m.published[|m.published| - 1] == s.resolved.value)
    && (s.resolved.None? ==> m.published == [])
    && (forall t :: At(m, t).point == PointOf(W.PcOf(s, t)))
    && m.built == At(m, INSTALLER).view.providers
  }

  ghost predicate Follows<S, Op, R>(s: W.State<S, Op, R>, m: Machine, f: Front) {
    AtFront(m, f) && Matches(s, m, f)
  }

  /** The front after one store has been added at its end. */
  lemma NewLast<V>(messages: set<Message<V>>, last: Message<V>, n: Message<V>)
    requires Latest(messages, last) && n.from == last.to && n.to == last.to + 1
    ensures Latest(messages + {n}, n) && Vacant(n.from, n.to, messages)
  {
  }

  lemma MovedFront(m: Machine, f: Front, t: Tid, view: View, point: Point)
    requires AtFront(m, f) && Within(view, f, m.built)
    ensures AtFront(Moved(m, t, view, point), f)
  {
    assert forall u :: u != t ==> At(Moved(m, t, view, point), u) == At(m, u);
  }

  lemma MovedMatches<S, Op, R>(s: W.State<S, Op, R>, m: Machine, f: Front, t: Tid, view: View, pc: W.Pc<Op, R>)
    requires Matches(s, m, f) && view.providers <= m.built && At(m, t).view.providers <= view.providers
    ensures Matches(W.Goto(s, t, pc), Moved(m, t, view, PointOf(pc)), f)
  {
    var s', m' := W.Goto(s, t, pc), Moved(m, t, view, PointOf(pc));
    assert forall u :: u != t ==> At(m', u) == At(m, u) && W.PcOf(s', u) == W.PcOf(s, u);
  }

  /** A thread moves on, and sees no less, in both. */
  lemma MovedFollows<S, Op, R>(s: W.State<S, Op, R>, m: Machine, f: Front, t: Tid, view: View, pc: W.Pc<Op, R>)
    requires Follows(s, m, f) && Within(view, f, m.built) && At(m, t).view.providers <= view.providers
    ensures Follows(W.Goto(s, t, pc), Moved(m, t, view, PointOf(pc)), f)
  {
    MovedFront(m, f, t, view, PointOf(pc));
    MovedMatches(s, m, f, t, view, pc);
    hide AtFront, Matches;
  }

  /** The front has moved forward by stores whose views it covers. */
  ghost predicate Forward(m: Machine, f: Front, m': Machine, f': Front) {
    && m'.threads == m.threads && m'.built == m.built
    && f.flag.to <= f'.flag.to && f.resolved.to <= f'.resolved.to && f.slot.to <= f'.slot.to
    && Latest(m'.flag, f'.flag) && Latest(m'.resolved, f'.resolved) && Latest(m'.slot, f'.slot)
    && (forall n :: n in m'.flag ==> n in m.flag || Within(n.view, f', m'.built))
    && (forall n :: n in m'.resolved ==> n in m.resolved || Within(n.view, f', m'.built))
    && (forall n :: n in m'.slot ==> n in m.slot || Within(n.view, f', m'.built))
  }

  lemma ForwardFront(m: Machine, f: Front, m': Machine, f': Front)
    requires AtFront(m, f) && Forward(m, f, m', f')
    ensures AtFront(m', f')
  {
    assert forall t :: At(m', t) == At(m, t);
    hide Latest;
  }

  /** A store changes what is read at the front, and no thread's point. */
  lemma ForwardMatches<S, Op, R>(s: W.State<S, Op, R>, s': W.State<S, Op, R>, m: Machine, m': Machine, f: Front, f': Front)
    requires Matches(s, m, f) && s'.pcs == s.pcs && m'.threads == m.threads && m'.built == m.built
    requires f'.flag.value == s'.guard && f'.resolved.value == s'.resolved && f'.slot.value == s'.slot
    requires m'.owned == s'.owned && m'.created == |s'.log|
    requires s'.resolved.Some? ==> m'.published != [] && m'.published[|m'.published| - 1] == s'.resolved.value
    requires s'.resolved.None? ==> m'.published == []
    ensures Matches(s', m', f')
  {
    assert forall t :: At(m', t) == At(m, t) && W.PcOf(s', t) == W.PcOf(s, t);
  }

  lemma LoadFollows<S, Op, R>(o: Orders, s: W.State<S, Op, R>, m: Machine, f: Front, t: Tid) returns (a: Action)
    requires Follows(s, m, f) && W.Advanced(s, t).Some?
    requires W.PcOf(s, t).AtFastLoad? || W.PcOf(s, t).AtRecheck? || W.PcOf(s, t).AtSlot?
    ensures Step(o, m, a).Some? && Follows(W.Advanced(s, t).value, Step(o, m, a).value, f)
  {
    assert At(m, t).point == PointOf(W.PcOf(s, t)) && Within(At(m, t).view, f, m.built);
    assert Within(f.resolved.view, f, m.built) && Within(f.slot.view, f, m.built);
    a := if W.PcOf(s, t).AtFastLoad? then FastLoad(t, f.resolved)
         else if W.PcOf(s, t).AtRecheck? then WeakMemory.Recheck(t, f.resolved)
         else LoadSlot(t, f.slot);
    MovedFollows(s, m, f, t, At(Step(o, m, a).value, t).view, W.PcOf(W.Advanced(s, t).value, t));
    hide Follows, Latest;
  }

  lemma EnterFollows<S, Op, R>(o: Orders, s: W.State<S, Op, R>, m: Machine, f: Front, t: Tid) returns (a: Action, f': Front)
    requires Follows(s, m, f) && W.PcOf(s, t).AtGuard? && W.Advanced(s, t).Some?
    ensures Step(o, m, a).Some? && Follows(W.Advanced(s, t).value, Step(o, m, a).value, f')
  {
    assert At(m, t).point == PointOf(W.PcOf(s, t)) && Within(At(m, t).view, f, m.built);
    assert Within(f.flag.view, f, m.built);
    var to := f.flag.to + 1;
    a := TestAndSet(t, f.flag, to);
    var n := Message(f.flag.to, to, true, Join(f.flag.view, BOTTOM.(flag := to)));
    f' := f.(flag := n);
    NewLast(m.flag, f.flag, n);
    var m1 := m.(flag := m.flag + {n});
    ForwardFront(m, f, m1, f');
    assert forall u :: At(m1, u) == At(m, u);
    hide AtFront, Latest, Forward;
    MovedFollows(s.(guard := true), m1, f', t, At(Step(o, m, a).value, t).view, W.PcOf(W.Advanced(s, t).value, t));
    if s.guard { GotoSame(s, t); }
  }

  lemma PublishStep(o: Orders, m: Machine, t: Tid, from: int, to: nat)
    requires At(m, t).point.Publishing? && At(m, t).view.resolved < to && Vacant(from, to, m.resolved)
    ensures var target, v := W.Chosen(m.owned), At(m, t).view.(owned := m.ownedAccesses + 1, resolved := to);
            var n := Message(from, to, Some(target), if o.publishRelease then v else BOTTOM.(resolved := to));
            Step(o, m, WeakMemory.Publish(t, from, to)) ==
            Some(Moved(TouchOwned(m, At(m, t).view).(resolved := m.resolved + {n}, published := m.published + [target]),
                       t, v, Leaving(target)))
  {
    hide Vacant;
  }

  lemma LeaveStep(o: Orders, m: Machine, t: Tid, from: int, to: nat)
    requires At(m, t).point.Leaving? && At(m, t).view.flag < to && Vacant(from, to, m.flag)
    ensures var v := At(m, t).view.(flag := to);
            var n := Message(from, to, false, if o.leaveRelease then v else BOTTOM.(flag := to));
            Step(o, m, Leave(t, from, to)) == Some(Moved(m.(flag := m.flag + {n}), t, v, Using(At(m, t).point.target)))
  {
    hide Vacant;
  }

  lemma PublishFollows<S, Op, R>(o: Orders, s: W.State<S, Op, R>, m: Machine, f: Front, t: Tid) returns (a: Action, f': Front)
    requires Follows(s, m, f) && W.PcOf(s, t).AtPublish? && W.Advanced(s, t).Some?
    ensures Step(o, m, a).Some? && Follows(W.Advanced(s, t).value, Step(o, m, a).value, f')
  {
    assert At(m, t).point == PointOf(W.PcOf(s, t)) && Within(At(m, t).view, f, m.built);
    var to, target := f.resolved.to + 1, W.Chosen(m.owned);
    a := WeakMemory.Publish(t, f.resolved.to, to);
    var v := At(m, t).view.(owned := m.ownedAccesses + 1, resolved := to);
    var n := Message(f.resolved.to, to, Some(target), if o.publishRelease then v else BOTTOM.(resolved := to));
    f' := f.(resolved := n);
    NewLast(m.resolved, f.resolved, n);
    PublishStep(o, m, t, f.resolved.to, to);
    var m1 := TouchOwned(m, At(m, t).view).(resolved := m.resolved + {n}, published := m.published + [target]);
    ForwardFront(m, f, m1, f');
    hide AtFront, Latest, Forward, Step, Within;
    ForwardMatches(s, s.(resolved := Some(target)), m, m1, f, f');
    hide Matches;
    MovedFollows(s.(resolved := Some(target)), m1, f', t, v, W.PcOf(W.Advanced(s, t).value, t));
  }

  lemma LeaveFollows<S, Op, R>(o: Orders, s: W.State<S, Op, R>, m: Machine, f: Front, t: Tid) returns (a: Action, f': Front)
    requires Follows(s, m, f) && W.PcOf(s, t).AtUnguard? && W.Advanced(s, t).Some?
    ensures Step(o, m, a).Some? && Follows(W.Advanced(s, t).value, Step(o, m, a).value, f')
  {
    assert At(m, t).point == PointOf(W.PcOf(s, t)) && Within(At(m, t).view, f, m.built);
    var to := f.flag.to + 1;
    a := Leave(t, f.flag.to, to);
    var v := At(m, t).view.(flag := to);
    var n := Message(f.flag.to, to, false, if o.leaveRelease then v else BOTTOM.(flag := to));
    f' := f.(flag := n);
    NewLast(m.flag, f.flag, n);
    LeaveStep(o, m, t, f.flag.to, to);
    var m1 := m.(flag := m.flag + {n});
    ForwardFront(m, f, m1, f');
    hide AtFront, Latest, Forward, Step, Within;
    ForwardMatches(s, s.(guard := false), m, m1, f, f');
    hide Matches;
    MovedFollows(s.(guard := false), m1, f', t, v, W.PcOf(W.Advanced(s, t).value, t));
  }

  lemma GotoSame<S, Op, R>(s: W.State<S, Op, R>, t: Tid)
    requires !W.PcOf(s, t).Idle?
    ensures W.Goto(s, t, W.PcOf(s, t)) == s
  {
    assert s.pcs[t := s.pcs[t]] == s.pcs;
  }

  lemma MakeFollows<S, Op, R>(o: Orders, obj: Object<S, Op, R>, s: W.State<S, Op, R>, m: Machine, f: Front, t: Tid,
                              outcome: W.Outcome) returns (a: Action)
    requires Follows(s, m, f) && W.Made(obj, s, t, outcome).Some?
    requires W.Inv(obj, s)
    ensures Step(o, m, a).Some? && Follows(W.Made(obj, s, t, outcome).value, Step(o, m, a).value, f)
  {
    assert At(m, t).point == PointOf(W.PcOf(s, t)) && Within(At(m, t).view, f, m.built);
    assert W.Knows(s, W.PcOf(s, t));
    a := Create(t, outcome);
    OthersStay(o, m, a);
    hide W.Inv;
  }

  lemma UseFollows<S, Op, R>(o: Orders, obj: Object<S, Op, R>, s: W.State<S, Op, R>, m: Machine, f: Front, t: Tid, result: R)
      returns (a: Action)
    requires Follows(s, m, f) && W.Applied(obj, s, t, result).Some?
    ensures Step(o, m, a).Some? && Follows(W.Applied(obj, s, t, result).value, Step(o, m, a).value, f)
  {
    assert At(m, t).point == PointOf(W.PcOf(s, t)) && Within(At(m, t).view, f, m.built);
    a := Use(t);
    OthersStay(o, m, a);
  }

  /** Thread 0 builds the provider first, if it does not exist yet. */
  lemma BuildFollows<S, Op, R>(o: Orders, s: W.State<S, Op, R>, m: Machine, f: Front, p: ProviderId) returns (a: Action)
    requires Follows(s, m, f) && p !in m.built
    ensures Step(o, m, a).Some? && Follows(s, Step(o, m, a).value, f) && p in Step(o, m, a).value.built
  {
    assert Within(At(m, INSTALLER).view, f, m.built);
    a := Build(INSTALLER, p);
    OthersStay(o, m, a);
  }

  lemma InstallFollows<S, Op, R>(o: Orders, s: W.State<S, Op, R>, m: Machine, f: Front, p: Option<ProviderId>)
      returns (a: Action, f': Front)
    requires Follows(s, m, f) && (p.Some? ==> p.value in m.built)
    ensures Step(o, m, a).Some? && Follows(s.(slot := p), Step(o, m, a).value, f')
  {
    assert Within(At(m, INSTALLER).view, f, m.built);
    var to := f.slot.to + 1;
    a := SetSlot(INSTALLER, p, f.slot.to, to);
    var v := At(m, INSTALLER).view.(slot := to);
    var n := Message(f.slot.to, to, p, if o.installRelease then v else BOTTOM.(slot := to));
    f' := f.(slot := n);
    NewLast(m.slot, f.slot, n);
    var m1 := m.(slot := m.slot + {n});
    ForwardFront(m, f, m1, f');
    MovedFront(m1, f', INSTALLER, v, At(m, INSTALLER).point);
    assert forall t :: W.PcOf(s.(slot := p), t) == W.PcOf(s, t);
    OthersStay(o, m, a);
    hide AtFront, Latest, Forward;
  }

  /** At the start nothing was stored but the initial values, and the slot is empty. */
  lemma StartFollows<S, Op, R>(obj: Object<S, Op, R>) returns (f: Front)
    ensures Follows(W.Init(obj, None), START, f)
  {
    f := Front(CLEAR_FLAG, NULL_POINTER, Message(-1, 0, None, BOTTOM));
  }

  /** One step of the wrapper is one action, or none, or the construction of a provider and its installation. */
  lemma NextFollows<S, Op, R>(o: Orders, obj: Object<S, Op, R>, s: W.State<S, Op, R>, e: W.Event<Op, R>, actions: seq<Action>,
                              f: Front) returns (longer: seq<Action>, f': Front)
    requires W.Inv(obj, s) && W.Next(obj, s, e).Some?
    requires Execute(o, actions).Some? && Follows(s, Execute(o, actions).value, f)
    ensures Execute(o, longer).Some? && Follows(W.Next(obj, s, e).value, Execute(o, longer).value, f')
  {
    var m := Execute(o, actions).value;
    longer, f' := actions, f;
    match e
    case Install(p) =>
      if p.Some? && p.value !in m.built {
        var b := BuildFollows(o, s, m, f, p.value);
        longer := Then(o, longer, b);
      }
      var a;
      a, f' := InstallFollows(o, s, Execute(o, longer).value, f, p);
      longer := Then(o, longer, a);
    case Call(t, op) => MoveFollows(s, m, f, t, W.AtFastLoad(op));
    case Make(t, outcome) =>
      var a := MakeFollows(o, obj, s, m, f, t, outcome);
      longer := Then(o, longer, a);
    case Apply(t, result) =>
      var a := UseFollows(o, obj, s, m, f, t, result);
      longer := Then(o, longer, a);
    case Advance(t) =>
      if W.PcOf(s, t).AtReturn? {
        MoveFollows(s, m, f, t, W.Idle);
      } else {
        var a;
        a, f' := AdvanceFollows(o, s, m, f, t);
        longer := Then(o, longer, a);
      }
  }

  lemma AdvanceFollows<S, Op, R>(o: Orders, s: W.State<S, Op, R>, m: Machine, f: Front, t: Tid) returns (a: Action, f': Front)
    requires Follows(s, m, f) && W.Advanced(s, t).Some? && !W.PcOf(s, t).AtReturn?
    ensures Step(o, m, a).Some? && Follows(W.Advanced(s, t).value, Step(o, m, a).value, f')
  {
    f' := f;
    match W.PcOf(s, t)
    case AtGuard(_) => a, f' := EnterFollows(o, s, m, f, t);
    case AtPublish(_) => a, f' := PublishFollows(o, s, m, f, t);
    case AtUnguard(_, _) => a, f' := LeaveFollows(o, s, m, f, t);
    case _ => a := LoadFollows(o, s, m, f, t);
    hide Follows, Step;
  }

  lemma MoveFollows<S, Op, R>(s: W.State<S, Op, R>, m: Machine, f: Front, t: Tid, pc: W.Pc<Op, R>)
    requires Follows(s, m, f) && PointOf(W.PcOf(s, t)) == PointOf(pc)
    ensures Follows(W.Goto(s, t, pc), m, f)
  {
    assert forall u :: u != t ==> W.PcOf(W.Goto(s, t, pc), u) == W.PcOf(s, u);
  }

  /**
   Every sequentially consistent run is an execution, whatever the orders: there is one that ends with each thread at the
   corresponding point, with the same slot, guard, owner and published pointer, and with as many primitives created.
   */
  lemma {:induction false} EveryRunExecutes<S, Op, R>(o: Orders, obj: Object<S, Op, R>, es: seq<W.Event<Op, R>>)
      returns (actions: seq<Action>, f: Front)
    requires W.Run(obj, W.Init(obj, None), es).Some?
    ensures Execute(o, actions).Some?
    ensures AtFront(Execute(o, actions).value, f)
    ensures Matches(W.Run(obj, W.Init(obj, None), es).value, Execute(o, actions).value, f)
  {
    if es == [] {
      actions := [];
      f := StartFollows(obj);
    } else {
      var before, e := es[..|es| - 1], es[|es| - 1];
      W.InitInv(obj, None);
      W.RunInv(obj, W.Init(obj, None), before);
      actions, f := EveryRunExecutes(o, obj, before);
      actions, f := NextFollows(o, obj, W.Run(obj, W.Init(obj, None), before).value, e, actions, f);
      hide W.Next, W.Inv, Execute, AtFront, Matches;
    }
  }
}
