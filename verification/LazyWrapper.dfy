/**
 The double-checked `Resolve` of `Mutex`, `RecursiveMutex` and `ReadWriteLock`, and the operations that call it, as
 one transition system over sequentially consistent memory. Every step is one atomic action of one thread; any number
 of threads take steps in any order, and the provider slot changes at any moment.

 The module is generic in the primitive: the three wrappers are this machine with three different `Object`s.
 */
module LazyWrapper {
  import opened Common
  import opened AtomicObjects

  /** What `_resolved` points at: the embedded fallback, or the primitive that some factory call created. */
  datatype Target = Fallback | Created(id: nat)

  /** How a factory call ends. */
  datatype Outcome = Fresh | Null | Throw

  /** The next action of a thread inside one operation of the wrapper. */
  datatype Pc<Op, R> =
    | Idle
    | AtFastLoad(op: Op)                     // _resolved.load(acquire)
    | AtGuard(op: Op)                        // _flag.test_and_set(acquire)
    | AtRecheck(op: Op)                      // _resolved.load(relaxed)
    | AtSlot(op: Op)                         // Provider()
    | AtFactory(op: Op, provider: ProviderId) // provider->Create...()
    | AtPublish(op: Op)                      // _resolved.store(..., release)
    | AtUnguard(op: Op, target: Target)      // _flag.clear(release)
    | AtPrimitive(op: Op, target: Target)    // the call on the resolved primitive
    | AtReturn(op: Op, result: R)

  datatype State<S, Op, R> = State(
    slot: Option<ProviderId>,
    guard: bool,
    owned: Option<nat>,
    resolved: Option<Target>,
    log: seq<ProviderId>,        // log[i] is the provider that created primitive i
    objects: map<Target, S>,     // the primitives that exist
    pcs: map<Tid, Pc<Op, R>>)

  datatype Event<Op, R> =
    | Install(provider: Option<ProviderId>)  // SetProvider; ResetProvider is Install(None)
    | Call(thread: Tid, op: Op)
    | Advance(thread: Tid)                   // the next action, where it leaves no choice
    | Make(thread: Tid, outcome: Outcome)    // the factory call ends
    | Apply(thread: Tid, result: R)          // the primitive's operation takes effect

  function Init<S, Op, R>(obj: Object<S, Op, R>, slot: Option<ProviderId>): State<S, Op, R> {
    State(slot, false, None, None, [], map[Fallback := obj.init], map[])
  }

  function PcOf<S, Op, R>(s: State<S, Op, R>, t: Tid): Pc<Op, R> {
    if t in s.pcs then s.pcs[t] else Idle
  }

  function Goto<S, Op, R>(s: State<S, Op, R>, t: Tid, pc: Pc<Op, R>): State<S, Op, R> {
    s.(pcs := s.pcs[t := pc])
  }

  /** `_owned ? _owned.get() : &_fallback` */
  function Chosen(owned: Option<nat>): Target {
    match owned
    case Some(id) => Created(id)
    case None => Fallback
  }

  /** Assigning to `_owned` destroys the primitive it held. */
  function Disown<S>(objects: map<Target, S>, owned: Option<nat>): map<Target, S> {
    match owned
    case Some(id) => objects - {Created(id)}
    case None => objects
  }

  function Advanced<S, Op, R>(s: State<S, Op, R>, t: Tid): Option<State<S, Op, R>> {
    match PcOf(s, t)
    case AtFastLoad(op) =>
      Some(Goto(s, t, if s.resolved.Some? then AtPrimitive(op, s.resolved.value) else AtGuard(op)))
    case AtGuard(op) =>
      Some(if s.guard then s else Goto(s.(guard := true), t, AtRecheck(op)))
    case AtRecheck(op) =>
      Some(Goto(s, t, if s.resolved.Some? then AtUnguard(op, s.resolved.value) else AtSlot(op)))
    case AtSlot(op) =>
      Some(Goto(s, t, if s.slot.Some? then AtFactory(op, s.slot.value) else AtPublish(op)))
    case AtPublish(op) =>
      var target := Chosen(s.owned);
      Some(Goto(s.(resolved := Some(target)), t, AtUnguard(op, target)))
    case AtUnguard(op, target) =>
      Some(Goto(s.(guard := false), t, AtPrimitive(op, target)))
    case AtReturn(op, result) =>
      Some(Goto(s, t, Idle))
    case _ => None
  }

  function Made<S, Op, R>(obj: Object<S, Op, R>, s: State<S, Op, R>, t: Tid, outcome: Outcome): Option<State<S, Op, R>> {
    match PcOf(s, t)
    case AtFactory(op, provider) =>
      var s1 := match outcome
        case Throw => s
        case Null => s.(owned := None, objects := Disown(s.objects, s.owned))
        case Fresh =>
          var id := |s.log|;
          s.(owned := Some(id), log := s.log + [provider],
             objects := Disown(s.objects, s.owned)[Created(id) := obj.init]);
      Some(Goto(s1, t, AtPublish(op)))
    case _ => None
  }

  function Applied<S, Op, R>(obj: Object<S, Op, R>, s: State<S, Op, R>, t: Tid, result: R): Option<State<S, Op, R>> {
    match PcOf(s, t)
    case AtPrimitive(op, target) =>
      if target !in s.objects then None else
      (match obj.apply(s.objects[target], t, op, result)
       case None => None
       case Some(o) => Some(Goto(s.(objects := s.objects[target := o]), t, AtReturn(op, result))))
    case _ => None
  }

  /** The one step that event `e` allows in `s`, if it is enabled there. */
  function Next<S, Op, R>(obj: Object<S, Op, R>, s: State<S, Op, R>, e: Event<Op, R>): Option<State<S, Op, R>> {
    match e
    case Install(p) => Some(s.(slot := p))
    case Call(t, op) => if PcOf(s, t).Idle? then Some(Goto(s, t, AtFastLoad(op))) else None
    case Advance(t) => Advanced(s, t)
    case Make(t, outcome) => Made(obj, s, t, outcome)
    case Apply(t, result) => Applied(obj, s, t, result)
  }

  /** The state that the events `es` lead to from `s`; `None` when one of them is not enabled in its turn. */
  function Run<S, Op, R>(obj: Object<S, Op, R>, s: State<S, Op, R>, es: seq<Event<Op, R>>): Option<State<S, Op, R>> {
    if es == [] then Some(s)
    else
      match Run(obj, s, es[..|es| - 1])
      case None => None
      case Some(s1) => Next(obj, s1, es[|es| - 1])
  }

  // ---------------------------------------------------------------- invariant

  /** The thread owns the resolution guard. */
  predicate Guarded<Op, R>(pc: Pc<Op, R>) {
    pc.AtRecheck? || pc.AtSlot? || pc.AtFactory? || pc.AtPublish? || pc.AtUnguard?
  }

  /** What a thread at `pc` knows about the shared fields. */
  ghost predicate Knows<S, Op, R>(s: State<S, Op, R>, pc: Pc<Op, R>) {
    && (pc.AtRecheck? && s.resolved.None? ==> s.log == [])
    && (pc.AtSlot? || pc.AtFactory? ==> s.resolved.None? && s.log == [])
    && (pc.AtPublish? ==> s.resolved.None?)
    && (pc.AtUnguard? || pc.AtPrimitive? ==> s.resolved == Some(pc.target))
  }

  /** The guard flag is up exactly while one thread, and no other, is inside the guarded section. */
  ghost predicate GuardExclusive<S, Op, R>(s: State<S, Op, R>) {
    && (forall t, u :: Guarded(PcOf(s, t)) && Guarded(PcOf(s, u)) ==> t == u)
    && (forall t :: Guarded(PcOf(s, t)) ==> s.guard)
    && (s.guard ==> exists t :: Guarded(PcOf(s, t)))
  }

  /** Ownership: at most one primitive was created, `_owned` still holds it, and it is what was published. */
  ghost predicate Ownership<S, Op, R>(obj: Object<S, Op, R>, s: State<S, Op, R>) {
    && |s.log| <= 1
    && s.owned == (if s.log == [] then None else Some(0))
    && s.objects.Keys == {Fallback, Chosen(s.owned)}
    && (s.resolved.Some? ==> s.resolved == Some(Chosen(s.owned)))
    && (s.resolved.None? && !s.guard ==> s.log == [])
    && (forall x :: x in s.objects && s.resolved != Some(x) ==> s.objects[x] == obj.init)
  }

  ghost predicate Inv<S, Op, R>(obj: Object<S, Op, R>, s: State<S, Op, R>) {
    && GuardExclusive(s)
    && Ownership(obj, s)
    && (forall t :: Knows(s, PcOf(s, t)))
  }

  lemma InitInv<S, Op, R>(obj: Object<S, Op, R>, slot: Option<ProviderId>)
    ensures Inv(obj, Init(obj, slot))
  {
  }

  /** A step leaves every other thread where it was. */
  lemma OthersStay<S, Op, R>(obj: Object<S, Op, R>, s: State<S, Op, R>, e: Event<Op, R>)
    requires Next(obj, s, e).Some?
    ensures forall u :: e.Install? || u != e.thread ==> PcOf(Next(obj, s, e).value, u) == PcOf(s, u)
  {
  }

  /** A step inside an operation keeps the operation; it takes effect by `Apply` and is over one step after that. */
  lemma OwnStep<S, Op, R>(obj: Object<S, Op, R>, s: State<S, Op, R>, e: Event<Op, R>)
    requires !e.Install? && !e.Call? && Next(obj, s, e).Some?
    ensures var pc, pc' := PcOf(s, e.thread), PcOf(Next(obj, s, e).value, e.thread);
            && !pc.Idle?
            && (pc'.Idle? <==> pc.AtReturn?)
            && (!pc'.Idle? ==> pc'.op == pc.op)
            && (pc'.AtReturn? <==> e.Apply?)
            && (e.Apply? ==> pc.AtPrimitive?)
  {
  }

  lemma NextGuard<S, Op, R>(obj: Object<S, Op, R>, s: State<S, Op, R>, e: Event<Op, R>)
    requires GuardExclusive(s) && Next(obj, s, e).Some?
    ensures GuardExclusive(Next(obj, s, e).value)
  {
    var s' := Next(obj, s, e).value;
    OthersStay(obj, s, e);
    if s'.guard {
      if s.guard {
        var h :| Guarded(PcOf(s, h));
        assert Guarded(PcOf(s', h));
      } else {
        assert Guarded(PcOf(s', e.thread));
      }
    }
  }

  lemma NextOwnership<S, Op, R>(obj: Object<S, Op, R>, s: State<S, Op, R>, e: Event<Op, R>)
    requires Inv(obj, s) && Next(obj, s, e).Some?
    ensures Ownership(obj, Next(obj, s, e).value)
  {
    if !e.Install? { assert Knows(s, PcOf(s, e.thread)); }
  }

  /** Only the owner of the guard writes the shared fields, and nobody does once a pointer is published. */
  lemma SharedStays<S, Op, R>(obj: Object<S, Op, R>, s: State<S, Op, R>, e: Event<Op, R>)
    requires Inv(obj, s) && Next(obj, s, e).Some?
    requires e.Install? || !Guarded(PcOf(s, e.thread)) || s.resolved.Some?
    ensures var s' := Next(obj, s, e).value;
            s'.resolved == s.resolved && s'.owned == s.owned && s'.log == s.log && s'.objects.Keys == s.objects.Keys
  {
    if !e.Install? { assert Knows(s, PcOf(s, e.thread)); }
  }

  lemma NextKnowsOther<S, Op, R>(obj: Object<S, Op, R>, s: State<S, Op, R>, e: Event<Op, R>, t: Tid)
    requires Inv(obj, s) && Next(obj, s, e).Some? && (e.Install? || e.thread != t)
    ensures Knows(Next(obj, s, e).value, PcOf(Next(obj, s, e).value, t))
  {
    OthersStay(obj, s, e);
    assert Knows(s, PcOf(s, t));
    if e.Install? || !Guarded(PcOf(s, e.thread)) || s.resolved.Some? {
      SharedStays(obj, s, e);
    } else {
      assert !Guarded(PcOf(s, t));
    }
    hide Next, Ownership;
  }

  lemma NextKnowsSelf<S, Op, R>(obj: Object<S, Op, R>, s: State<S, Op, R>, e: Event<Op, R>)
    requires Ownership(obj, s) && !e.Install? && Knows(s, PcOf(s, e.thread)) && Next(obj, s, e).Some?
    ensures Knows(Next(obj, s, e).value, PcOf(Next(obj, s, e).value, e.thread))
  {
    match e
    case Advance(_) => hide Made, Applied;
    case Make(_, _) => hide Advanced, Applied;
    case _ => hide Advanced, Made;
  }

  lemma NextInv<S, Op, R>(obj: Object<S, Op, R>, s: State<S, Op, R>, e: Event<Op, R>)
    requires Inv(obj, s) && Next(obj, s, e).Some?
    ensures Inv(obj, Next(obj, s, e).value)
  {
    NextGuard(obj, s, e);
    NextOwnership(obj, s, e);
    hide Next;
    forall t ensures Knows(Next(obj, s, e).value, PcOf(Next(obj, s, e).value, t)) {
      if e.Install? || e.thread != t {
        NextKnowsOther(obj, s, e, t);
      } else {
        NextKnowsSelf(obj, s, e);
      }
    }
  }

  lemma {:induction false} RunInv<S, Op, R>(obj: Object<S, Op, R>, s: State<S, Op, R>, es: seq<Event<Op, R>>)
    requires Inv(obj, s) && Run(obj, s, es).Some?
    ensures Inv(obj, Run(obj, s, es).value)
  {
    if es != [] {
      RunInv(obj, s, es[..|es| - 1]);
      NextInv(obj, Run(obj, s, es[..|es| - 1]).value, es[|es| - 1]);
    }
  }
}
