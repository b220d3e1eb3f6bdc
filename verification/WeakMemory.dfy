/**
 `Resolve` once more, now under the memory orders that the code writes: an operational view model of the release and
 acquire operations of sections 4.7.1 and 32.4 of ISO/IEC 14882:2017.

 Every store to an atomic leaves a message that stays readable. A thread may read any message that is not older than what
 it has seen of that atomic, and a store may be placed anywhere after that point in the modification order. An acquire
 load that reads a release store takes over the view of the storing thread; a relaxed operation moves no other location.
 A read-modify-write is placed immediately after the message it reads, and continues its release sequence.
 `_owned`, the contents of the created primitive and the provider objects are not atomic: an access by a thread whose
 view misses an earlier conflicting one is a data race, and sets `raced` for ever.
 */
module WeakMemory {
  import opened Common
  import opened LazyWrapper

  /**
   What a thread has seen: a timestamp per atomic, a number of accesses per non-atomic object, and the providers whose
   construction it knows.
   */
  datatype View = View(flag: nat, resolved: nat, slot: nat, owned: nat, primitive: nat, providers: set<ProviderId>)

  const BOTTOM := View(0, 0, 0, 0, 0, {})

  function Max(a: nat, b: nat): nat { if a < b then b else a }

  function Join(a: View, b: View): View {
    View(Max(a.flag, b.flag), Max(a.resolved, b.resolved), Max(a.slot, b.slot), Max(a.owned, b.owned),
         Max(a.primitive, b.primitive), a.providers + b.providers)
  }

  /** A store at timestamp `to`; nothing else may ever be placed between `from` and `to`. */
  datatype Message<V> = Message(from: int, to: nat, value: V, view: View)

  predicate Vacant<V(==)>(from: int, to: nat, messages: set<Message<V>>) {
    from < to && forall m :: m in messages ==> to <= m.from || m.to <= from
  }

  /** Which of the six orders that carry synchronization are as written; a false one is read as relaxed. */
  datatype Orders = Orders(
    fastAcquire: bool,      // the first load of _resolved
    enterAcquire: bool,     // test_and_set
    publishRelease: bool,   // the store to _resolved
    leaveRelease: bool,     // clear
    slotAcquire: bool,      // Provider()
    installRelease: bool)   // SetProvider()

  const AS_WRITTEN := Orders(true, true, true, true, true, true)

  datatype Point =
    | Outside
    | Entering                       // test_and_set
    | Rechecking                     // relaxed load of _resolved
    | ReadingSlot                    // Provider()
    | Creating(provider: ProviderId) // provider->Create...(), assigned to _owned
    | Publishing                     // read of _owned, store to _resolved
    | Leaving(target: Target)        // clear
    | Using(target: Target)          // the call on the resolved primitive

  datatype Thread = Thread(view: View, point: Point)

  datatype Machine = Machine(
    flag: set<Message<bool>>,
    resolved: set<Message<Option<Target>>>,
    slot: set<Message<Option<ProviderId>>>,
    built: set<ProviderId>,          // the providers that exist
    owned: Option<nat>,
    ownedAccesses: nat,
    initialisations: nat,            // writes to the contents of created primitives
    created: nat,
    published: seq<Target>,
    raced: bool,
    threads: map<Tid, Thread>)

  datatype Action =
    | FastLoad(t: Tid, pointer: Message<Option<Target>>)
    | TestAndSet(t: Tid, read: Message<bool>, to: nat)
    | Recheck(t: Tid, pointer: Message<Option<Target>>)
    | LoadSlot(t: Tid, installed: Message<Option<ProviderId>>)
    | Create(t: Tid, outcome: Outcome)
    | Publish(t: Tid, from: int, to: nat)
    | Leave(t: Tid, from: int, to: nat)
    | Use(t: Tid)
    | Build(t: Tid, built: ProviderId)
    | SetSlot(t: Tid, provider: Option<ProviderId>, from: int, to: nat)
    | Synchronise(t: Tid, with: Tid) // t learns what `with` has seen, by means outside the wrapper

  const START := Machine(
    {Message(-1, 0, false, BOTTOM)}, {Message(-1, 0, None, BOTTOM)}, {Message(-1, 0, None, BOTTOM)},
    {}, None, 0, 0, 0, [], false, map[])

  function At(s: Machine, t: Tid): Thread {
    if t in s.threads then s.threads[t] else Thread(BOTTOM, Outside)
  }

  function Moved(s: Machine, t: Tid, view: View, point: Point): Machine {
    s.(threads := s.threads[t := Thread(view, point)])
  }

  /** A non-atomic access to `_owned`: it must come after all earlier accesses. */
  function TouchOwned(s: Machine, view: View): Machine {
    s.(raced := s.raced || view.owned != s.ownedAccesses, ownedAccesses := s.ownedAccesses + 1)
  }

  function Acquire(view: View, other: View, acquire: bool): View {
    if acquire then Join(view, other) else view
  }

  function FactoryCalled(s: Machine, t: Tid, outcome: Outcome): Machine {
    var view := At(s, t).view;
    match outcome
    case Throw => Moved(s, t, view, Publishing)
    case Null =>
      var s1 := TouchOwned(s, view);
      Moved(s1.(owned := None), t, view.(owned := s1.ownedAccesses), Publishing)
    case Fresh =>
      var s1 := TouchOwned(s, view);
      var n := s.initialisations + 1;
      Moved(s1.(owned := Some(s.created), created := s.created + 1, initialisations := n), t,
            view.(owned := s1.ownedAccesses, primitive := n), Publishing)
  }

  function Step(o: Orders, s: Machine, a: Action): Option<Machine> {
    var Thread(view, point) := At(s, a.t);
    match a
    case FastLoad(t, m) =>
      if !point.Outside? || m !in s.resolved || m.to < view.resolved then None else
      Some(Moved(s, t, Acquire(view.(resolved := m.to), m.view, o.fastAcquire),
                 if m.value.Some? then Using(m.value.value) else Entering))
    case TestAndSet(t, m, to) =>
      if !point.Entering? || m !in s.flag || m.to < view.flag || !Vacant(m.to, to, s.flag) then None else
      Some(Moved(s.(flag := s.flag + {Message(m.to, to, true, Join(m.view, BOTTOM.(flag := to)))}), t,
                 Acquire(view.(flag := to), m.view, o.enterAcquire),
                 if m.value then Entering else Rechecking))
    case Recheck(t, m) =>
      if !point.Rechecking? || m !in s.resolved || m.to < view.resolved then None else
      Some(Moved(s, t, view.(resolved := m.to), if m.value.Some? then Leaving(m.value.value) else ReadingSlot))
    case LoadSlot(t, m) =>
      if !point.ReadingSlot? || m !in s.slot || m.to < view.slot then None else
      Some(Moved(s, t, Acquire(view.(slot := m.to), m.view, o.slotAcquire),
                 if m.value.Some? then Creating(m.value.value) else Publishing))
    case Create(t, outcome) =>
      if !point.Creating? then None else
      Some(FactoryCalled(s.(raced := s.raced || point.provider !in view.providers), t, outcome))
    case Publish(t, from, to) =>
      if !point.Publishing? || to <= view.resolved || !Vacant(from, to, s.resolved) then None else
      var s1 := TouchOwned(s, view);
      var target := Chosen(s.owned);
      var v := view.(owned := s1.ownedAccesses, resolved := to);
      Some(Moved(s1.(resolved := s.resolved +
                                 {Message(from, to, Some(target), if o.publishRelease then v else BOTTOM.(resolved := to))},
                     published := s.published + [target]), t, v, Leaving(target)))
    case Leave(t, from, to) =>
      if !point.Leaving? || to <= view.flag || !Vacant(from, to, s.flag) then None else
      var v := view.(flag := to);
      Some(Moved(s.(flag := s.flag + {Message(from, to, false, if o.leaveRelease then v else BOTTOM.(flag := to))}), t, v,
                 Using(point.target)))
    case Use(t) =>
      if !point.Using? then None else
      Some(Moved(s.(raced := s.raced || (point.target.Created? && view.primitive != s.initialisations)), t, view, Outside))
    case Build(t, p) =>
      if p in s.built then None else
      Some(Moved(s.(built := s.built + {p}), t, view.(providers := view.providers + {p}), point))
    case SetSlot(t, p, from, to) =>
      if to <= view.slot || !Vacant(from, to, s.slot) || (p.Some? && p.value !in view.providers) then None else
      var v := view.(slot := to);
      Some(Moved(s.(slot := s.slot + {Message(from, to, p, if o.installRelease then v else BOTTOM.(slot := to))}), t, v,
                 point))
    case Synchronise(t, with) =>
      Some(Moved(s, t, Join(view, At(s, with).view), point))
  }

  function Execute(o: Orders, actions: seq<Action>): Option<Machine> {
    if actions == [] then Some(START)
    else
      match Execute(o, actions[..|actions| - 1])
      case None => None
      case Some(s) => Step(o, s, actions[|actions| - 1])
  }

  // ---------------------------------------------------------------- invariant

  predicate Owns(p: Point) {
    p.Rechecking? || p.ReadingSlot? || p.Creating? || p.Publishing? || p.Leaving?
  }

  /** A cleared flag that no test_and_set has yet consumed. */
  ghost predicate Free(flag: set<Message<bool>>, m: Message<bool>) {
    m in flag && !m.value && forall n :: n in flag ==> n.from != m.to
  }

  /** The view misses nothing that happened to `_resolved`, to `_owned` and to the primitive. */
  ghost predicate Complete(s: Machine, v: View) {
    && (forall m :: m in s.resolved ==> m.to <= v.resolved)
    && v.owned == s.ownedAccesses
    && v.primitive == s.initialisations
  }

  ghost predicate Bounded(s: Machine, v: View) {
    v.owned <= s.ownedAccesses && v.primitive <= s.initialisations
  }

  ghost predicate ViewsBounded(s: Machine) {
    && (forall t :: Bounded(s, At(s, t).view))
    && (forall m :: m in s.flag ==> Bounded(s, m.view) && m.from < m.to)
    && (forall m :: m in s.resolved ==> Bounded(s, m.view))
    && (forall m :: m in s.slot ==> Bounded(s, m.view) && (m.value.Some? ==> m.value.value in m.view.providers))
  }

  /** The right to enter is in one place: with a thread inside, or in one cleared flag; and it carries a complete view. */
  ghost predicate OneRight(s: Machine) {
    && (forall t, u :: Owns(At(s, t).point) && Owns(At(s, u).point) ==> t == u)
    && (forall m, n :: Free(s.flag, m) && Free(s.flag, n) ==> m == n)
    && (forall t, m :: Owns(At(s, t).point) ==> !Free(s.flag, m))
    && (forall t :: Owns(At(s, t).point) ==> Complete(s, At(s, t).view))
    && (forall m :: Free(s.flag, m) ==> Complete(s, m.view))
  }

  /** Nothing but the initial null and, once published, one pointer can ever be read from `_resolved`. */
  ghost predicate OnePointer(s: Machine) {
    && |s.published| <= 1
    && (forall m :: m in s.resolved && m.value.None? ==> m.to == 0)
    && (forall m :: m in s.resolved && m.value.Some? ==>
          m.to > 0 && s.published == [m.value.value] && m.view.primitive == s.initialisations)
    && (s.published != [] ==> exists m :: m in s.resolved && m.value.Some?)
  }

  ghost predicate OneCreation(s: Machine) {
    && s.created <= 1 && s.owned == (if s.created == 0 then None else Some(0))
    && (s.published != [] ==> s.published == [Chosen(s.owned)])
    && (forall m :: Free(s.flag, m) && s.published == [] ==> s.created == 0)
  }

  ghost predicate Consistent(s: Machine, th: Thread) {
    var p := th.point;
    && (p.Rechecking? && s.published == [] ==> s.created == 0)
    && (p.ReadingSlot? || p.Creating? ==> s.published == [] && s.created == 0)
    && (p.Creating? ==> p.provider in th.view.providers)
    && (p.Publishing? ==> s.published == [])
    && (p.Leaving? || p.Using? ==> s.published == [p.target])
    && (p.Using? ==> th.view.primitive == s.initialisations)
  }

  ghost predicate Sound(s: Machine) {
    && ViewsBounded(s)
    && OneRight(s)
    && OnePointer(s)
    && OneCreation(s)
    && (forall t :: Consistent(s, At(s, t)))
    && !s.raced
  }

  lemma StartSound()
    ensures Sound(START)
  {
  }

  lemma OthersStay(o: Orders, s: Machine, a: Action)
    requires Step(o, s, a).Some?
    ensures forall u :: u != a.t ==> At(Step(o, s, a).value, u) == At(s, u)
  {
  }

  /** A new message leaves at most the old cleared flags free, and itself. */
  lemma FreeAfter(flag: set<Message<bool>>, n: Message<bool>)
    ensures forall m :: Free(flag + {n}, m) ==> (Free(flag, m) && n.from != m.to) || (m == n && !n.value)
  {
  }

  lemma MovedRight(s: Machine, t: Tid, view: View, point: Point)
    requires OneRight(s)
    requires Owns(point) ==> Owns(At(s, t).point) && Complete(s, view)
    ensures OneRight(Moved(s, t, view, point))
  {
    var s' := Moved(s, t, view, point);
    assert forall u :: u != t ==> At(s', u) == At(s, u);
    assert forall v :: Complete(s', v) <==> Complete(s, v);
    hide Free, Complete;
  }

  /** A thread that only moves, and loses nothing that it has seen, keeps the machine sound. */
  lemma MovedSound(s: Machine, t: Tid, view: View, point: Point)
    requires Sound(s) && Bounded(s, view) && Consistent(s, Thread(view, point))
    requires Owns(point) ==> Owns(At(s, t).point) && Complete(s, view)
    ensures Sound(Moved(s, t, view, point))
  {
    var s' := Moved(s, t, view, point);
    assert forall u :: u != t ==> At(s', u) == At(s, u);
    MovedRight(s, t, view, point);
    hide Free, OneRight, Complete;
  }

  lemma FastLoadSound(s: Machine, a: Action)
    requires Sound(s) && Step(AS_WRITTEN, s, a).Some? && a.FastLoad?
    ensures Sound(Step(AS_WRITTEN, s, a).value)
  {
    assert Consistent(s, At(s, a.t));
    var th := At(Step(AS_WRITTEN, s, a).value, a.t);
    MovedSound(s, a.t, th.view, th.point);
  }

  /** A successful test_and_set takes the right to enter out of the cleared flag that it reads, and its view with it. */
  lemma TestAndSetRight(s: Machine, a: Action)
    requires Sound(s) && Step(AS_WRITTEN, s, a).Some? && a.TestAndSet?
    ensures OneRight(Step(AS_WRITTEN, s, a).value)
  {
    OthersStay(AS_WRITTEN, s, a);
    FreeAfter(s.flag, Message(a.read.to, a.to, true, Join(a.read.view, BOTTOM.(flag := a.to))));
    assert !a.read.value ==> Free(s.flag, a.read);
  }

  lemma TestAndSetViews(s: Machine, a: Action)
    requires Sound(s) && Step(AS_WRITTEN, s, a).Some? && a.TestAndSet?
    ensures ViewsBounded(Step(AS_WRITTEN, s, a).value)
  {
    OthersStay(AS_WRITTEN, s, a);
    hide OneRight, OnePointer, OneCreation, Consistent, Free;
  }

  lemma TestAndSetSound(s: Machine, a: Action)
    requires Sound(s) && Step(AS_WRITTEN, s, a).Some? && a.TestAndSet?
    ensures Sound(Step(AS_WRITTEN, s, a).value)
  {
    TestAndSetRight(s, a);
    OthersStay(AS_WRITTEN, s, a);
    FreeAfter(s.flag, Message(a.read.to, a.to, true, Join(a.read.view, BOTTOM.(flag := a.to))));
    assert !a.read.value ==> Free(s.flag, a.read);
    TestAndSetViews(s, a);
    hide OneRight, Free, ViewsBounded;
  }

  lemma RecheckSound(s: Machine, a: Action)
    requires Sound(s) && Step(AS_WRITTEN, s, a).Some? && a.Recheck?
    ensures Sound(Step(AS_WRITTEN, s, a).value)
  {
    assert Consistent(s, At(s, a.t));
    var th := At(Step(AS_WRITTEN, s, a).value, a.t);
    MovedSound(s, a.t, th.view, th.point);
  }

  lemma LoadSlotSound(s: Machine, a: Action)
    requires Sound(s) && Step(AS_WRITTEN, s, a).Some? && a.LoadSlot?
    ensures Sound(Step(AS_WRITTEN, s, a).value)
  {
    assert Consistent(s, At(s, a.t));
    var th := At(Step(AS_WRITTEN, s, a).value, a.t);
    MovedSound(s, a.t, th.view, th.point);
  }

  lemma CreateRight(s: Machine, a: Action)
    requires Sound(s) && Step(AS_WRITTEN, s, a).Some? && a.Create?
    ensures OneRight(Step(AS_WRITTEN, s, a).value)
  {
    OthersStay(AS_WRITTEN, s, a);
    hide ViewsBounded, OnePointer, OneCreation, Free;
  }

  lemma CreateSound(s: Machine, a: Action)
    requires Sound(s) && Step(AS_WRITTEN, s, a).Some? && a.Create?
    ensures Sound(Step(AS_WRITTEN, s, a).value)
  {
    CreateRight(s, a);
    OthersStay(AS_WRITTEN, s, a);
    assert Consistent(s, At(s, a.t)) && Complete(s, At(s, a.t).view);
    assert forall u :: u != a.t ==> !Owns(At(s, u).point);
    hide OneRight;
  }

  lemma PublishRight(s: Machine, a: Action)
    requires Sound(s) && Step(AS_WRITTEN, s, a).Some? && a.Publish?
    ensures OneRight(Step(AS_WRITTEN, s, a).value)
  {
    OthersStay(AS_WRITTEN, s, a);
    hide ViewsBounded, OnePointer, OneCreation, Free;
  }

  lemma PublishSound(s: Machine, a: Action)
    requires Sound(s) && Step(AS_WRITTEN, s, a).Some? && a.Publish?
    ensures Sound(Step(AS_WRITTEN, s, a).value)
  {
    PublishRight(s, a);
    OthersStay(AS_WRITTEN, s, a);
    assert Consistent(s, At(s, a.t)) && Complete(s, At(s, a.t).view);
    assert forall u :: u != a.t ==> !Owns(At(s, u).point);
    hide OneRight;
  }

  /** Clearing the flag hands the right to enter on, with everything that the owner has seen. */
  lemma LeaveRight(s: Machine, a: Action)
    requires Sound(s) && Step(AS_WRITTEN, s, a).Some? && a.Leave?
    ensures OneRight(Step(AS_WRITTEN, s, a).value)
  {
    OthersStay(AS_WRITTEN, s, a);
    FreeAfter(s.flag, Message(a.from, a.to, false, At(s, a.t).view.(flag := a.to)));
  }

  lemma LeaveSound(s: Machine, a: Action)
    requires Sound(s) && Step(AS_WRITTEN, s, a).Some? && a.Leave?
    ensures Sound(Step(AS_WRITTEN, s, a).value)
  {
    LeaveRight(s, a);
    OthersStay(AS_WRITTEN, s, a);
    assert Consistent(s, At(s, a.t));
    hide OneRight, Free;
  }

  lemma UseSound(s: Machine, a: Action)
    requires Sound(s) && Step(AS_WRITTEN, s, a).Some? && a.Use?
    ensures Sound(Step(AS_WRITTEN, s, a).value)
  {
    assert Consistent(s, At(s, a.t));
    assert At(s, a.t).point.Using? && !Step(AS_WRITTEN, s, a).value.raced;
    var th := At(Step(AS_WRITTEN, s, a).value, a.t);
    MovedSound(s, a.t, th.view, th.point);
  }

  lemma SlotSound(s: Machine, m: Message<Option<ProviderId>>)
    requires Sound(s) && Bounded(s, m.view) && (m.value.Some? ==> m.value.value in m.view.providers)
    ensures Sound(s.(slot := s.slot + {m}))
  {
    assert forall u :: At(s.(slot := s.slot + {m}), u) == At(s, u);
  }

  lemma SetSlotSound(s: Machine, a: Action)
    requires Sound(s) && Step(AS_WRITTEN, s, a).Some? && a.SetSlot?
    ensures Sound(Step(AS_WRITTEN, s, a).value)
  {
    assert Consistent(s, At(s, a.t));
    var v := At(s, a.t).view.(slot := a.to);
    var m := Message(a.from, a.to, a.provider, v);
    SlotSound(s, m);
    MovedSound(s.(slot := s.slot + {m}), a.t, v, At(s, a.t).point);
  }

  lemma BuiltSound(s: Machine, p: ProviderId)
    requires Sound(s)
    ensures Sound(s.(built := s.built + {p}))
  {
    assert forall u :: At(s.(built := s.built + {p}), u) == At(s, u);
  }

  lemma BuildSound(s: Machine, a: Action)
    requires Sound(s) && Step(AS_WRITTEN, s, a).Some? && a.Build?
    ensures Sound(Step(AS_WRITTEN, s, a).value)
  {
    assert Consistent(s, At(s, a.t));
    BuiltSound(s, a.built);
    var th := At(Step(AS_WRITTEN, s, a).value, a.t);
    MovedSound(s.(built := s.built + {a.built}), a.t, th.view, th.point);
  }

  lemma SynchroniseSound(s: Machine, a: Action)
    requires Sound(s) && Step(AS_WRITTEN, s, a).Some? && a.Synchronise?
    ensures Sound(Step(AS_WRITTEN, s, a).value)
  {
    assert Consistent(s, At(s, a.t));
    assert Consistent(s, At(s, a.with));
    var th := At(Step(AS_WRITTEN, s, a).value, a.t);
    MovedSound(s, a.t, th.view, th.point);
  }

  lemma StepSound(s: Machine, a: Action)
    requires Sound(s) && Step(AS_WRITTEN, s, a).Some?
    ensures Sound(Step(AS_WRITTEN, s, a).value)
  {
    match a
    case FastLoad(_, _) => FastLoadSound(s, a);
    case TestAndSet(_, _, _) => TestAndSetSound(s, a);
    case Recheck(_, _) => RecheckSound(s, a);
    case LoadSlot(_, _) => LoadSlotSound(s, a);
    case Create(_, _) => CreateSound(s, a);
    case Publish(_, _, _) => PublishSound(s, a);
    case Leave(_, _, _) => LeaveSound(s, a);
    case Use(_) => UseSound(s, a);
    case Build(_, _) => BuildSound(s, a);
    case SetSlot(_, _, _, _) => SetSlotSound(s, a);
    case Synchronise(_, _) => SynchroniseSound(s, a);
  }

  lemma {:induction false} ExecuteSound(actions: seq<Action>)
    requires Execute(AS_WRITTEN, actions).Some?
    ensures Sound(Execute(AS_WRITTEN, actions).value)
  {
    if actions == [] {
      StartSound();
    } else {
      ExecuteSound(actions[..|actions| - 1]);
      StepSound(Execute(AS_WRITTEN, actions[..|actions| - 1]).value, actions[|actions| - 1]);
    }
  }

  // -------------------------------------------------------------- main results

  /** No data race, no second primitive, no second publication. */
  predicate Correct(s: Machine) {
    !s.raced && s.created <= 1 && |s.published| <= 1
  }

  /**
   The relaxed re-check under the guard is never stale: if a pointer was published at all, by whichever thread, then
   that pointer is what it reads.
   */
  lemma RecheckIsFresh(actions: seq<Action>, t: Tid, pointer: Message<Option<Target>>)
    requires Execute(AS_WRITTEN, actions + [Recheck(t, pointer)]).Some?
    ensures Execute(AS_WRITTEN, actions).Some?
    ensures var s := Execute(AS_WRITTEN, actions).value;
            pointer.value == if s.published == [] then None else Some(s.published[0])
  {
    assert (actions + [Recheck(t, pointer)])[..|actions|] == actions;
    ExecuteSound(actions);
    var s := Execute(AS_WRITTEN, actions).value;
    assert Owns(At(s, t).point);
  }

  /**
   The fast path may miss the pointer, but never misreads it: a pointer that it gets is the published one, and the
   thread then has every write that initialised the primitive in its view.
   */
  lemma FastPathSeesInitialisation(actions: seq<Action>, t: Tid, pointer: Message<Option<Target>>)
    requires Execute(AS_WRITTEN, actions + [FastLoad(t, pointer)]).Some? && pointer.value.Some?
    ensures Execute(AS_WRITTEN, actions).Some?
    ensures var s := Execute(AS_WRITTEN, actions).value;
            var s' := Execute(AS_WRITTEN, actions + [FastLoad(t, pointer)]).value;
            && s.published == [pointer.value.value]
            && At(s', t) == Thread(At(s', t).view, Using(pointer.value.value))
            && At(s', t).view.primitive == s'.initialisations
  {
    assert (actions + [FastLoad(t, pointer)])[..|actions|] == actions;
    ExecuteSound(actions);
    FastLoadSound(Execute(AS_WRITTEN, actions).value, FastLoad(t, pointer));
  }

  ghost predicate AlwaysCorrect(o: Orders) {
    forall actions :: Execute(o, actions).Some? ==> Correct(Execute(o, actions).value)
  }

  /**
   The orders in the code are exactly the ones it needs: with them no execution goes wrong, and weakening any of the
   six to relaxed lets some execution go wrong. The re-check can stay relaxed.
   */
  lemma OrdersAreExact(o: Orders)
    ensures AlwaysCorrect(o) <==> o == AS_WRITTEN
  {
    if o == AS_WRITTEN {
      forall actions | Execute(o, actions).Some? ensures Correct(Execute(o, actions).value) {
        ExecuteSound(actions);
      }
    } else if !o.slotAcquire || !o.installRelease {
      var actions := ProviderUnseen(o);
    } else if !o.fastAcquire || !o.publishRelease {
      var actions := PublishedTooEarly(o);
    } else {
      var actions := CreatedTwice(o);
    }
  }

  /** The execution continued by one action. */
  lemma Then(o: Orders, actions: seq<Action>, a: Action) returns (longer: seq<Action>)
    requires Execute(o, actions).Some?
    ensures longer == actions + [a] && Execute(o, longer) == Step(o, Execute(o, actions).value, a)
    ensures Execute(o, longer).Some? ==>
              forall u :: u != a.t ==> At(Execute(o, longer).value, u) == At(Execute(o, actions).value, u)
  {
    if Step(o, Execute(o, actions).value, a).Some? { OthersStay(o, Execute(o, actions).value, a); }
    longer := actions + [a];
    assert longer[..|actions|] == actions;
  }

  const NULL_POINTER: Message<Option<Target>> := Message(-1, 0, None, BOTTOM)
  const CLEAR_FLAG: Message<bool> := Message(-1, 0, false, BOTTOM)

  const P: ProviderId := 7

  /** The message by which a thread that built provider `P` installs it first. */
  function Installation(o: Orders): Message<Option<ProviderId>> {
    Message(0, 1, Some(P), if o.installRelease then BOTTOM.(slot := 1, providers := {P}) else BOTTOM.(slot := 1))
  }

  /** What thread 0 has seen when it publishes in the runs below. */
  const CREATOR := View(1, 1, 1, 2, 1, {P})

  function PublishedMessage(o: Orders): Message<Option<Target>> {
    Message(0, 1, Some(Created(0)), if o.publishRelease then CREATOR else BOTTOM.(resolved := 1))
  }

  /** `P` is installed, thread `builder` has seen it, and every other thread has seen nothing. */
  ghost predicate Installed(o: Orders, s: Machine, builder: Tid) {
    && (forall t :: At(s, t) == Thread(if t == builder then BOTTOM.(slot := 1, providers := {P}) else BOTTOM, Outside))
    && s.flag == {CLEAR_FLAG} && s.resolved == {NULL_POINTER} && Installation(o) in s.slot
    && s.created == 0 && s.initialisations == 0 && s.ownedAccesses == 0 && !s.raced
  }

  lemma InstallRun(o: Orders, builder: Tid) returns (actions: seq<Action>)
    ensures Execute(o, actions).Some? && Installed(o, Execute(o, actions).value, builder)
  {
    actions := Then(o, [], Build(builder, P));
    assert At(Execute(o, actions).value, builder) == Thread(BOTTOM.(providers := {P}), Outside);
    actions := Then(o, actions, SetSlot(builder, Some(P), 0, 1));
  }

  /** Thread 0 is about to call the factory of `P`, and thread 1 is as it was. */
  ghost predicate AboutToCreate(o: Orders, s: Machine, view: View, other: Thread) {
    && At(s, 0) == Thread(view, Creating(P)) && At(s, 1) == other
    && (forall m :: m in s.flag ==> m.to <= 1)
    && s.resolved == {NULL_POINTER} && Installation(o) in s.slot
    && s.created == 0 && s.initialisations == 0 && s.ownedAccesses == 0
  }

  lemma GuardRun(o: Orders, builder: Tid) returns (actions: seq<Action>)
    requires builder <= 1
    ensures Execute(o, actions).Some?
    ensures var s, start := Execute(o, actions).value, if builder == 0 then BOTTOM.(slot := 1, providers := {P}) else BOTTOM;
            && At(s, 0) == Thread(start.(flag := 1), Rechecking)
            && At(s, 1) == Thread(if builder == 1 then BOTTOM.(slot := 1, providers := {P}) else BOTTOM, Outside)
            && (forall m :: m in s.flag ==> m.to <= 1)
            && s.resolved == {NULL_POINTER} && Installation(o) in s.slot
            && s.created == 0 && s.initialisations == 0 && s.ownedAccesses == 0
  {
    actions := InstallRun(o, builder);
    var start := At(Execute(o, actions).value, 0).view;
    actions := Then(o, actions, FastLoad(0, NULL_POINTER));
    assert At(Execute(o, actions).value, 0) == Thread(start, Entering);
    actions := Then(o, actions, TestAndSet(0, CLEAR_FLAG, 1));
  }

  lemma EntryRun(o: Orders, builder: Tid) returns (actions: seq<Action>)
    requires builder <= 1
    ensures Execute(o, actions).Some?
    ensures AboutToCreate(o, Execute(o, actions).value,
                          View(1, 0, 1, 0, 0, if builder == 0 || (o.slotAcquire && o.installRelease) then {P} else {}),
                          Thread(if builder == 1 then BOTTOM.(slot := 1, providers := {P}) else BOTTOM, Outside))
  {
    actions := GuardRun(o, builder);
    var start := At(Execute(o, actions).value, 0).view;
    actions := Then(o, actions, Recheck(0, NULL_POINTER));
    assert At(Execute(o, actions).value, 0) == Thread(start, ReadingSlot);
    actions := Then(o, actions, LoadSlot(0, Installation(o)));
  }

  /** Without the acquire of `Provider` or the release of `SetProvider`, a provider is called before it is seen. */
  lemma ProviderUnseen(o: Orders) returns (actions: seq<Action>)
    requires !o.slotAcquire || !o.installRelease
    ensures Execute(o, actions).Some? && Execute(o, actions).value.raced
  {
    actions := EntryRun(o, 1);
    actions := Then(o, actions, Create(0, Null));
  }

  /** Thread 0 has published the primitive that it created, and thread 1 has still seen nothing. */
  ghost predicate JustPublished(o: Orders, s: Machine) {
    && At(s, 0) == Thread(CREATOR, Leaving(Created(0))) && At(s, 1) == Thread(BOTTOM, Outside)
    && (forall m :: m in s.flag ==> m.to <= 1)
    && NULL_POINTER in s.resolved && PublishedMessage(o) in s.resolved && Installation(o) in s.slot
    && s.created == 1 && s.initialisations == 1
  }

  lemma CreationRun(o: Orders) returns (actions: seq<Action>)
    ensures Execute(o, actions).Some? && JustPublished(o, Execute(o, actions).value)
  {
    actions := EntryRun(o, 0);
    actions := Then(o, actions, Create(0, Fresh));
    assert At(Execute(o, actions).value, 0) == Thread(View(1, 0, 1, 1, 1, {P}), Publishing);
    actions := Then(o, actions, Publish(0, 0, 1));
  }

  /** Without the acquire of the fast path or the release of the publication, a primitive is used uninitialised. */
  lemma PublishedTooEarly(o: Orders) returns (actions: seq<Action>)
    requires !o.fastAcquire || !o.publishRelease
    ensures Execute(o, actions).Some? && Execute(o, actions).value.raced
  {
    actions := CreationRun(o);
    actions := Then(o, actions, FastLoad(1, PublishedMessage(o)));
    actions := Then(o, actions, Use(1));
  }

  /** Thread 0 has left the guard behind it, and thread 1, which took the slow path before that, now enters. */
  lemma ReentryRun(o: Orders) returns (actions: seq<Action>)
    requires !o.enterAcquire || !o.leaveRelease
    ensures Execute(o, actions).Some?
    ensures var s := Execute(o, actions).value;
            && At(s, 1) == Thread(BOTTOM.(flag := 3), Rechecking)
            && NULL_POINTER in s.resolved && Installation(o) in s.slot && s.created == 1
  {
    actions := CreationRun(o);
    var left := Message(1, 2, false, if o.leaveRelease then CREATOR.(flag := 2) else BOTTOM.(flag := 2));
    actions := Then(o, actions, Leave(0, 1, 2));
    assert left in Execute(o, actions).value.flag;
    actions := Then(o, actions, FastLoad(1, NULL_POINTER));
    assert At(Execute(o, actions).value, 1) == Thread(BOTTOM, Entering);
    actions := Then(o, actions, TestAndSet(1, left, 3));
  }

  /** Without the acquire or the release of the guard, the re-check is stale and a second primitive is created. */
  lemma CreatedTwice(o: Orders) returns (actions: seq<Action>)
    requires !o.enterAcquire || !o.leaveRelease
    ensures Execute(o, actions).Some? && Execute(o, actions).value.created == 2
  {
    actions := ReentryRun(o);
    actions := Then(o, actions, Recheck(1, NULL_POINTER));
    assert At(Execute(o, actions).value, 1) == Thread(BOTTOM.(flag := 3), ReadingSlot);
    actions := Then(o, actions, LoadSlot(1, Installation(o)));
    assert At(Execute(o, actions).value, 1).point == Creating(P);
    actions := Then(o, actions, Create(1, Fresh));
  }
}
