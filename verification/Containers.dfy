/**
 Allocator-aware containers that allocate through their stored allocator, under a provider slot that changes at any time.
 What a container does to its allocator follows the propagation traits of `Allocator` and section 20.5.3.5 of
 ISO/IEC 14882:2017: move assignment and swap carry the allocator along, copy construction copies it, and copy assignment
 (whose trait is not declared) keeps the destination's.
 */
module Containers {
  import opened Common
  import opened MemoryModel

  type Cid = nat

  /** A container: the binding of its allocator, and the element count of each block it holds. */
  datatype Container = Container(shape: Shape, binding: Option<ProviderId>, blocks: map<Address, nat>)

  datatype State = State(
    sizeMax: nat,
    slot: ProviderId,
    ledgers: map<ProviderId, Ledger>,
    containers: map<Cid, Container>,
    misuse: bool)                 // a provider was handed a block that is not exactly one of its live blocks

  datatype Command =
    | Install(provider: ProviderId)
    | Construct(c: Cid, shape: Shape, binding: Option<ProviderId>)
    | CopyConstruct(c: Cid, source: Cid)
    | MoveConstruct(c: Cid, source: Cid)
    | Grow(c: Cid, count: nat, answer: Option<Address>)    // allocate one block; the provider answers or throws
    | Shrink(c: Cid, address: Address)                     // deallocate one block
    | CopyAssign(c: Cid, count: nat, answer: Option<Address>) // new storage for the copy, then the old storage goes
    | MoveAssign(c: Cid, source: Cid)
    | Swap(c: Cid, source: Cid)
    | Destroy(c: Cid)

  function Init(sizeMax: nat, slot: ProviderId): State {
    State(sizeMax, slot, map[], map[], false)
  }

  function LedgerOf(s: State, p: ProviderId): Ledger {
    if p in s.ledgers then s.ledgers[p] else map[]
  }

  /** `allocate(count)` of the allocator that container `c` stores. */
  function Allocated(s: State, c: Cid, count: nat, answer: Option<Address>): Option<State>
    requires c in s.containers
  {
    var k := s.containers[c];
    if TooMany(k.shape, count, s.sizeMax) then Some(s) else  // std::bad_array_new_length, before the allocator binds
    var p := Effective(k.binding, s.slot);
    match answer
    case None => Some(s.(containers := s.containers[c := k.(binding := Some(p))]))
    case Some(a) =>
      if a in LedgerOf(s, p) then None else
      Some(s.(ledgers := s.ledgers[p := LedgerOf(s, p)[a := BlockFor(k.shape, count, s.sizeMax)]],
              containers := s.containers[c := k.(binding := Some(p), blocks := k.blocks[a := count])]))
  }

  /** `deallocate` of each of the blocks `gone`, through the allocator that container `c` stores. */
  function Deallocated(s: State, c: Cid, gone: set<Address>): State
    requires c in s.containers && gone <= s.containers[c].blocks.Keys
  {
    var k := s.containers[c];
    if gone == {} then s else
    var p := Effective(k.binding, s.slot);
    var ledger := LedgerOf(s, p);
    s.(ledgers := s.ledgers[p := ledger - gone],
       containers := s.containers[c := k.(blocks := k.blocks - gone)],
       misuse := s.misuse || exists a :: a in gone && !(a in ledger && ledger[a] == BlockFor(k.shape, k.blocks[a], s.sizeMax)))
  }

  function Next(s: State, m: Command): Option<State> {
    match m
    case Install(p) => Some(s.(slot := p))
    case Construct(c, shape, binding) =>
      if c in s.containers then None else Some(s.(containers := s.containers[c := Container(shape, binding, map[])]))
    case CopyConstruct(c, d) =>
      if c in s.containers || d !in s.containers then None else
      Some(s.(containers := s.containers[c := s.containers[d].(blocks := map[])]))
    case MoveConstruct(c, d) =>
      if c in s.containers || d !in s.containers then None else
      Some(s.(containers := s.containers[c := s.containers[d]][d := s.containers[d].(blocks := map[])]))
    case Grow(c, count, answer) =>
      if c !in s.containers then None else Allocated(s, c, count, answer)
    case Shrink(c, a) =>
      if c !in s.containers || a !in s.containers[c].blocks then None else Some(Deallocated(s, c, {a}))
    case CopyAssign(c, count, answer) =>
      if c !in s.containers then None else
      (match Allocated(s, c, count, answer)
       case None => None
       case Some(s1) =>
         if TooMany(s.containers[c].shape, count, s.sizeMax) || answer.None? then Some(s1)
         else Some(Deallocated(s1, c, s1.containers[c].blocks.Keys - {answer.value})))
    case MoveAssign(c, d) =>
      if c !in s.containers || d !in s.containers || c == d || s.containers[c].shape != s.containers[d].shape then None else
      var s1 := Deallocated(s, c, s.containers[c].blocks.Keys);
      Some(s1.(containers := s1.containers[c := s.containers[d]][d := s.containers[d].(blocks := map[])]))
    case Swap(c, d) =>
      if c !in s.containers || d !in s.containers || s.containers[c].shape != s.containers[d].shape then None else
      Some(s.(containers := s.containers[c := s.containers[d]][d := s.containers[c]]))
    case Destroy(c) =>
      if c !in s.containers then None else
      var s1 := Deallocated(s, c, s.containers[c].blocks.Keys);
      Some(s1.(containers := s1.containers - {c}))
  }

  function Run(s: State, ms: seq<Command>): Option<State> {
    if ms == [] then Some(s)
    else
      match Run(s, ms[..|ms| - 1])
      case None => None
      case Some(s1) => Next(s1, ms[|ms| - 1])
  }

  // ---------------------------------------------------------------- invariant

  /** Container `c` holds block `a` of provider `p`. */
  predicate Holds(s: State, c: Cid, p: ProviderId, a: Address) {
    c in s.containers && s.containers[c].binding == Some(p) && a in s.containers[c].blocks
  }

  /** The provider knows the block exactly as its holder will describe it, and the byte count did not wrap. */
  predicate Described(s: State, c: Cid, p: ProviderId, a: Address)
    requires Holds(s, c, p, a)
  {
    var k := s.containers[c];
    && a in LedgerOf(s, p)
    && LedgerOf(s, p)[a] == Block(k.blocks[a] * k.shape.size, k.shape.alignment, k.shape.policy)
    && k.blocks[a] * k.shape.size <= s.sizeMax
  }

  ghost predicate AllDescribed(s: State) {
    && (forall c :: c in s.containers && s.containers[c].blocks != map[] ==> s.containers[c].binding.Some?)
    && (forall c: Cid, p: ProviderId, a: Address :: Holds(s, c, p, a) ==> Described(s, c, p, a))
  }

  ghost predicate HeldOnce(s: State) {
    forall c: Cid, d: Cid, p: ProviderId, a: Address :: Holds(s, c, p, a) && Holds(s, d, p, a) ==> c == d
  }

  /** Conservation: a provider's live blocks are held by containers. */
  ghost predicate AllHeld(s: State) {
    forall p: ProviderId, a: Address :: a in LedgerOf(s, p) ==> exists c: Cid :: Holds(s, c, p, a)
  }

  ghost predicate Inv(s: State) {
    !s.misuse && AllDescribed(s) && HeldOnce(s) && AllHeld(s)
  }

  /** `allocate` adds one block, to the container and to the ledger of the provider that the allocator is then bound to. */
  lemma AllocatedHolds(s: State, c: Cid, count: nat, answer: Option<Address>, d: Cid, q: ProviderId, a: Address)
    requires AllDescribed(s) && c in s.containers && Allocated(s, c, count, answer).Some?
    requires !TooMany(s.containers[c].shape, count, s.sizeMax)
    ensures var s', p := Allocated(s, c, count, answer).value, Effective(s.containers[c].binding, s.slot);
            && (Holds(s', d, q, a) <==> Holds(s, d, q, a) || (d == c && q == p && answer == Some(a)))
            && (a in LedgerOf(s', q) <==> a in LedgerOf(s, q) || (q == p && answer == Some(a)))
            && (answer == Some(a) ==> a !in LedgerOf(s, p))
            && (Holds(s', d, q, a) ==> Described(s', d, q, a))
  {
    GuardIsExact(s.containers[c].shape, count, s.sizeMax);
    assert s.containers[c].binding.None? ==> s.containers[c].blocks == map[];
  }

  lemma AllocatedInv(s: State, c: Cid, count: nat, answer: Option<Address>)
    requires Inv(s) && c in s.containers && Allocated(s, c, count, answer).Some?
    ensures Inv(Allocated(s, c, count, answer).value)
  {
    if !TooMany(s.containers[c].shape, count, s.sizeMax) {
      var s' := Allocated(s, c, count, answer).value;
      forall d: Cid, q: ProviderId, a: Address | Holds(s', d, q, a) ensures Described(s', d, q, a) {
        AllocatedHolds(s, c, count, answer, d, q, a);
      }
      forall d: Cid, e: Cid, q: ProviderId, a: Address | Holds(s', d, q, a) && Holds(s', e, q, a) ensures d == e {
        AllocatedHolds(s, c, count, answer, d, q, a);
        AllocatedHolds(s, c, count, answer, e, q, a);
        assert Holds(s, d, q, a) ==> Described(s, d, q, a);
        assert Holds(s, e, q, a) ==> Described(s, e, q, a);
      }
      forall q: ProviderId, a: Address | a in LedgerOf(s', q) ensures exists d: Cid :: Holds(s', d, q, a) {
        AllocatedHolds(s, c, count, answer, c, q, a);
        if a in LedgerOf(s, q) {
          var d: Cid :| Holds(s, d, q, a);
          AllocatedHolds(s, c, count, answer, d, q, a);
        }
      }
    }
  }

  /** `deallocate` removes the blocks from the container and from the provider that they came from, and nothing else. */
  lemma DeallocatedHolds(s: State, c: Cid, gone: set<Address>, d: Cid, q: ProviderId, a: Address)
    requires Inv(s) && c in s.containers && gone <= s.containers[c].blocks.Keys
    ensures var s' := Deallocated(s, c, gone);
            && (Holds(s', d, q, a) <==> Holds(s, d, q, a) && !(d == c && a in gone))
            && (a in LedgerOf(s', q) <==> a in LedgerOf(s, q) && !(Holds(s, c, q, a) && a in gone))
            && (Holds(s', d, q, a) ==> Described(s', d, q, a))
            && !s'.misuse
            && (c in s'.containers && s'.containers[c].blocks == s.containers[c].blocks - gone
                && s'.containers[c].binding == s.containers[c].binding)
  {
    var k := s.containers[c];
    if gone != {} {
      assert k.blocks != map[];
      var p := k.binding.value;
      forall b | b in gone
        ensures b in LedgerOf(s, p) && LedgerOf(s, p)[b] == BlockFor(k.shape, k.blocks[b], s.sizeMax)
      {
        assert Holds(s, c, p, b) && Described(s, c, p, b);
        SmallIsExact(k.blocks[b] * k.shape.size, s.sizeMax);
      }
    } else {
      assert k.blocks - gone == k.blocks;
    }
    if Holds(s, d, q, a) {
      assert Described(s, d, q, a);
      assert Holds(s, c, q, a) ==> c == d;
    }
  }

  lemma DeallocatedInv(s: State, c: Cid, gone: set<Address>)
    requires Inv(s) && c in s.containers && gone <= s.containers[c].blocks.Keys
    ensures Inv(Deallocated(s, c, gone))
    ensures c in Deallocated(s, c, gone).containers
    ensures Deallocated(s, c, gone).containers[c].blocks == s.containers[c].blocks - gone
  {
    var s' := Deallocated(s, c, gone);
    DeallocatedHolds(s, c, gone, c, 0, 0);
    forall d: Cid, q: ProviderId, a: Address | Holds(s', d, q, a) ensures Described(s', d, q, a) {
      DeallocatedHolds(s, c, gone, d, q, a);
    }
    forall d: Cid, e: Cid, q: ProviderId, a: Address | Holds(s', d, q, a) && Holds(s', e, q, a) ensures d == e {
      DeallocatedHolds(s, c, gone, d, q, a);
      DeallocatedHolds(s, c, gone, e, q, a);
    }
    forall q: ProviderId, a: Address | a in LedgerOf(s', q) ensures exists d: Cid :: Holds(s', d, q, a) {
      DeallocatedHolds(s, c, gone, c, q, a);
      var d: Cid :| Holds(s, d, q, a);
      DeallocatedHolds(s, c, gone, d, q, a);
    }
  }

  /** Handing the blocks of containers over, with the allocators that are bound to their provider, changes no pairing. */
  lemma HandedOver(s: State, s': State, from: map<Cid, Cid>, to: map<Cid, Cid>)
    requires Inv(s) && s'.ledgers == s.ledgers && s'.sizeMax == s.sizeMax && !s'.misuse
    requires forall c :: c in s'.containers && s'.containers[c].blocks != map[] ==>
               c in from && from[c] in s.containers && s'.containers[c] == s.containers[from[c]] &&
               from[c] in to && to[from[c]] == c
    requires forall d :: d in s.containers && s.containers[d].blocks != map[] ==>
               d in to && to[d] in s'.containers && s'.containers[to[d]] == s.containers[d]
    ensures Inv(s')
  {
    forall c: Cid, p: ProviderId, a: Address | Holds(s', c, p, a) ensures Described(s', c, p, a) {
      assert s'.containers[c].blocks != map[];
      assert Holds(s, from[c], p, a) && Described(s, from[c], p, a);
    }
    forall p: ProviderId, a: Address | a in LedgerOf(s', p) ensures exists c: Cid :: Holds(s', c, p, a) {
      assert a in LedgerOf(s, p);
      var d: Cid :| Holds(s, d, p, a);
      assert s.containers[d].blocks != map[];
      assert Holds(s', to[d], p, a);
    }
    forall c: Cid, d: Cid, p: ProviderId, a: Address | Holds(s', c, p, a) && Holds(s', d, p, a) ensures c == d {
      assert s'.containers[c].blocks != map[] && s'.containers[d].blocks != map[];
      assert Holds(s, from[c], p, a) && Holds(s, from[d], p, a);
    }
  }

  function Identity(s: State): map<Cid, Cid> { map c | c in s.containers :: c }

  lemma CopyAssignInv(s: State, c: Cid, count: nat, answer: Option<Address>)
    requires Inv(s) && Next(s, CopyAssign(c, count, answer)).Some?
    ensures Inv(Next(s, CopyAssign(c, count, answer)).value)
  {
    AllocatedInv(s, c, count, answer);
    var s1 := Allocated(s, c, count, answer).value;
    if !TooMany(s.containers[c].shape, count, s.sizeMax) && answer.Some? {
      DeallocatedInv(s1, c, s1.containers[c].blocks.Keys - {answer.value});
    }
    hide Inv, Allocated, Deallocated;
  }

  lemma MoveAssignInv(s: State, c: Cid, d: Cid)
    requires Inv(s) && Next(s, MoveAssign(c, d)).Some?
    ensures Inv(Next(s, MoveAssign(c, d)).value)
  {
    var s1 := Deallocated(s, c, s.containers[c].blocks.Keys);
    DeallocatedInv(s, c, s.containers[c].blocks.Keys);
    DeallocatedOthers(s, c, s.containers[c].blocks.Keys);
    hide Inv, Deallocated;
    HandedOver(s1, Next(s, MoveAssign(c, d)).value, Identity(s)[c := d], Identity(s)[d := c]);
  }

  lemma DeallocatedOthers(s: State, c: Cid, gone: set<Address>)
    requires c in s.containers && gone <= s.containers[c].blocks.Keys
    ensures var s' := Deallocated(s, c, gone);
            && s'.containers.Keys == s.containers.Keys && s'.sizeMax == s.sizeMax && s'.slot == s.slot
            && forall d :: d in s.containers && d != c ==> s'.containers[d] == s.containers[d]
  {
  }

  lemma SwapInv(s: State, c: Cid, d: Cid)
    requires Inv(s) && Next(s, Swap(c, d)).Some?
    ensures Inv(Next(s, Swap(c, d)).value)
  {
    assert !s.misuse;
    hide Inv;
    HandedOver(s, Next(s, Swap(c, d)).value, Identity(s)[c := d][d := c], Identity(s)[c := d][d := c]);
  }

  lemma DestroyInv(s: State, c: Cid)
    requires Inv(s) && c in s.containers
    ensures Inv(Next(s, Destroy(c)).value)
  {
    var s1 := Deallocated(s, c, s.containers[c].blocks.Keys);
    DeallocatedInv(s, c, s.containers[c].blocks.Keys);
    DeallocatedOthers(s, c, s.containers[c].blocks.Keys);
    hide Inv, Deallocated;
    HandedOver(s1, Next(s, Destroy(c)).value, Identity(s), Identity(s));
  }

  lemma NextInv(s: State, m: Command)
    requires Inv(s) && Next(s, m).Some?
    ensures Inv(Next(s, m).value)
  {
    var s' := Next(s, m).value;
    hide Inv, Deallocated, Allocated;
    match m
    case Install(_) => HandedOver(s, s', Identity(s), Identity(s));
    case Construct(_, _, _) => HandedOver(s, s', Identity(s), Identity(s));
    case CopyConstruct(_, _) => HandedOver(s, s', Identity(s), Identity(s));
    case MoveConstruct(c, d) => HandedOver(s, s', Identity(s)[c := d], Identity(s)[d := c]);
    case Grow(c, count, answer) => AllocatedInv(s, c, count, answer);
    case Shrink(c, a) => DeallocatedInv(s, c, {a});
    case CopyAssign(c, count, answer) => CopyAssignInv(s, c, count, answer);
    case MoveAssign(c, d) => MoveAssignInv(s, c, d);
    case Swap(c, d) => SwapInv(s, c, d);
    case Destroy(c) => DestroyInv(s, c);
  }

  /**
   The heap ledger. Over every sequence of container operations, with the slot changing in between: no provider is ever
   handed a block other than exactly as it allocated it (pointer, byte count without wrap-around, alignment, policy); a
   container that holds storage has an allocator bound to the provider of that storage; and each provider's live blocks
   are exactly those that containers hold, each in one container.
   */
  lemma {:induction false} HeapLedger(sizeMax: nat, slot: ProviderId, ms: seq<Command>)
    requires Run(Init(sizeMax, slot), ms).Some?
    ensures Inv(Run(Init(sizeMax, slot), ms).value)
  {
    if ms != [] {
      HeapLedger(sizeMax, slot, ms[..|ms| - 1]);
      NextInv(Run(Init(sizeMax, slot), ms[..|ms| - 1]).value, ms[|ms| - 1]);
    }
  }

  /** When every container is gone, no provider has a live block left. */
  lemma NothingLeaks(sizeMax: nat, slot: ProviderId, ms: seq<Command>, p: ProviderId)
    requires Run(Init(sizeMax, slot), ms).Some? && Run(Init(sizeMax, slot), ms).value.containers == map[]
    ensures LedgerOf(Run(Init(sizeMax, slot), ms).value, p) == map[]
  {
    HeapLedger(sizeMax, slot, ms);
    var s := Run(Init(sizeMax, slot), ms).value;
    forall a: Address ensures a !in LedgerOf(s, p) {
      assert forall c: Cid :: !Holds(s, c, p, a);
    }
  }

  /** The provider of the last installation among the events, or `slot` when there is none. */
  function LastInstalled(es: seq<Command>, slot: ProviderId): ProviderId {
    if es == [] then slot
    else if es[|es| - 1].Install? then es[|es| - 1].provider
    else LastInstalled(es[..|es| - 1], slot)
  }

  /** Installations, and nothing else, decide which provider a later first allocation finds. */
  lemma {:induction false} SlotIsLastInstalled(s: State, es: seq<Command>)
    requires Run(s, es).Some?
    ensures Run(s, es).value.slot == LastInstalled(es, s.slot)
  {
    if es != [] { SlotIsLastInstalled(s, es[..|es| - 1]); }
  }

  // ------------------------------------------------------------------ the capture

  function Installs(ps: seq<ProviderId>): seq<Command> {
    seq(|ps|, i requires 0 <= i < |ps| => Install(ps[i]))
  }

  lemma {:induction false} InstallsOnlySetSlot(s: State, ms: seq<Command>, ps: seq<ProviderId>)
    requires Run(s, ms).Some?
    ensures Run(s, ms + Installs(ps)) == Some(Run(s, ms).value.(slot := LastOr(ps, Run(s, ms).value.slot)))
  {
    if ps == [] {
      assert ms + Installs(ps) == ms;
    } else {
      InstallsOnlySetSlot(s, ms, ps[..|ps| - 1]);
      assert (ms + Installs(ps))[..|ms + Installs(ps)| - 1] == ms + Installs(ps[..|ps| - 1]);
    }
  }

  /**
   Late capture: a default-constructed container takes its storage from the provider installed at its first allocation,
   whatever was installed when it was constructed, and is bound to it from then on.
   */
  lemma CapturedAtFirstAllocation(s: State, c: Cid, shape: Shape, ps: seq<ProviderId>, count: nat, a: Address)
    requires c !in s.containers && !TooMany(shape, count, s.sizeMax) && a !in LedgerOf(s, LastOr(ps, s.slot))
    ensures var ms := [Construct(c, shape, None)] + Installs(ps) + [Grow(c, count, Some(a))];
            var p := LastOr(ps, s.slot);
            && Run(s, ms).Some?
            && c in Run(s, ms).value.containers
            && Run(s, ms).value.containers[c] == Container(shape, Some(p), map[a := count])
            && a in LedgerOf(Run(s, ms).value, p)
            && (forall q :: q != p ==> LedgerOf(Run(s, ms).value, q) == LedgerOf(s, q))
  {
    var m1 := [Construct(c, shape, None)];
    assert m1[..0] == [] && Run(s, []) == Some(s);
    InstallsOnlySetSlot(s, m1, ps);
    var m2 := m1 + Installs(ps);
    var ms := m2 + [Grow(c, count, Some(a))];
    assert ms[..|m2|] == m2;
  }
}
