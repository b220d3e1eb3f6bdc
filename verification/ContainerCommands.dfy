/** What each command of `Containers` leaves: in the containers that it names, in the ledgers, and in everything else. */
module ContainerCommands {
  import opened Common
  import opened MemoryModel
  import opened Containers

  /** What container `k` holds of provider `p`. */
  function HeldFrom(k: Container, p: ProviderId): set<Address> {
    if k.binding == Some(p) then k.blocks.Keys else {}
  }

  function Emptied(k: Container): Container { k.(blocks := map[]) }

  /** Only the containers `touched` differ, and the slot is as it was. */
  ghost predicate OnlyTouches(s: State, s': State, touched: set<Cid>) {
    && s'.slot == s.slot && s'.sizeMax == s.sizeMax && !s'.misuse
    && (forall k :: k !in touched ==> (k in s'.containers <==> k in s.containers))
    && (forall k :: k !in touched && k in s.containers ==> s'.containers[k] == s.containers[k])
  }

  /** From each ledger exactly the blocks `from` held of that provider are gone. */
  ghost predicate Frees(s: State, s': State, from: Container) {
    forall p: ProviderId :: LedgerOf(s', p) == LedgerOf(s, p) - HeldFrom(from, p)
  }

  ghost predicate SameLedgers(s: State, s': State) {
    forall p: ProviderId :: LedgerOf(s', p) == LedgerOf(s, p)
  }

  lemma DeallocatedLeaves(s: State, c: Cid, gone: set<Address>)
    requires Inv(s) && c in s.containers && gone <= s.containers[c].blocks.Keys
    ensures var k, s' := s.containers[c], Deallocated(s, c, gone);
            && OnlyTouches(s, s', {c}) && c in s'.containers
            && s'.containers[c] == k.(blocks := k.blocks - gone)
            && forall p: ProviderId ::
                 LedgerOf(s', p) == if k.binding == Some(p) then LedgerOf(s, p) - gone else LedgerOf(s, p)
  {
    DeallocatedHolds(s, c, gone, c, 0, 0);
    DeallocatedOthers(s, c, gone);
    var k := s.containers[c];
    assert gone != {} ==> k.blocks != map[] && k.binding.Some?;
    if gone == {} {
      assert k.blocks - gone == k.blocks;
      forall p: ProviderId ensures LedgerOf(s, p) - gone == LedgerOf(s, p) { }
    }
    hide Inv;
  }

  /**
   `allocate`: too large a count leaves everything as it is; otherwise the container binds to its effective provider, and
   if that answers, it gets one block there, which the provider knows with its unwrapped byte count.
   */
  lemma GrowLeaves(s: State, c: Cid, count: nat, answer: Option<Address>)
    requires Inv(s) && Next(s, Grow(c, count, answer)).Some?
    ensures var s', k := Next(s, Grow(c, count, answer)).value, s.containers[c];
            && OnlyTouches(s, s', {c}) && c in s'.containers
            && (count * k.shape.size > s.sizeMax ==> s'.containers[c] == k && SameLedgers(s, s'))
            && (count * k.shape.size <= s.sizeMax ==>
                  var p := if k.binding.Some? then k.binding.value else s.slot;
                  && s'.containers[c] == Container(k.shape, Some(p), if answer.Some? then k.blocks[answer.value := count] else k.blocks)
                  && (forall q: ProviderId :: q != p ==> LedgerOf(s', q) == LedgerOf(s, q))
                  && LedgerOf(s', p) ==
                     if answer.None? then LedgerOf(s, p)
                     else LedgerOf(s, p)[answer.value := Block(count * k.shape.size, k.shape.alignment, k.shape.policy)])
  {
    GuardIsExact(s.containers[c].shape, count, s.sizeMax);
    assert !s.misuse;
    hide Inv;
  }

  lemma ConstructLeaves(s: State, c: Cid, shape: Shape, binding: Option<ProviderId>)
    requires Inv(s) && Next(s, Construct(c, shape, binding)).Some?
    ensures var s' := Next(s, Construct(c, shape, binding)).value;
            && OnlyTouches(s, s', {c}) && SameLedgers(s, s') && c !in s.containers && c in s'.containers
            && s'.containers[c] == Container(shape, binding, map[])
  {
  }

  /** A copy takes over the binding, and no storage; the source is as it was. */
  lemma CopyConstructLeaves(s: State, c: Cid, d: Cid)
    requires Inv(s) && Next(s, CopyConstruct(c, d)).Some?
    ensures var s' := Next(s, CopyConstruct(c, d)).value;
            && OnlyTouches(s, s', {c}) && SameLedgers(s, s') && c in s'.containers
            && s'.containers[c] == Emptied(s.containers[d])
  {
  }

  /** Move construction takes binding and storage over; the source is left bound as it was, and without storage. */
  lemma MoveConstructLeaves(s: State, c: Cid, d: Cid)
    requires Inv(s) && Next(s, MoveConstruct(c, d)).Some?
    ensures var s' := Next(s, MoveConstruct(c, d)).value;
            && OnlyTouches(s, s', {c, d}) && SameLedgers(s, s') && c in s'.containers && d in s'.containers
            && s'.containers[c] == s.containers[d] && s'.containers[d] == Emptied(s.containers[d])
            && forall p: ProviderId, a: Address :: (Holds(s', c, p, a) <==> Holds(s, d, p, a)) && !Holds(s', d, p, a)
  {
  }

  /** `deallocate` of one block: it leaves the container and the ledger that it came from. */
  lemma ShrinkLeaves(s: State, c: Cid, a: Address)
    requires Inv(s) && Next(s, Shrink(c, a)).Some?
    ensures var s', k := Next(s, Shrink(c, a)).value, s.containers[c];
            && OnlyTouches(s, s', {c}) && c in s'.containers
            && s'.containers[c] == k.(blocks := k.blocks - {a})
            && forall p: ProviderId ::
                 LedgerOf(s', p) == if k.binding == Some(p) then LedgerOf(s, p) - {a} else LedgerOf(s, p)
  {
    DeallocatedLeaves(s, c, {a});
  }

  /**
   Copy assignment keeps the destination's binding, or binds it. Without new storage the old one stays.
   */
  lemma CopyAssignFails(s: State, c: Cid, count: nat, answer: Option<Address>)
    requires Inv(s) && Next(s, CopyAssign(c, count, answer)).Some?
    requires count * s.containers[c].shape.size > s.sizeMax || answer.None?
    ensures var s', k := Next(s, CopyAssign(c, count, answer)).value, s.containers[c];
            && OnlyTouches(s, s', {c}) && c in s'.containers && SameLedgers(s, s')
            && (count * k.shape.size > s.sizeMax ==> s'.containers[c] == k)
            && (count * k.shape.size <= s.sizeMax ==>
                  s'.containers[c] == k.(binding := Some(if k.binding.Some? then k.binding.value else s.slot)))
  {
    GrowLeaves(s, c, count, answer);
    GuardIsExact(s.containers[c].shape, count, s.sizeMax);
    hide Inv, Deallocated, Allocated;
  }

  /** With new storage, that is all that the destination holds, and the old storage is gone from its ledger. */
  lemma CopyAssignLeaves(s: State, c: Cid, count: nat, a: Address)
    requires Inv(s) && c in s.containers && Next(s, CopyAssign(c, count, Some(a))).Some?
    requires count * s.containers[c].shape.size <= s.sizeMax
    ensures var s', k := Next(s, CopyAssign(c, count, Some(a))).value, s.containers[c];
            var p := if k.binding.Some? then k.binding.value else s.slot;
            && OnlyTouches(s, s', {c}) && c in s'.containers
            && s'.containers[c] == Container(k.shape, Some(p), map[a := count])
            && (forall q: ProviderId :: q != p ==> LedgerOf(s', q) == LedgerOf(s, q))
            && LedgerOf(s', p) == (LedgerOf(s, p) - k.blocks.Keys)[
                                    a := Block(count * k.shape.size, k.shape.alignment, k.shape.policy)]
  {
    hide Next, Inv, Allocated, LedgerOf, Deallocated, SameLedgers;
    CopyAssignIs(s, c, count, a);
    GrowLeaves(s, c, count, Some(a));
    AllocatedInv(s, c, count, Some(a));
    var k, s1 := s.containers[c], Next(s, Grow(c, count, Some(a))).value;
    NewBlock(s, c, count, a);
    Replaced(k.blocks, a, count);
    DeallocatedLeaves(s1, c, k.blocks.Keys);
    FreedAfterwards(s, s1, Deallocated(s1, c, k.blocks.Keys), if k.binding.Some? then k.binding.value else s.slot,
                    k.blocks.Keys, a, Block(count * k.shape.size, k.shape.alignment, k.shape.policy));
  }

  lemma FreedAfterwards(s: State, s1: State, s2: State, p: ProviderId, gone: set<Address>, a: Address, b: Block)
    requires a !in gone && LedgerOf(s1, p) == LedgerOf(s, p)[a := b]
    requires forall q: ProviderId :: q != p ==> LedgerOf(s1, q) == LedgerOf(s, q)
    requires forall q: ProviderId :: LedgerOf(s2, q) == if q == p then LedgerOf(s1, q) - gone else LedgerOf(s1, q)
    ensures forall q: ProviderId :: q != p ==> LedgerOf(s2, q) == LedgerOf(s, q)
    ensures LedgerOf(s2, p) == (LedgerOf(s, p) - gone)[a := b]
  {
    ReplacedBlock(LedgerOf(s, p), gone, a, b);
    hide LedgerOf;
  }

  /** Copy assignment with new storage is an allocation, and then the old storage goes. */
  lemma CopyAssignIs(s: State, c: Cid, count: nat, a: Address)
    requires Inv(s) && c in s.containers && Next(s, CopyAssign(c, count, Some(a))).Some?
    requires count * s.containers[c].shape.size <= s.sizeMax
    ensures var s1 := Next(s, Grow(c, count, Some(a)));
            && s1.Some? && c in s1.value.containers && s.containers[c].blocks.Keys <= s1.value.containers[c].blocks.Keys
            && Allocated(s, c, count, Some(a)) == s1
            && Next(s, CopyAssign(c, count, Some(a))) == Some(Deallocated(s1.value, c, s.containers[c].blocks.Keys))
  {
    GrowLeaves(s, c, count, Some(a));
    GuardIsExact(s.containers[c].shape, count, s.sizeMax);
    NewBlock(s, c, count, a);
    Replaced(s.containers[c].blocks, a, count);
    hide Inv, Allocated, LedgerOf, Deallocated;
  }

  lemma Replaced(blocks: map<Address, nat>, a: Address, count: nat)
    requires a !in blocks
    ensures blocks[a := count].Keys - {a} == blocks.Keys && blocks[a := count] - blocks.Keys == map[a := count]
  {
  }

  lemma ReplacedBlock(ledger: Ledger, gone: set<Address>, a: Address, b: Block)
    requires a !in gone
    ensures ledger[a := b] - gone == (ledger - gone)[a := b]
  {
  }

  /** The provider answers with an address that the container does not hold yet. */
  lemma NewBlock(s: State, c: Cid, count: nat, a: Address)
    requires Inv(s) && c in s.containers && Allocated(s, c, count, Some(a)).Some?
    requires count * s.containers[c].shape.size <= s.sizeMax
    ensures a !in s.containers[c].blocks
  {
    GuardIsExact(s.containers[c].shape, count, s.sizeMax);
    var k := s.containers[c];
    if k.blocks != map[] {
      assert Holds(s, c, k.binding.value, a) ==> Described(s, c, k.binding.value, a);
    }
  }

  /**
   Move assignment: the destination's old storage goes back to its provider, and it takes the source's binding and
   storage over; the source is left without storage.
   */
  lemma MoveAssignLeaves(s: State, c: Cid, d: Cid)
    requires Inv(s) && Next(s, MoveAssign(c, d)).Some?
    ensures var s' := Next(s, MoveAssign(c, d)).value;
            && OnlyTouches(s, s', {c, d}) && c in s'.containers && d in s'.containers
            && s'.containers[c] == s.containers[d] && s'.containers[d] == Emptied(s.containers[d])
            && (forall p: ProviderId, a: Address :: (Holds(s', c, p, a) <==> Holds(s, d, p, a)) && !Holds(s', d, p, a))
            && Frees(s, s', s.containers[c])
  {
    ReleasedLeaves(s, c);
    hide Inv, Deallocated;
  }

  lemma ReleasedLeaves(s: State, c: Cid)
    requires Inv(s) && c in s.containers
    ensures OnlyTouches(s, Deallocated(s, c, s.containers[c].blocks.Keys), {c})
    ensures Frees(s, Deallocated(s, c, s.containers[c].blocks.Keys), s.containers[c])
    ensures c in Deallocated(s, c, s.containers[c].blocks.Keys).containers
  {
    DeallocatedLeaves(s, c, s.containers[c].blocks.Keys);
    forall p: ProviderId ensures LedgerOf(s, p) - {} == LedgerOf(s, p) { }
    hide Inv, Deallocated, LedgerOf;
  }

  /** `swap`: binding and storage change places together. */
  lemma SwapLeaves(s: State, c: Cid, d: Cid)
    requires Inv(s) && Next(s, Swap(c, d)).Some?
    ensures var s' := Next(s, Swap(c, d)).value;
            && OnlyTouches(s, s', {c, d}) && SameLedgers(s, s') && c in s'.containers && d in s'.containers
            && s'.containers[c] == s.containers[d] && s'.containers[d] == s.containers[c]
  {
  }

  lemma DestroyLeaves(s: State, c: Cid)
    requires Inv(s) && Next(s, Destroy(c)).Some?
    ensures var s' := Next(s, Destroy(c)).value;
            OnlyTouches(s, s', {c}) && c !in s'.containers && Frees(s, s', s.containers[c])
  {
    ReleasedLeaves(s, c);
    hide Inv, Deallocated;
  }

  lemma InstallLeaves(s: State, p: ProviderId)
    ensures Next(s, Install(p)) == Some(s.(slot := p))
  {
  }

  /** Which commands are possible: those whose containers exist, and whose provider answers with a free address. */
  lemma EnabledExactly(s: State, m: Command)
    ensures Next(s, m).Some? <==>
              match m
              case Install(_) => true
              case Construct(c, _, _) => c !in s.containers
              case CopyConstruct(c, d) => c !in s.containers && d in s.containers
              case MoveConstruct(c, d) => c !in s.containers && d in s.containers
              case Grow(c, count, answer) => c in s.containers && Answers(s, s.containers[c], count, answer)
              case Shrink(c, a) => c in s.containers && a in s.containers[c].blocks
              case CopyAssign(c, count, answer) => c in s.containers && Answers(s, s.containers[c], count, answer)
              case MoveAssign(c, d) => c in s.containers && d in s.containers && c != d && s.containers[c].shape == s.containers[d].shape
              case Swap(c, d) => c in s.containers && d in s.containers && s.containers[c].shape == s.containers[d].shape
              case Destroy(c) => c in s.containers
  {
    if m.Grow? || m.CopyAssign? {
      if m.c in s.containers { GuardIsExact(s.containers[m.c].shape, m.count, s.sizeMax); }
    }
    hide Deallocated;
  }

  predicate Answers(s: State, k: Container, count: nat, answer: Option<Address>) {
    count * k.shape.size <= s.sizeMax && answer.Some? ==>
      answer.value !in LedgerOf(s, if k.binding.Some? then k.binding.value else s.slot)
  }
}
