/**
 Allocators that are copied, rebound and compared while the provider slot changes: when a block that one allocator
 allocated may be freed through another.
 */
module Pairing {
  import opened Common
  import opened MemoryModel

  type Aid = nat
  type BlockId = nat

  datatype State = State(
    slot: ProviderId,
    bindings: map<Aid, Option<ProviderId>>,   // the allocators that exist
    origin: map<BlockId, ProviderId>)         // the provider each block came from

  datatype Event =
    | Install(provider: ProviderId)
    | Default(a: Aid)                  // Allocator()
    | Bound(a: Aid, provider: ProviderId) // Allocator(provider)
    | Copy(a: Aid, source: Aid)        // copy or rebind
    | Allocate(a: Aid, block: BlockId)

  function Next(s: State, e: Event): Option<State> {
    match e
    case Install(p) => Some(s.(slot := p))
    case Default(a) => if a in s.bindings then None else Some(s.(bindings := s.bindings[a := None]))
    case Bound(a, p) => if a in s.bindings then None else Some(s.(bindings := s.bindings[a := Some(p)]))
    case Copy(a, b) =>
      if a in s.bindings || b !in s.bindings then None else Some(s.(bindings := s.bindings[a := s.bindings[b]]))
    case Allocate(a, block) =>
      if a !in s.bindings || block in s.origin then None else
      var p := Effective(s.bindings[a], s.slot);
      Some(s.(bindings := s.bindings[a := Some(p)], origin := s.origin[block := p]))
  }

  function Run(s: State, es: seq<Event>): Option<State> {
    if es == [] then Some(s)
    else
      match Run(s, es[..|es| - 1])
      case None => None
      case Some(s1) => Next(s1, es[|es| - 1])
  }

  /** `deallocate` through `a` now returns the block to the provider that it came from. */
  predicate Pairs(s: State, a: Aid, block: BlockId)
    requires a in s.bindings && block in s.origin
  {
    Effective(s.bindings[a], s.slot) == s.origin[block]
  }

  lemma {:induction false} BindingLasts(s: State, es: seq<Event>, a: Aid)
    requires Run(s, es).Some? && a in s.bindings
    ensures a in Run(s, es).value.bindings
    ensures s.bindings[a].Some? ==> Run(s, es).value.bindings[a] == s.bindings[a]
  {
    if es != [] { BindingLasts(s, es[..|es| - 1], a); }
  }

  /** A binding, once made, and the origin of a block never change. */
  lemma {:induction false} BindingsLast(s: State, es: seq<Event>, a: Aid, block: BlockId)
    requires Run(s, es).Some? && a in s.bindings && block in s.origin
    ensures var s' := Run(s, es).value;
            && a in s'.bindings && block in s'.origin && s'.origin[block] == s.origin[block]
            && (s.bindings[a].Some? ==> s'.bindings[a] == s.bindings[a])
  {
    BindingLasts(s, es, a);
    if es != [] { BindingsLast(s, es[..|es| - 1], a, block); }
  }

  /** The block can be freed through `a` at any time to come. */
  ghost predicate PairsForever(s: State, a: Aid, block: BlockId)
    requires a in s.bindings && block in s.origin
  {
    forall es :: Run(s, es).Some? ==>
      a in Run(s, es).value.bindings && block in Run(s, es).value.origin && Pairs(Run(s, es).value, a, block)
  }

  lemma RunOne(s: State, e: Event)
    ensures Run(s, [e]) == Next(s, e)
  {
    assert [e][..0] == [];
    assert Run(s, []) == Some(s);
  }

  /**
   The exact condition: a block returns to its provider through allocator `a` in every continuation if and only if `a`
   carries that provider's binding.
   */
  lemma PairsExactlyWhenBound(s: State, a: Aid, block: BlockId)
    requires a in s.bindings && block in s.origin
    ensures PairsForever(s, a, block) <==> s.bindings[a] == Some(s.origin[block])
  {
    if s.bindings[a] == Some(s.origin[block]) {
      forall es | Run(s, es).Some?
        ensures a in Run(s, es).value.bindings && block in Run(s, es).value.origin && Pairs(Run(s, es).value, a, block)
      {
        BindingsLast(s, es, a, block);
      }
    } else {
      var es := [Install(s.origin[block] + 1)];
      RunOne(s, es[0]);
      assert !Pairs(Run(s, es).value, a, block);
    }
  }

  /**
   The effective provider of an allocator is the same in every continuation if and only if the allocator is bound: that is
   what `IsProviderBound` says about `Provider`.
   */
  lemma ProviderIsFixedExactlyWhenBound(s: State, a: Aid)
    requires a in s.bindings
    ensures (forall es :: Run(s, es).Some? ==>
               a in Run(s, es).value.bindings &&
               Effective(Run(s, es).value.bindings[a], Run(s, es).value.slot) == Effective(s.bindings[a], s.slot))
            <==> s.bindings[a].Some?
  {
    if s.bindings[a].Some? {
      forall es | Run(s, es).Some? ensures a in Run(s, es).value.bindings && Run(s, es).value.bindings[a] == s.bindings[a] {
        BindingLasts(s, es, a);
      }
    } else {
      var es := [Install(s.slot + 1)];
      RunOne(s, es[0]);
      assert Effective(Run(s, es).value.bindings[a], Run(s, es).value.slot) != Effective(s.bindings[a], s.slot);
    }
  }

  // ------------------------------------------------------- copies taken while unbound

  function Installs(ps: seq<ProviderId>): seq<Event> {
    seq(|ps|, i requires 0 <= i < |ps| => Install(ps[i]))
  }

  lemma {:induction false} InstallsOnlySetSlot(s: State, es: seq<Event>, ps: seq<ProviderId>)
    requires Run(s, es).Some?
    ensures Run(s, es + Installs(ps)) == Some(Run(s, es).value.(slot := LastOr(ps, Run(s, es).value.slot)))
  {
    if ps == [] {
      assert es + Installs(ps) == es;
    } else {
      var most := ps[..|ps| - 1];
      InstallsOnlySetSlot(s, es, most);
      assert (es + Installs(ps))[..|es + Installs(ps)| - 1] == es + Installs(most);
    }
  }

  lemma RunSnoc(s: State, es: seq<Event>, e: Event)
    requires Run(s, es).Some?
    ensures Run(s, es + [e]) == Next(Run(s, es).value, e)
  {
    assert (es + [e])[..|es|] == es;
  }

  /** The provider of the last installation among the events, or `slot` when there is none. */
  function LastInstalled(es: seq<Event>, slot: ProviderId): ProviderId {
    if es == [] then slot
    else if es[|es| - 1].Install? then es[|es| - 1].provider
    else LastInstalled(es[..|es| - 1], slot)
  }

  /** Installations, and nothing else, decide what an unbound allocator finds. */
  lemma {:induction false} SlotIsLastInstalled(s: State, es: seq<Event>)
    requires Run(s, es).Some?
    ensures Run(s, es).value.slot == LastInstalled(es, s.slot)
  {
    if es != [] { SlotIsLastInstalled(s, es[..|es| - 1]); }
  }

  /** The slot at the first allocation through `a` in the run; `None` before that. */
  function FirstSlot(s: State, es: seq<Event>, a: Aid): Option<ProviderId>
    requires Run(s, es).Some?
  {
    if es == [] then None
    else
      var before, e := es[..|es| - 1], es[|es| - 1];
      match FirstSlot(s, before, a)
      case Some(p) => Some(p)
      case None => if e.Allocate? && e.a == a then Some(Run(s, before).value.slot) else None
  }

  /** An allocator that starts unbound is bound to the provider installed at its first allocation, if it has made one. */
  lemma {:induction false} BoundAtFirstAllocation(s: State, es: seq<Event>, a: Aid)
    requires Run(s, es).Some? && a in s.bindings && s.bindings[a].None?
    ensures a in Run(s, es).value.bindings && Run(s, es).value.bindings[a] == FirstSlot(s, es, a)
  {
    if es != [] { BoundAtFirstAllocation(s, es[..|es| - 1], a); }
  }

  /** A block that `a` allocated came from the provider to which `a` is bound ever since. */
  lemma {:induction false} OriginIsBinding(s: State, es: seq<Event>, a: Aid, block: BlockId)
    requires Run(s, es).Some? && Allocate(a, block) in es
    ensures var s' := Run(s, es).value;
            a in s'.bindings && block in s'.origin && s'.bindings[a] == Some(s'.origin[block])
  {
    var before, e := es[..|es| - 1], es[|es| - 1];
    if e != Allocate(a, block) {
      assert es == before + [e];
      OriginIsBinding(s, before, a, block);
    }
  }

  /** Construction: unbound by default, bound to an explicit provider, and as the source is when copied or rebound. */
  lemma ConstructionBinds(s: State, a: Aid, b: Aid, p: ProviderId)
    ensures a !in s.bindings ==> Next(s, Default(a)) == Some(s.(bindings := s.bindings[a := None]))
    ensures a !in s.bindings ==> Next(s, Bound(a, p)) == Some(s.(bindings := s.bindings[a := Some(p)]))
    ensures a !in s.bindings && b in s.bindings ==>
              Next(s, Copy(a, b)) == Some(s.(bindings := s.bindings[a := s.bindings[b]]))
    ensures a in s.bindings ==> Next(s, Default(a)).None? && Next(s, Bound(a, p)).None? && Next(s, Copy(a, b)).None?
  {
  }

  /** `allocate` is possible for every allocator, and binds an unbound one to the installed provider, and no other. */
  lemma AllocationBinds(s: State, a: Aid, block: BlockId)
    requires a in s.bindings && block !in s.origin
    ensures Next(s, Allocate(a, block)).Some?
    ensures var s', p := Next(s, Allocate(a, block)).value, if s.bindings[a].Some? then s.bindings[a].value else s.slot;
            s' == s.(bindings := s.bindings[a := Some(p)], origin := s.origin[block := p])
  {
  }

  /** Any two allocators that are unbound in some state, whatever happens to them from there on. */
  lemma UnboundPairs(s: State, es: seq<Event>, a: Aid, b: Aid, block: BlockId)
    requires a in s.bindings && b in s.bindings && s.bindings[a].None? && s.bindings[b].None?
    requires Run(s, es).Some? && Allocate(a, block) in es
    ensures var s' := Run(s, es).value;
            && b in s'.bindings && block in s'.origin && FirstSlot(s, es, a) == Some(s'.origin[block])
            && (Pairs(s', b, block) <==> FirstSlot(s, es, a).value == Effective(FirstSlot(s, es, b), s'.slot))
  {
    OriginIsBinding(s, es, a, block);
    BoundAtFirstAllocation(s, es, a);
    BoundAtFirstAllocation(s, es, b);
  }

  /**
   The exact condition for a copy taken while unbound, in every run. A block that one of the two allocators (`a`)
   allocated is freed to its provider by the other (`b`) if and only if the slot at the first allocation through `a` is the
   slot at the first allocation through `b`, or, while `b` has made none, the slot at the free. A bound source and its copy
   always pair.
   */
  lemma CopyPairsInEveryRun(s: State, x: Aid, y: Aid, es: seq<Event>, a: Aid, b: Aid, block: BlockId)
    requires x in s.bindings && y !in s.bindings && {a, b} == {x, y}
    requires Run(Next(s, Copy(y, x)).value, es).Some? && Allocate(a, block) in es
    ensures var s1 := Next(s, Copy(y, x)).value;
            var s' := Run(s1, es).value;
            && b in s'.bindings && block in s'.origin
            && (s.bindings[x].Some? ==> Pairs(s', b, block))
            && (s.bindings[x].None? ==>
                  && FirstSlot(s1, es, a).Some?
                  && (Pairs(s', b, block) <==>
                        FirstSlot(s1, es, a).value == Effective(FirstSlot(s1, es, b), s'.slot)))
  {
    var s1 := Next(s, Copy(y, x)).value;
    assert a in {x, y} && b in {x, y} && x in {a, b};
    if s.bindings[x].None? {
      UnboundPairs(s1, es, a, b, block);
    } else {
      OriginIsBinding(s1, es, a, block);
      BindingLasts(s1, es, a);
      BindingLasts(s1, es, b);
    }
  }

  /**
   The plain case: whatever is installed between the copy and the source's first allocation (`before`) and between that
   and the free (`after`), freeing through the copy is right if and only if the source was bound when it was copied, or the
   slot at the free is what it was at the allocation.
   */
  lemma CopyPairs(s: State, x: Aid, y: Aid, block: BlockId, before: seq<ProviderId>, after: seq<ProviderId>)
    requires x in s.bindings && y !in s.bindings && block !in s.origin
    ensures var es := [Copy(y, x)] + Installs(before) + [Allocate(x, block)] + Installs(after);
            var slotAtAllocation := LastOr(before, s.slot);
            var slotAtFree := LastOr(after, slotAtAllocation);
            && Run(s, es).Some? && y in Run(s, es).value.bindings && block in Run(s, es).value.origin
            && (Pairs(Run(s, es).value, y, block) <==> s.bindings[x].Some? || slotAtFree == slotAtAllocation)
  {
    RunOne(s, Copy(y, x));
    InstallsOnlySetSlot(s, [Copy(y, x)], before);
    RunSnoc(s, [Copy(y, x)] + Installs(before), Allocate(x, block));
    InstallsOnlySetSlot(s, [Copy(y, x)] + Installs(before) + [Allocate(x, block)], after);
  }

  /** A run in which the unbound copy frees to the wrong provider: allocated while 0 is installed, freed under 1. */
  lemma UnboundCopyMispairs()
    ensures var s := State(0, map[0 := None], map[]);
            var es := [Copy(1, 0), Allocate(0, 0), Install(1)];
            && Run(s, es).Some? && 1 in Run(s, es).value.bindings && 0 in Run(s, es).value.origin
            && !Pairs(Run(s, es).value, 1, 0)
  {
    var s := State(0, map[0 := None], map[]);
    CopyPairs(s, 0, 1, 0, [], [1]);
    assert [Copy(1, 0)] + Installs([]) + [Allocate(0, 0)] + Installs([1]) == [Copy(1, 0), Allocate(0, 0), Install(1)];
  }

  function Then(s: Option<State>, e: Event): Option<State> {
    if s.None? then None else Next(s.value, e)
  }

  lemma RunFour(s: State, e1: Event, e2: Event, e3: Event, e4: Event)
    ensures Run(s, [e1, e2, e3, e4]) == Then(Then(Then(Next(s, e1), e2), e3), e4)
  {
    RunOne(s, e1);
    assert [e1, e2][..1] == [e1] && Run(s, [e1, e2]) == Then(Next(s, e1), e2);
    assert [e1, e2, e3][..2] == [e1, e2] && Run(s, [e1, e2, e3]) == Then(Run(s, [e1, e2]), e3);
    assert [e1, e2, e3, e4][..3] == [e1, e2, e3];
  }

  /**
   It is the first allocations that decide, not that of the block. In the first run the slot at the free is the slot at
   which block 1 was allocated, and the copy frees it to the wrong provider; in the second the two slots differ, and the
   copy, which has bound itself, frees it to the right one.
   */
  lemma FirstAllocationsDecide()
    ensures var s := State(0, map[0 := None], map[]);
            var e1 := [Copy(1, 0), Allocate(0, 0), Install(1), Allocate(0, 1)];
            var e2 := [Copy(1, 0), Allocate(1, 0), Allocate(0, 1), Install(1)];
            && Run(s, e1).Some? && 1 in Run(s, e1).value.bindings && 1 in Run(s, e1).value.origin
            && !Pairs(Run(s, e1).value, 1, 1)
            && Run(s, e2).Some? && 1 in Run(s, e2).value.bindings && 1 in Run(s, e2).value.origin
            && Pairs(Run(s, e2).value, 1, 1)
  {
    var s := State(0, map[0 := None], map[]);
    RunFour(s, Copy(1, 0), Allocate(0, 0), Install(1), Allocate(0, 1));
    RunFour(s, Copy(1, 0), Allocate(1, 0), Allocate(0, 1), Install(1));
  }

  /**
   `MakeShared` hands an unbound allocator to `std::allocate_shared`, which allocates through a rebound copy and frees
   through the allocator that the control block keeps. If that is a copy of the one that allocated, the block always
   returns to its provider; if it is a copy of the one handed over, exactly when the slot is then what it was.
   */
  lemma MakeSharedPairs(s: State, given: Aid, rebound: Aid, kept: Aid, block: BlockId, keepsAllocating: bool,
                        after: seq<ProviderId>)
    requires given !in s.bindings && rebound !in s.bindings && kept !in s.bindings && block !in s.origin
    requires given != rebound && given != kept && rebound != kept
    ensures var es := [Default(given), Copy(rebound, given), Allocate(rebound, block),
                       Copy(kept, if keepsAllocating then rebound else given)];
            && Run(s, es).Some? && kept in Run(s, es).value.bindings && block in Run(s, es).value.origin
            && (PairsForever(Run(s, es).value, kept, block) <==> keepsAllocating)
            && Run(s, es + Installs(after)).Some?
            && kept in Run(s, es + Installs(after)).value.bindings && block in Run(s, es + Installs(after)).value.origin
            && (Pairs(Run(s, es + Installs(after)).value, kept, block) <==> keepsAllocating || LastOr(after, s.slot) == s.slot)
  {
    var e1, e2, e3, e4 := Default(given), Copy(rebound, given), Allocate(rebound, block),
                          Copy(kept, if keepsAllocating then rebound else given);
    RunFour(s, e1, e2, e3, e4);
    PairsExactlyWhenBound(Run(s, [e1, e2, e3, e4]).value, kept, block);
    InstallsOnlySetSlot(s, [e1, e2, e3, e4], after);
  }

  // ----------------------------------------------------------------- equality

  /** `a == b`: two reads of the effective provider, under the slots `s1` and `s2`. */
  predicate Equal<P(==)>(a: Option<P>, b: Option<P>, s1: P, s2: P) {
    Effective(a, s1) == Effective(b, s2)
  }

  /** The comparison at one instant. */
  predicate Same(s: State, a: Aid, b: Aid)
    requires a in s.bindings && b in s.bindings
  {
    Equal(s.bindings[a], s.bindings[b], s.slot, s.slot)
  }

  /** In each fixed slot state `==` is an equivalence. */
  lemma SameIsEquivalence(s: State, a: Aid, b: Aid, c: Aid)
    requires a in s.bindings && b in s.bindings && c in s.bindings
    ensures Same(s, a, a)
    ensures Same(s, a, b) <==> Same(s, b, a)
    ensures Same(s, a, b) && Same(s, b, c) ==> Same(s, a, c)
  {
  }

  /** Equality is sound for exchange: what `a` allocated, an equal `b` frees to the right provider. */
  lemma EqualFreesRight(s0: State, before: seq<Event>, a: Aid, b: Aid, block: BlockId, between: seq<Event>)
    requires Run(s0, before).Some? && Next(Run(s0, before).value, Allocate(a, block)).Some?
    requires Run(Next(Run(s0, before).value, Allocate(a, block)).value, between).Some?
    requires b in Run(Next(Run(s0, before).value, Allocate(a, block)).value, between).value.bindings
    ensures var s := Run(Next(Run(s0, before).value, Allocate(a, block)).value, between).value;
            && a in s.bindings && block in s.origin
            && (Same(s, a, b) <==> Pairs(s, b, block))
  {
    BindingsLast(Next(Run(s0, before).value, Allocate(a, block)).value, between, a, block);
  }

  /** The answer survives every later installation if and only if both allocators are bound, or neither is. */
  lemma EqualitySurvives(s: State, a: Aid, b: Aid)
    requires a in s.bindings && b in s.bindings
    ensures (forall ps :: Run(s, Installs(ps)).Some? &&
                          a in Run(s, Installs(ps)).value.bindings && b in Run(s, Installs(ps)).value.bindings &&
                          (Same(Run(s, Installs(ps)).value, a, b) <==> Same(s, a, b)))
            <==> (s.bindings[a].Some? <==> s.bindings[b].Some?)
  {
    forall ps ensures Run(s, Installs(ps)) == Some(s.(slot := LastOr(ps, s.slot))) {
      InstallsOnlySetSlot(s, [], ps);
      assert [] + Installs(ps) == Installs(ps);
    }
    if s.bindings[a].Some? != s.bindings[b].Some? {
      var p := if s.bindings[a].Some? then s.bindings[a].value else s.bindings[b].value;
      var ps := [if Same(s, a, b) then p + 1 else p];
      assert Run(s, Installs(ps)) == Some(s.(slot := ps[0]));
    }
  }

  /**
   The comparison reads the slot once for each unbound side. A slot change between the reads alters the answer only when
   both sides are unbound: then it is whether the slot was the same, and otherwise it is the answer of one instant.
   */
  lemma TornComparison<P>(a: Option<P>, b: Option<P>, s1: P, s2: P)
    ensures a.None? && b.None? ==> (Equal(a, b, s1, s2) <==> s1 == s2) && Equal(a, b, s1, s1) && Equal(a, b, s2, s2)
    ensures a.Some? ==> (Equal(a, b, s1, s2) <==> Equal(a, b, s2, s2))
    ensures b.Some? ==> (Equal(a, b, s1, s2) <==> Equal(a, b, s1, s1))
  {
  }
}
