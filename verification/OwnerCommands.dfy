/** What each command of `Owners` leaves: in the owners that it names, in the accounts, and in everything else. */
module OwnerCommands {
  import opened Common
  import opened MemoryModel
  import opened Accounts
  import opened Owners

  /** The owner is null, and its deleter is as it was. */
  function Emptied(w: Owners.Owner): Owners.Owner { w.(pointer := None) }

  ghost predicate SameAccounts(s: State, s': State) {
    forall p: ProviderId :: AccountOf(s', p) == AccountOf(s, p)
  }

  /** What remains of an account when the object at `a` is destroyed and its block returned, with nothing amiss. */
  function Without(acc: Account, a: Address): Account {
    Account.Account(acc.ledger - {a}, acc.objects - {a}, acc.taken, acc.returned + 1, acc.misuse)
  }

  /** The object of owner `w` is gone from the account of its provider, and every other account is as it was. */
  ghost predicate Destroys(s: State, s': State, w: Owners.Owner)
    requires w.pointer.Some? ==> Deletes(w) && w.pointer.value >= w.destroy.value.offset
  {
    forall p: ProviderId ::
      AccountOf(s', p) == if w.pointer.Some? && w.provider == Some(p) then Without(AccountOf(s, p), AddressOf(w))
                          else AccountOf(s, p)
  }

  /**
   In every run an owner that is not null holds its object in a block of the captured provider: at the derived address, of
   the size, the alignment and under the policy of the owner's class.
   */
  lemma HeldAsAllocated(slot: ProviderId, ms: seq<Command>, o: Oid)
    requires Run(Init(slot), ms).Some?
    requires o in Run(Init(slot), ms).value.owners && Run(Init(slot), ms).value.owners[o].pointer.Some?
    ensures var s := Run(Init(slot), ms).value;
            var w := s.owners[o];
            && w.provider.Some? && w.destroy.Some? && w.pointer.value >= w.destroy.value.offset
            && var acc, a, shape := AccountOf(s, w.provider.value), w.pointer.value - w.destroy.value.offset, w.destroy.value.shape;
               && a in acc.ledger && a in acc.objects && acc.objects[a] == w.destroy.value
               && acc.ledger[a].bytes == shape.size && acc.ledger[a].alignment == shape.alignment
               && acc.ledger[a].policy == shape.policy
  {
    Conservation(slot, ms);
    var s := Run(Init(slot), ms).value;
    HeldAddress(s, o, s.owners[o].provider.value, AddressOf(s.owners[o]));
    assert Matched(s, o, s.owners[o].provider.value, AddressOf(s.owners[o]));
  }

  lemma ClearedAccountIs(s: State, o: Oid, p: ProviderId)
    requires Inv(s) && o in s.owners
    ensures AccountOf(Cleared(s, o), p) ==
            if s.owners[o].pointer.Some? && s.owners[o].provider == Some(p) then Without(AccountOf(s, p), AddressOf(s.owners[o]))
            else AccountOf(s, p)
  {
    ClearedAccount(s, o, p);
    if s.owners[o].pointer.Some? && s.owners[o].provider == Some(p) {
      assert Holds(s, o, p, AddressOf(s.owners[o])) && Matched(s, o, p, AddressOf(s.owners[o]));
    }
    hide Cleared, AccountOf;
  }

  lemma ClearedDestroys(s: State, o: Oid)
    requires Inv(s) && o in s.owners
    ensures Destroys(s, Cleared(s, o), s.owners[o])
    ensures Cleared(s, o).slot == s.slot && Cleared(s, o).owners == s.owners[o := Emptied(s.owners[o])]
  {
    ClearedOwners(s, o);
    assert Formed(s);
    hide Cleared, Inv, Without, AccountOf;
    forall p: ProviderId
      ensures AccountOf(Cleared(s, o), p) ==
              if s.owners[o].pointer.Some? && s.owners[o].provider == Some(p) then Without(AccountOf(s, p), AddressOf(s.owners[o]))
              else AccountOf(s, p)
    {
      ClearedAccountIs(s, o, p);
    }
  }

  /** `reset()`: the object is destroyed and its block returned, the owner is null, and its deleter stays. */
  lemma ResetLeaves(s: State, o: Oid)
    requires Inv(s) && Next(s, Reset(o)).Some? && o in s.owners
    ensures var s' := Next(s, Reset(o)).value;
            && Destroys(s, s', s.owners[o]) && s'.slot == s.slot
            && s'.owners == s.owners[o := Emptied(s.owners[o])]
  {
    ClearedDestroys(s, o);
    hide Cleared, Inv;
  }

  /** The owner's own end: its object is destroyed and its block returned. */
  lemma DropLeaves(s: State, o: Oid)
    requires Inv(s) && Next(s, Drop(o)).Some? && o in s.owners
    ensures var s' := Next(s, Drop(o)).value;
            Destroys(s, s', s.owners[o]) && s'.slot == s.slot && s'.owners == s.owners - {o}
  {
    ClearedDestroys(s, o);
    hide Cleared, Inv;
    assert Cleared(s, o).owners - {o} == s.owners - {o};
    assert forall p: ProviderId :: AccountOf(Next(s, Drop(o)).value, p) == AccountOf(Cleared(s, o), p);
  }

  /**
   Move assignment: the destination's object is destroyed and its block returned to its own provider; the destination takes
   over pointer, provider and class; the source is null. On the same owner it does nothing.
   */
  lemma MoveAssignLeaves(s: State, o: Oid, q: Oid)
    requires Inv(s) && Next(s, MoveAssign(o, q)).Some? && o in s.owners && q in s.owners
    ensures var s' := Next(s, MoveAssign(o, q)).value;
            if o == q then s' == s
            else
              && Destroys(s, s', s.owners[o]) && s'.slot == s.slot
              && s'.owners == s.owners[o := s.owners[q]][q := Emptied(s.owners[q])]
  {
    if o != q {
      ClearedDestroys(s, o);
      MoveAssignIs(s, o, q);
      hide Next, Cleared, Inv, Without;
    }
  }

  lemma MoveAssignIs(s: State, o: Oid, q: Oid)
    requires o in s.owners && q in s.owners && o != q
    ensures Next(s, MoveAssign(o, q)) ==
            Some(Cleared(s, o).(owners := s.owners[o := s.owners[q]][q := Emptied(s.owners[q])]))
  {
    ClearedOwners(s, o);
    hide Cleared;
    assert s.owners[o := Emptied(s.owners[o])][o := s.owners[q]] == s.owners[o := s.owners[q]];
  }

  /** Moves and swaps of owners touch no account. */
  lemma HandOversLeave(s: State, o: Oid, q: Oid)
    ensures Next(s, MoveConstruct(o, q)).Some? ==>
              var s' := Next(s, MoveConstruct(o, q)).value;
              && SameAccounts(s, s') && s'.slot == s.slot && o !in s.owners && q in s.owners
              && s'.owners == s.owners[o := s.owners[q]][q := Emptied(s.owners[q])]
    ensures Next(s, Swap(o, q)).Some? ==>
              var s' := Next(s, Swap(o, q)).value;
              && SameAccounts(s, s') && s'.slot == s.slot && o in s.owners && q in s.owners
              && s'.owners == s.owners[o := s.owners[q]][q := s.owners[o]]
  {
  }

  lemma EmptyLeaves(s: State, o: Oid, provider: Option<ProviderId>, destroy: Option<Class>)
    ensures Next(s, Empty(o, provider, destroy)).Some? <==> o !in s.owners
    ensures o !in s.owners ==>
              var s' := Next(s, Empty(o, provider, destroy)).value;
              s' == s.(owners := s.owners[o := Accounts.Owner(None, provider, destroy)])
  {
  }

  /**
   `MakeUnique` and `MakePolymorphicUnique`: a success takes one block of the class's size, alignment and policy from the
   installed provider, with the object in it, and yields its base pointer with that provider and class. A constructor that
   throws leaves one call of each kind and nothing else; a provider that throws leaves nothing.
   */
  lemma MakeLeaves(s: State, o: Oid, k: Class, answer: Option<Address>, throws: bool)
    requires Inv(s) && Next(s, Make(o, k, answer, throws)).Some?
    ensures var s' := Next(s, Make(o, k, answer, throws)).value;
            && s'.slot == s.slot && o !in s.owners
            && (forall p: ProviderId :: p != s.slot ==> AccountOf(s', p) == AccountOf(s, p))
            && var acc := AccountOf(s, s.slot);
               && (answer.None? ==> s' == s)
               && (answer.Some? && throws ==>
                     && s'.owners == s.owners
                     && AccountOf(s', s.slot) == acc.(taken := acc.taken + 1, returned := acc.returned + 1))
               && (answer.Some? && !throws ==>
                     && s'.owners == s.owners[o := Accounts.Owner(Some(answer.value + k.offset), Some(s.slot), Some(k))]
                     && AccountOf(s', s.slot) ==
                        acc.(ledger := acc.ledger[answer.value := Block(k.shape.size, k.shape.alignment, k.shape.policy)],
                             objects := acc.objects[answer.value := k],
                             taken := acc.taken + 1))
  {
    assert WellKept(AccountOf(s, s.slot));
    MadeOwners(s, o, k, answer, throws);
    forall p: ProviderId
      ensures AccountOf(Made(s, o, k, answer, throws).value, p) ==
              if answer.Some? && p == s.slot then MakeIn(AccountOf(s, p), k, answer.value, throws) else AccountOf(s, p)
      ensures answer.Some? ==> answer.value !in AccountOf(s, s.slot).ledger
    {
      MadeAccountOf(s, o, k, answer, throws, p);
    }
    if answer.Some? { MakeKeeps(AccountOf(s, s.slot), k, answer.value, throws); }
    NextSlot(s, Make(o, k, answer, throws));
    hide Inv, WellKept, AccountOf;
  }

  /** Which commands are possible: those whose owners exist, or do not yet, and whose provider answers with a free address. */
  lemma EnabledExactly(s: State, m: Command)
    ensures Next(s, m).Some? <==>
              match m
              case Install(_) => true
              case Empty(o, _, _) => o !in s.owners
              case Make(o, _, answer, _) => o !in s.owners && (answer.Some? ==> answer.value !in AccountOf(s, s.slot).ledger)
              case MoveConstruct(o, q) => o !in s.owners && q in s.owners
              case MoveAssign(o, q) => o in s.owners && q in s.owners
              case Swap(o, q) => o in s.owners && q in s.owners
              case Reset(o) => o in s.owners
              case Drop(o) => o in s.owners
  {
    hide Cleared, MakeIn;
  }
}
