/**
 Unique owners whose deleters captured a provider: `MakeUnique` and `MakePolymorphicUnique`, constructors that throw, moves,
 resets and swaps of owners, and a provider slot that changes at any time.

 A plain `UniquePtr` is the case in which base and object coincide (offset 0).
 */
module Owners {
  import opened Common
  import opened MemoryModel
  import opened Accounts

  type Oid = nat

  type Owner = Accounts.Owner<ProviderId>

  datatype State = State(
    slot: ProviderId,
    accounts: map<ProviderId, Account>,
    owners: map<Oid, Owner>)

  datatype Command =
    | Install(installed: ProviderId)
    | Empty(o: Oid, provider: Option<ProviderId>, destroy: Option<Class>) // null owner, with any deleter
    | Make(o: Oid, class_: Class, answer: Option<Address>, throws: bool)
    | MoveConstruct(o: Oid, source: Oid)
    | MoveAssign(o: Oid, source: Oid)
    | Swap(o: Oid, source: Oid)
    | Reset(o: Oid)
    | Drop(o: Oid)

  function Init(slot: ProviderId): State { State(slot, map[], map[]) }

  function AccountOf(s: State, p: ProviderId): Account { if p in s.accounts then s.accounts[p] else OPENED }

  /** The deleter's call on the owner's pointer: back to the derived pointer, and the object destroyed there. */
  function Delete(s: State, w: Owner): State {
    if !Deletes(w) then s else
    var p, derived := w.provider.value, w.pointer.value - w.destroy.value.offset;
    s.(accounts := s.accounts[p := if derived < 0 then AccountOf(s, p).(misuse := true)
                                   else DestroyIn(AccountOf(s, p), derived, w.destroy.value)])
  }

  /** `reset()`: the deleter's call on the old pointer, and the owner is null; its deleter stays. */
  function Cleared(s: State, o: Oid): State
    requires o in s.owners
  {
    var s1 := Delete(s, s.owners[o]);
    s1.(owners := s1.owners[o := s1.owners[o].(pointer := None)])
  }

  /** The provider is captured first; storage follows, which may fail; then construction, which may throw. */
  function Made(s: State, o: Oid, k: Class, answer: Option<Address>, throws: bool): Option<State> {
    var p := s.slot;
    if o in s.owners then None else
    match answer
    case None => Some(s)
    case Some(a) =>
      if a in AccountOf(s, p).ledger then None else
      var s1 := s.(accounts := s.accounts[p := MakeIn(AccountOf(s, p), k, a, throws)]);
      Some(if throws then s1 else s1.(owners := s1.owners[o := Accounts.Owner(Some(a + k.offset), Some(p), Some(k))]))
  }

  function Next(s: State, m: Command): Option<State> {
    match m
    case Install(p) => Some(s.(slot := p))
    case Empty(o, p, k) => if o in s.owners then None else Some(s.(owners := s.owners[o := Accounts.Owner(None, p, k)]))
    case Make(o, k, answer, throws) => Made(s, o, k, answer, throws)
    case MoveConstruct(o, q) =>
      if o in s.owners || q !in s.owners then None else
      Some(s.(owners := s.owners[o := s.owners[q]][q := s.owners[q].(pointer := None)]))
    case MoveAssign(o, q) => // reset(q.release()), with the old deleter; then the deleter of q
      if o !in s.owners || q !in s.owners then None else
      if o == q then Some(s) else
      var s1 := Cleared(s, o);
      Some(s1.(owners := s1.owners[o := s1.owners[q]][q := s1.owners[q].(pointer := None)]))
    case Swap(o, q) =>
      if o !in s.owners || q !in s.owners then None else
      Some(s.(owners := s.owners[o := s.owners[q]][q := s.owners[o]]))
    case Reset(o) =>
      if o !in s.owners then None else Some(Cleared(s, o))
    case Drop(o) =>
      if o !in s.owners then None else
      Some(Cleared(s, o).(owners := Cleared(s, o).owners - {o}))
  }

  function Run(s: State, ms: seq<Command>): Option<State> {
    if ms == [] then Some(s)
    else
      match Run(s, ms[..|ms| - 1])
      case None => None
      case Some(s1) => Next(s1, ms[|ms| - 1])
  }

  // ---------------------------------------------------------------- invariant

  /** Owner `o` holds the block at `a` of provider `p`. */
  predicate Holds(s: State, o: Oid, p: ProviderId, a: Address) {
    && o in s.owners && Deletes(s.owners[o]) && s.owners[o].provider == Some(p)
    && s.owners[o].pointer.value == a + s.owners[o].destroy.value.offset
  }

  /** Every owner that is not null knows the provider and the class of its object. */
  ghost predicate Formed(s: State) {
    forall o :: o in s.owners && s.owners[o].pointer.Some? ==>
      Deletes(s.owners[o]) && s.owners[o].pointer.value >= s.owners[o].destroy.value.offset
  }

  /** What an owner holds is an object of its class, in a block that its provider knows under that class. */
  predicate Matched(s: State, o: Oid, p: ProviderId, a: Address)
    requires Holds(s, o, p, a)
  {
    Keeps(AccountOf(s, p), a, s.owners[o].destroy.value)
  }

  ghost predicate HeldOnce(s: State) {
    forall o: Oid, q: Oid, p: ProviderId, a: Address :: Holds(s, o, p, a) && Holds(s, q, p, a) ==> o == q
  }

  ghost predicate AllHeld(s: State) {
    forall p: ProviderId, a: Address :: a in AccountOf(s, p).ledger ==> exists o: Oid :: Holds(s, o, p, a)
  }

  ghost predicate Inv(s: State) {
    && Formed(s) && HeldOnce(s) && AllHeld(s)
    && (forall p: ProviderId :: WellKept(AccountOf(s, p)))
    && (forall o: Oid, p: ProviderId, a: Address :: Holds(s, o, p, a) ==> Matched(s, o, p, a))
  }

  /** Where the object of an owner lies. */
  function AddressOf(w: Owner): Address
    requires Deletes(w) && w.pointer.value >= w.destroy.value.offset
  {
    w.pointer.value - w.destroy.value.offset
  }

  lemma ClearedOwners(s: State, o: Oid)
    requires o in s.owners
    ensures Cleared(s, o).owners == s.owners[o := s.owners[o].(pointer := None)]
    ensures Cleared(s, o).slot == s.slot
  {
  }

  lemma HeldAddress(s: State, o: Oid, q: ProviderId, a: Address)
    requires Formed(s) && o in s.owners
    ensures Holds(s, o, q, a) <==>
              s.owners[o].pointer.Some? && Some(q) == s.owners[o].provider && a == AddressOf(s.owners[o])
  {
  }

  /** Clearing destroys the one object, at the derived address and as its own class, in the account it came from. */
  lemma ClearedAccount(s: State, o: Oid, q: ProviderId)
    requires Formed(s) && o in s.owners
    ensures AccountOf(Cleared(s, o), q) ==
              if s.owners[o].pointer.Some? && s.owners[o].provider == Some(q)
              then DestroyIn(AccountOf(s, q), AddressOf(s.owners[o]), s.owners[o].destroy.value)
              else AccountOf(s, q)
  {
    hide DestroyIn;
  }

  lemma ClearedKept(s: State, o: Oid, q: ProviderId)
    requires Inv(s) && o in s.owners
    ensures var s' := Cleared(s, o);
            && WellKept(AccountOf(s', q))
            && (forall a: Address :: a in AccountOf(s', q).ledger <==> a in AccountOf(s, q).ledger && !Holds(s, o, q, a))
            && (forall a: Address, k :: Keeps(AccountOf(s, q), a, k) && !Holds(s, o, q, a) ==> Keeps(AccountOf(s', q), a, k))
  {
    ClearedAccount(s, o, q);
    assert WellKept(AccountOf(s, q));
    forall a: Address ensures Holds(s, o, q, a) <==>
        s.owners[o].pointer.Some? && Some(q) == s.owners[o].provider && a == AddressOf(s.owners[o]) {
      HeldAddress(s, o, q, a);
    }
    if s.owners[o].pointer.Some? && s.owners[o].provider == Some(q) {
      var b := AddressOf(s.owners[o]);
      assert Holds(s, o, q, b) && Matched(s, o, q, b);
      DestroyKeeps(AccountOf(s, q), b, s.owners[o].destroy.value);
    }
    hide Inv, Cleared, DestroyIn, WellKept, AccountOf, Holds;
  }

  lemma ClearedHolds(s: State, o: Oid, d: Oid, q: ProviderId, a: Address)
    requires Inv(s) && o in s.owners
    ensures var s' := Cleared(s, o);
            && WellKept(AccountOf(s', q))
            && (Holds(s', d, q, a) <==> Holds(s, d, q, a) && d != o)
            && (a in AccountOf(s', q).ledger <==> a in AccountOf(s, q).ledger && !Holds(s, o, q, a))
            && (Holds(s', d, q, a) ==> Matched(s', d, q, a))
  {
    ClearedOwners(s, o);
    ClearedKept(s, o, q);
    assert Holds(s, d, q, a) && Holds(s, o, q, a) ==> d == o;
    if Holds(s, d, q, a) { assert Matched(s, d, q, a); }
    hide Inv, Cleared, WellKept, AccountOf, Keeps;
  }

  lemma ClearedInv(s: State, o: Oid)
    requires Inv(s) && o in s.owners
    ensures Inv(Cleared(s, o))
  {
    var s' := Cleared(s, o);
    ClearedOwners(s, o);
    hide Cleared, Holds, Matched, WellKept;
    forall d: Oid, q: ProviderId, a: Address | Holds(s', d, q, a) ensures Matched(s', d, q, a) {
      ClearedHolds(s, o, d, q, a);
    }
    forall d: Oid, e: Oid, q: ProviderId, a: Address | Holds(s', d, q, a) && Holds(s', e, q, a) ensures d == e {
      ClearedHolds(s, o, d, q, a);
      ClearedHolds(s, o, e, q, a);
    }
    forall q: ProviderId, a: Address | a in AccountOf(s', q).ledger ensures exists d: Oid :: Holds(s', d, q, a) {
      ClearedHolds(s, o, o, q, a);
      var d: Oid :| Holds(s, d, q, a);
      ClearedHolds(s, o, d, q, a);
    }
    forall q: ProviderId ensures WellKept(AccountOf(s', q)) {
      ClearedHolds(s, o, o, q, 0);
    }
  }

  lemma MadeAccountOf(s: State, o: Oid, k: Class, answer: Option<Address>, throws: bool, q: ProviderId)
    requires Made(s, o, k, answer, throws).Some?
    ensures AccountOf(Made(s, o, k, answer, throws).value, q) ==
            if answer.Some? && q == s.slot then MakeIn(AccountOf(s, q), k, answer.value, throws) else AccountOf(s, q)
    ensures answer.Some? ==> answer.value !in AccountOf(s, s.slot).ledger
  {
    hide MakeIn;
  }

  /** What a construction does to the accounts: one block with its object for the captured provider, or nothing that stays. */
  lemma MadeAccount(s: State, o: Oid, k: Class, answer: Option<Address>, throws: bool, q: ProviderId)
    requires Made(s, o, k, answer, throws).Some? && WellKept(AccountOf(s, q))
    ensures var s' := Made(s, o, k, answer, throws).value;
            && WellKept(AccountOf(s', q))
            && if answer.Some? && q == s.slot && !throws then
                 && answer.value !in AccountOf(s, q).ledger && Keeps(AccountOf(s', q), answer.value, k)
                 && AccountOf(s', q).ledger.Keys == AccountOf(s, q).ledger.Keys + {answer.value}
                 && forall a: Address, c :: Keeps(AccountOf(s, q), a, c) ==> Keeps(AccountOf(s', q), a, c)
               else
                 && AccountOf(s', q).ledger == AccountOf(s, q).ledger && AccountOf(s', q).objects == AccountOf(s, q).objects
  {
    MadeAccountOf(s, o, k, answer, throws, q);
    hide Made, AccountOf, WellKept;
    if answer.Some? && q == s.slot { MakeKeeps(AccountOf(s, q), k, answer.value, throws); }
  }

  lemma MadeOwners(s: State, o: Oid, k: Class, answer: Option<Address>, throws: bool)
    requires Made(s, o, k, answer, throws).Some?
    ensures o !in s.owners
    ensures Made(s, o, k, answer, throws).value.owners ==
            if answer.Some? && !throws then
              s.owners[o := Accounts.Owner(Some(answer.value + k.offset), Some(s.slot), Some(k))]
            else s.owners
  {
    hide MakeIn;
  }

  lemma MadeHolder(s: State, o: Oid, k: Class, answer: Option<Address>, throws: bool, d: Oid, q: ProviderId, a: Address)
    requires Made(s, o, k, answer, throws).Some?
    ensures var s', made := Made(s, o, k, answer, throws).value, answer == Some(a) && q == s.slot && !throws;
            && (Holds(s', d, q, a) <==> Holds(s, d, q, a) || (made && d == o))
            && (Holds(s', d, q, a) ==> s'.owners[d].destroy == if d == o then Some(k) else s.owners[d].destroy)
  {
    MadeOwners(s, o, k, answer, throws);
    hide Made;
  }

  /** A construction that succeeds adds one owner with its object and its block; one that throws adds nothing. */
  lemma MadeHolds(s: State, o: Oid, k: Class, answer: Option<Address>, throws: bool, d: Oid, q: ProviderId, a: Address)
    requires Inv(s) && Made(s, o, k, answer, throws).Some?
    ensures var s', made := Made(s, o, k, answer, throws).value, answer == Some(a) && q == s.slot && !throws;
            && WellKept(AccountOf(s', q))
            && (Holds(s', d, q, a) <==> Holds(s, d, q, a) || (made && d == o))
            && (a in AccountOf(s', q).ledger <==> a in AccountOf(s, q).ledger || made)
            && (made ==> a !in AccountOf(s, q).ledger)
            && (Holds(s', d, q, a) ==> Matched(s', d, q, a))
  {
    assert WellKept(AccountOf(s, q));
    if Holds(s, d, q, a) { assert Matched(s, d, q, a); }
    MadeAccount(s, o, k, answer, throws, q);
    MadeHolder(s, o, k, answer, throws, d, q, a);
    MadeOwners(s, o, k, answer, throws);
    hide Inv, Made, WellKept, AccountOf, Keeps;
  }

  lemma MadeFormed(s: State, o: Oid, k: Class, answer: Option<Address>, throws: bool)
    requires Formed(s) && Made(s, o, k, answer, throws).Some?
    ensures Formed(Made(s, o, k, answer, throws).value)
  {
    hide MakeIn;
  }

  lemma MadeInv(s: State, o: Oid, k: Class, answer: Option<Address>, throws: bool)
    requires Inv(s) && Made(s, o, k, answer, throws).Some?
    ensures Inv(Made(s, o, k, answer, throws).value)
  {
    var s' := Made(s, o, k, answer, throws).value;
    MadeFormed(s, o, k, answer, throws);
    hide Made, Holds, Matched, Formed, WellKept, Keeps;
    forall d: Oid, q: ProviderId, a: Address | Holds(s', d, q, a) ensures Matched(s', d, q, a) {
      MadeHolds(s, o, k, answer, throws, d, q, a);
    }
    forall d: Oid, e: Oid, q: ProviderId, a: Address | Holds(s', d, q, a) && Holds(s', e, q, a) ensures d == e {
      MadeHolds(s, o, k, answer, throws, d, q, a);
      MadeHolds(s, o, k, answer, throws, e, q, a);
      HeldIsLive(s, d, q, a);
      HeldIsLive(s, e, q, a);
    }
    forall q: ProviderId, a: Address | a in AccountOf(s', q).ledger ensures exists d: Oid :: Holds(s', d, q, a) {
      MadeHolds(s, o, k, answer, throws, o, q, a);
      if a in AccountOf(s, q).ledger {
        var d: Oid :| Holds(s, d, q, a);
        MadeHolds(s, o, k, answer, throws, d, q, a);
      }
    }
    forall q: ProviderId ensures WellKept(AccountOf(s', q)) {
      MadeHolds(s, o, k, answer, throws, o, q, 0);
    }
  }

  lemma HeldIsLive(s: State, d: Oid, q: ProviderId, a: Address)
    requires Inv(s)
    ensures Holds(s, d, q, a) ==> a in AccountOf(s, q).ledger
  {
    if Holds(s, d, q, a) { assert Matched(s, d, q, a); }
  }

  /** Owners that change hands take pointer, provider and destroy function along together. */
  lemma HandedOver(s: State, s': State, from: map<Oid, Oid>, to: map<Oid, Oid>)
    requires Inv(s) && s'.accounts == s.accounts
    requires forall o :: o in s'.owners && s'.owners[o].pointer.Some? ==>
               o in from && from[o] in s.owners && s'.owners[o] == s.owners[from[o]] && from[o] in to && to[from[o]] == o
    requires forall q :: q in s.owners && s.owners[q].pointer.Some? ==>
               q in to && to[q] in s'.owners && s'.owners[to[q]] == s.owners[q]
    ensures Inv(s')
  {
    assert forall p: ProviderId :: AccountOf(s', p) == AccountOf(s, p);
    hide WellKept, Keeps;
    forall o: Oid, p: ProviderId, a: Address | Holds(s', o, p, a) ensures Matched(s', o, p, a) {
      assert Holds(s, from[o], p, a) && Matched(s, from[o], p, a);
    }
    forall p: ProviderId, a: Address | a in AccountOf(s', p).ledger ensures exists o: Oid :: Holds(s', o, p, a) {
      assert a in AccountOf(s, p).ledger;
      var q: Oid :| Holds(s, q, p, a);
      assert Holds(s', to[q], p, a);
    }
    forall o: Oid, q: Oid, p: ProviderId, a: Address | Holds(s', o, p, a) && Holds(s', q, p, a) ensures o == q {
      assert Holds(s, from[o], p, a) && Holds(s, from[q], p, a);
    }
    forall p: ProviderId ensures WellKept(AccountOf(s', p)) {
      assert WellKept(AccountOf(s, p));
    }
  }

  function Identity(s: State): map<Oid, Oid> { map o | o in s.owners :: o }

  lemma MoveAssignInv(s: State, o: Oid, q: Oid)
    requires Inv(s) && Next(s, MoveAssign(o, q)).Some?
    ensures Inv(Next(s, MoveAssign(o, q)).value)
  {
    if o == q { return; }
    var s', c := Next(s, MoveAssign(o, q)).value, Cleared(s, o);
    ClearedInv(s, o);
    ClearedOwners(s, o);
    hide Cleared, Inv;
    HandedOver(c, s', Identity(s)[o := q], Identity(s)[q := o]);
  }

  lemma SwapInv(s: State, o: Oid, q: Oid)
    requires Inv(s) && Next(s, Swap(o, q)).Some?
    ensures Inv(Next(s, Swap(o, q)).value)
  {
    hide Inv;
    HandedOver(s, Next(s, Swap(o, q)).value, Identity(s)[o := q][q := o], Identity(s)[o := q][q := o]);
  }

  lemma DropInv(s: State, o: Oid)
    requires Inv(s) && o in s.owners
    ensures Inv(Next(s, Drop(o)).value)
  {
    var s', c := Next(s, Drop(o)).value, Cleared(s, o);
    ClearedInv(s, o);
    ClearedOwners(s, o);
    hide Cleared, Inv;
    HandedOver(c, s', Identity(s), Identity(s));
  }

  lemma NextInv(s: State, m: Command)
    requires Inv(s) && Next(s, m).Some?
    ensures Inv(Next(s, m).value)
  {
    var s' := Next(s, m).value;
    hide Inv, Made, Cleared;
    match m
    case Install(_) => HandedOver(s, s', Identity(s), Identity(s));
    case Empty(_, _, _) => HandedOver(s, s', Identity(s), Identity(s));
    case Make(o, k, answer, throws) => MadeInv(s, o, k, answer, throws);
    case MoveConstruct(o, q) => HandedOver(s, s', Identity(s)[o := q], Identity(s)[q := o]);
    case MoveAssign(o, q) => MoveAssignInv(s, o, q);
    case Swap(o, q) => SwapInv(s, o, q);
    case Reset(o) => ClearedInv(s, o);
    case Drop(o) => DropInv(s, o);
  }

  /**
   Conservation. Over every run of constructions (which may throw), moves, swaps, resets and provider changes, for any mix of
   classes: each provider's live blocks are exactly those held by owners that came from it, each by one owner; every object
   is destroyed as the class it was built as, once, at the address it was built at, and its block goes back to the provider
   captured at its construction, as it was allocated; and allocations less deallocations are the live blocks.
   */
  lemma {:induction false} Conservation(slot: ProviderId, ms: seq<Command>)
    requires Run(Init(slot), ms).Some?
    ensures Inv(Run(Init(slot), ms).value)
  {
    if ms != [] {
      Conservation(slot, ms[..|ms| - 1]);
      NextInv(Run(Init(slot), ms[..|ms| - 1]).value, ms[|ms| - 1]);
    }
  }

  /** When no owner holds anything, every provider got back as many blocks as it gave, and no object is left. */
  lemma NothingLeaks(slot: ProviderId, ms: seq<Command>, p: ProviderId)
    requires Run(Init(slot), ms).Some?
    requires forall o :: o in Run(Init(slot), ms).value.owners ==> Run(Init(slot), ms).value.owners[o].pointer.None?
    ensures var acc := AccountOf(Run(Init(slot), ms).value, p);
            acc.taken == acc.returned && acc.ledger == map[] && acc.objects == map[] && !acc.misuse
  {
    Conservation(slot, ms);
    var s := Run(Init(slot), ms).value;
    forall a: Address ensures a !in AccountOf(s, p).ledger {
      assert forall o: Oid :: !Holds(s, o, p, a);
    }
    assert WellKept(AccountOf(s, p));
    assert AccountOf(s, p).ledger == map[];
  }

  /** The provider of the last installation among the events, or `slot` when there is none. */
  function LastInstalled(es: seq<Command>, slot: ProviderId): ProviderId {
    if es == [] then slot
    else if es[|es| - 1].Install? then es[|es| - 1].installed
    else LastInstalled(es[..|es| - 1], slot)
  }

  /** Installations, and nothing else, decide which provider a later construction captures. */
  lemma {:induction false} SlotIsLastInstalled(s: State, es: seq<Command>)
    requires Run(s, es).Some?
    ensures Run(s, es).value.slot == LastInstalled(es, s.slot)
  {
    if es != [] {
      SlotIsLastInstalled(s, es[..|es| - 1]);
      NextSlot(Run(s, es[..|es| - 1]).value, es[|es| - 1]);
    }
  }

  lemma NextSlot(s: State, m: Command)
    requires Next(s, m).Some?
    ensures Next(s, m).value.slot == if m.Install? then m.installed else s.slot
  {
  }

  // ------------------------------------------------------------------ the capture

  /** The command that made an object of class `k` at `a` from the provider that was installed at that moment. */
  predicate MakesFor(slot: ProviderId, m: Command, w: Owner) {
    && m.Make? && m.answer.Some? && !m.throws
    && w == Accounts.Owner(Some(m.answer.value + m.class_.offset), Some(slot), Some(m.class_))
  }

  /** The owner that held, before command `m`, what `o` holds after it. */
  function Source(m: Command, o: Oid): Oid {
    match m
    case MoveConstruct(p, q) => if o == p then q else o
    case MoveAssign(p, q) => if o == p then q else o
    case Swap(p, q) => if o == p then q else if o == q then p else o
    case _ => o
  }

  lemma HeldBefore(s: State, m: Command, o: Oid)
    requires Next(s, m).Some? && o in Next(s, m).value.owners && Next(s, m).value.owners[o].pointer.Some?
    ensures MakesFor(s.slot, m, Next(s, m).value.owners[o]) ||
            (Source(m, o) in s.owners && s.owners[Source(m, o)] == Next(s, m).value.owners[o])
  {
    if m.MoveAssign? || m.Reset? || m.Drop? {
      ClearedOwners(s, m.o);
      hide Cleared;
    }
  }

  /**
   Eager capture: whatever an owner holds, through any moves and swaps, it holds with the provider that was installed when
   that very object was made, with its own class as the destroy function and its own base pointer.
   */
  lemma {:induction false} CapturedWhenMade(slot: ProviderId, ms: seq<Command>, o: Oid) returns (i: nat)
    requires Run(Init(slot), ms).Some?
    requires o in Run(Init(slot), ms).value.owners && Run(Init(slot), ms).value.owners[o].pointer.Some?
    ensures i < |ms| && Run(Init(slot), ms[..i]).Some?
    ensures MakesFor(Run(Init(slot), ms[..i]).value.slot, ms[i], Run(Init(slot), ms).value.owners[o])
  {
    var before, m := ms[..|ms| - 1], ms[|ms| - 1];
    var s := Run(Init(slot), before).value;
    HeldBefore(s, m, o);
    if MakesFor(s.slot, m, Run(Init(slot), ms).value.owners[o]) {
      i := |ms| - 1;
    } else {
      i := CapturedWhenMade(slot, before, Source(m, o));
      assert before[..i] == ms[..i];
    }
  }
}
