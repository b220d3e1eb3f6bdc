/**
 What the construction and the destruction of one uniquely owned object do to its provider: the rules that both the owners'
 runs (`Owners`) and the memory classes (`MemoryObjects`) follow.
 */
module Accounts {
  import opened Common
  import opened MemoryModel

  /** A concrete type: its shape under its policy, and where its base subobject lies within it. */
  datatype Class = Class(id: nat, shape: Shape, offset: int)

  function ClassBlock(k: Class): Block { Block(k.shape.size, k.shape.alignment, k.shape.policy) }

  /** A provider: its live blocks, the objects constructed in them, and its `Allocate` and `Deallocate` calls so far. */
  datatype Account = Account(
    ledger: Ledger,
    objects: map<Address, Class>,
    taken: nat,
    returned: nat,
    misuse: bool)   // a wrong destructor, a second destruction, or a block returned that is not as it was allocated

  const OPENED := Account(map[], map[], 0, 0, false)

  function Take(acc: Account, a: Address, b: Block): Account {
    acc.(ledger := acc.ledger[a := b], taken := acc.taken + 1)
  }

  function Return(acc: Account, a: Address, b: Block): Account {
    acc.(misuse := acc.misuse || !(a in acc.ledger && acc.ledger[a] == b),
         ledger := acc.ledger - {a},
         returned := acc.returned + 1)
  }

  /** Storage, then construction; when the constructor throws, the storage is returned. */
  function MakeIn(acc: Account, k: Class, a: Address, throws: bool): Account {
    var acc1 := Take(acc, a, ClassBlock(k));
    if throws then Return(acc1, a, ClassBlock(k)) else acc1.(objects := acc1.objects[a := k])
  }

  /** The destructor of class `k` at the derived address, then the return of its storage. */
  function DestroyIn(acc: Account, a: Address, k: Class): Account {
    Return(acc.(misuse := acc.misuse || !(a in acc.objects && acc.objects[a] == k), objects := acc.objects - {a}),
           a, ClassBlock(k))
  }

  /** A `std::unique_ptr`: the base pointer and the two members of its deleter. */
  datatype Owner<P> = Owner(pointer: Option<int>, provider: Option<P>, destroy: Option<Class>)

  /** What the deleter's call does, if anything: the derived address, the provider and the class to destroy as. */
  predicate Deletes<P>(w: Owner<P>) {
    w.pointer.Some? && w.provider.Some? && w.destroy.Some?
  }

  /** No misuse, an object in each live block, and as many blocks live as were taken and not returned. */
  ghost predicate WellKept(acc: Account) {
    && !acc.misuse
    && acc.objects.Keys == acc.ledger.Keys
    && acc.taken == acc.returned + |acc.ledger|
  }

  /** The account holds an object of class `k` at `a`, in a block that it knows under that class. */
  predicate Keeps(acc: Account, a: Address, k: Class) {
    a in acc.objects && acc.objects[a] == k && a in acc.ledger && acc.ledger[a] == ClassBlock(k)
  }

  /** A construction is kept as its class; one that throws leaves everything but the two counts as it was. */
  lemma MakeKeeps(acc: Account, k: Class, a: Address, throws: bool)
    requires WellKept(acc) && a !in acc.ledger
    ensures WellKept(MakeIn(acc, k, a, throws))
    ensures throws ==> MakeIn(acc, k, a, throws) == acc.(taken := acc.taken + 1, returned := acc.returned + 1)
    ensures !throws ==> Keeps(MakeIn(acc, k, a, throws), a, k)
  {
    assert acc.ledger[a := ClassBlock(k)] - {a} == acc.ledger;
    assert |acc.ledger[a := ClassBlock(k)]| == |acc.ledger| + 1;
  }

  /** Destroying an object as what it is removes it and its block, and nothing else; as anything else it is misuse. */
  lemma DestroyKeeps(acc: Account, a: Address, k: Class)
    requires WellKept(acc)
    ensures WellKept(DestroyIn(acc, a, k)) <==> Keeps(acc, a, k)
    ensures DestroyIn(acc, a, k).ledger == acc.ledger - {a} && DestroyIn(acc, a, k).objects == acc.objects - {a}
  {
    if a in acc.ledger {
      assert acc.ledger == (acc.ledger - {a})[a := acc.ledger[a]];
    }
  }

  /** Making an object and destroying it as what it is leaves the account as it was, but for one call of each kind. */
  lemma MadeThenDestroyed(acc: Account, k: Class, a: Address)
    requires WellKept(acc) && a !in acc.ledger
    ensures DestroyIn(MakeIn(acc, k, a, false), a, k) == acc.(taken := acc.taken + 1, returned := acc.returned + 1)
  {
    assert acc.ledger[a := ClassBlock(k)] - {a} == acc.ledger;
    assert acc.objects[a := k] - {a} == acc.objects;
  }
}
