/**
 The memory classes with their fields: providers with their ledgers, the provider slot, `Allocator`, the deleters and the
 owners that `MakeUnique` and `MakePolymorphicUnique` return. Each method changes the fields in the order of the source;
 what it leaves behind is stated with the functions of `Accounts`, `MemoryModel` and
 `SlotExchange`, over which `Owners`, `Containers` and `Pairing` prove their runs.
 */
module MemoryObjects {
  import opened Common
  import opened MemoryModel
  import SlotExchange
  import Pairing
  import opened Accounts

  /** A memory provider, seen through its live blocks, and the objects that are constructed in them. */
  class Provider {
    var ledger: Ledger
    var objects: map<Address, Class>
    var taken: nat
    var returned: nat
    var misuse: bool

    constructor ()
      ensures ledger == map[] && objects == map[] && taken == 0 && returned == 0 && !misuse
    {
      ledger, objects, taken, returned, misuse := map[], map[], 0, 0, false;
    }

    /** The fields as one account. */
    function Books(): Account
      reads this
    {
      Account.Account(ledger, objects, taken, returned, misuse)
    }

    /** The provider answers with the address of a new block, or throws when there is no `answer`. */
    method Allocate(bytes: nat, alignment: nat, policy: Policy, answer: Option<Address>) returns (storage: Option<Address>)
      requires answer.Some? ==> answer.value !in ledger
      modifies this`ledger, this`taken
      ensures storage == answer
      ensures Books() ==
              if answer.None? then old(Books()) else Take(old(Books()), answer.value, Block(bytes, alignment, policy))
    {
      storage := answer;
      if answer.Some? {
        ledger := ledger[answer.value := Block(bytes, alignment, policy)];
        taken := taken + 1;
      }
    }

    method Deallocate(pointer: Address, bytes: nat, alignment: nat, policy: Policy)
      modifies this`ledger, this`returned, this`misuse
      ensures Books() == Return(old(Books()), pointer, Block(bytes, alignment, policy))
    {
      misuse := misuse || !(pointer in ledger && ledger[pointer] == Block(bytes, alignment, policy));
      ledger := ledger - {pointer};
      returned := returned + 1;
    }
  }

  /** `ProviderSlot()`; `default_` is what `DefaultProvider()` returns. */
  class Slot {
    const default_: Provider
    var current: Provider?

    constructor (default_: Provider)
      ensures this.default_ == default_ && current == default_
    {
      this.default_ := default_;
      current := default_;
    }

    function GetProvider(): Provider
      reads this
    {
      if current != null then current else default_
    }

    /** One atomic exchange; null installs the default, so the slot itself is never null afterwards. */
    method SetProvider(provider: Provider?) returns (previous: Provider?)
      modifies this
      ensures previous == old(current) && current != null
      ensures GetProvider() == SlotExchange.Normal(AsOption(provider), default_)
      ensures GetProvider() == if provider != null then provider else default_
    {
      var installed := provider;
      if installed == null { installed := default_; }
      previous := current;
      current := installed;
    }

    method ResetProvider()
      modifies this
      ensures GetProvider() == default_
    {
      var previous := SetProvider(default_);
    }
  }

  function AsOption(p: Provider?): Option<Provider> {
    if p == null then None else Some(p)
  }

  datatype Allocation = Allocated(address: Address) | BadArrayNewLength | BadAlloc

  /** `Allocator<T, Policy>`: its shape is what T and Policy fix, its one field is the provider it is bound to. */
  class Allocator {
    const shape: Shape
    const sizeMax: nat
    var provider: Provider?

    constructor Default(shape: Shape, sizeMax: nat)
      ensures this.shape == shape && this.sizeMax == sizeMax && Binding() == None
    {
      this.shape, this.sizeMax, provider := shape, sizeMax, null;
    }

    constructor Bound(shape: Shape, sizeMax: nat, p: Provider)
      ensures this.shape == shape && this.sizeMax == sizeMax && Binding() == Some(p)
    {
      this.shape, this.sizeMax, provider := shape, sizeMax, p;
    }

    /** Copy or rebind: another element type, the same policy, and the binding as it is. */
    constructor Copy(other: Allocator, shape: Shape)
      requires shape.policy == other.shape.policy
      ensures this.shape == shape && sizeMax == other.sizeMax && Binding() == other.Binding()
    {
      this.shape, sizeMax, provider := shape, other.sizeMax, other.provider;
    }

    function Binding(): Option<Provider>
      reads this
    {
      AsOption(provider)
    }

    /** `Provider()` */
    function EffectiveProvider(slot: Slot): (p: Provider)
      reads this, slot
      ensures p == Effective(Binding(), slot.GetProvider())
    {
      if provider != null then provider else slot.GetProvider()
    }

    predicate IsProviderBound()
      reads this
      ensures IsProviderBound() <==> Binding().Some?
    {
      provider != null
    }

    /** `operator==`: whether what one of the two allocates, the other frees to the same provider. */
    predicate Equals(other: Allocator, slot: Slot)
      reads this, other, slot
      ensures Equals(other, slot) <==> Pairing.Equal(Binding(), other.Binding(), slot.GetProvider(), slot.GetProvider())
      ensures Binding().Some? && Equals(other, slot) ==> other.EffectiveProvider(slot) == Binding().value
    {
      EffectiveProvider(slot) == other.EffectiveProvider(slot)
    }

    method BindProvider(slot: Slot) returns (p: Provider)
      modifies this
      ensures p == Effective(old(Binding()), slot.GetProvider()) && Binding() == Some(p)
    {
      if provider == null { provider := slot.GetProvider(); }
      p := provider;
    }

    /** Too large a count throws before the allocator binds; a provider that throws leaves it bound all the same. */
    method Allocate(slot: Slot, count: nat, answer: Option<Address>) returns (r: Allocation)
      requires answer.Some? ==> answer.value !in EffectiveProvider(slot).ledger
      modifies this, EffectiveProvider(slot)`ledger, EffectiveProvider(slot)`taken
      ensures r.BadArrayNewLength? <==> count * shape.size > sizeMax
      ensures r.BadArrayNewLength? ==>
                Binding() == old(Binding()) && old(EffectiveProvider(slot)).Books() == old(EffectiveProvider(slot).Books())
      ensures !r.BadArrayNewLength? ==>
                && Binding() == Some(old(EffectiveProvider(slot)))
                && r == (if answer.Some? then Allocated(answer.value) else BadAlloc)
                && old(EffectiveProvider(slot)).Books() ==
                   (if answer.None? then old(EffectiveProvider(slot).Books())
                    else Take(old(EffectiveProvider(slot).Books()), answer.value,
                              Block(count * shape.size, shape.alignment, shape.policy)))
    {
      GuardIsExact(shape, count, sizeMax);
      if count > sizeMax / shape.size { return BadArrayNewLength; }
      var p := BindProvider(slot);
      var storage := p.Allocate(Bytes(shape, count, sizeMax), shape.alignment, shape.policy, answer);
      r := if storage.Some? then Allocated(storage.value) else BadAlloc;
    }

    method Deallocate(slot: Slot, pointer: Option<Address>, count: nat)
      modifies EffectiveProvider(slot)`ledger, EffectiveProvider(slot)`returned, EffectiveProvider(slot)`misuse
      ensures EffectiveProvider(slot).Books() ==
              if pointer.None? then old(EffectiveProvider(slot).Books())
              else Return(old(EffectiveProvider(slot).Books()), pointer.value, BlockFor(shape, count, sizeMax))
    {
      if pointer.None? { return; }
      var p := if provider != null then provider else slot.GetProvider();
      p.Deallocate(pointer.value, Bytes(shape, count, sizeMax), shape.alignment, shape.policy);
    }
  }

  /**
   A `std::unique_ptr` with its deleter. For `PolymorphicUniquePtr` the pointer is to the base subobject; for `UniquePtr` the
   class has offset 0, and `provider` and `destroy` are never missing.
   */
  class Owner {
    var pointer: Option<int>
    var provider: Provider?
    var destroy: Option<Class>

    constructor (pointer: Option<int>, provider: Provider?, destroy: Option<Class>)
      ensures Value() == Accounts.Owner(pointer, AsOption(provider), destroy)
    {
      this.pointer, this.provider, this.destroy := pointer, provider, destroy;
    }

    /** The fields as one value. */
    function Value(): Accounts.Owner<Provider>
      reads this
    {
      Accounts.Owner(pointer, AsOption(provider), destroy)
    }

    /** The owner is null, or holds an object that its provider keeps as of its class. */
    predicate Valid()
      reads this, provider
    {
      pointer.Some? ==>
        && Deletes(Value()) && pointer.value >= destroy.value.offset
        && Keeps(provider.Books(), pointer.value - destroy.value.offset, destroy.value)
    }

    /** Where the held object lies. */
    function Derived(): Option<Address>
      reads this, provider
      requires Valid()
    {
      if pointer.None? then None else Some(pointer.value - destroy.value.offset)
    }

    /** The deleter's call: nothing for null, and nothing without both provider and destroy function. */
    method Delete(base: Option<int>)
      requires Deletes(Value().(pointer := base)) ==> base.value >= destroy.value.offset
      modifies provider
      ensures provider != null ==>
                provider.Books() ==
                if Deletes(Value().(pointer := base))
                then DestroyIn(old(provider.Books()), base.value - destroy.value.offset, destroy.value)
                else old(provider.Books())
    {
      if base.None? { return; }
      if provider != null && destroy.Some? {
        DestroyPolymorphicObject(base, provider, destroy.value);
      }
    }

    /** `reset()`: the held object is destroyed and its block returned; the deleter stays. */
    method Reset()
      requires Valid()
      modifies this`pointer, provider
      ensures Valid() && Value() == old(Value()).(pointer := None)
      ensures provider != null ==>
                provider.Books() == if old(Derived()).None? then old(provider.Books())
                                    else DestroyIn(old(provider.Books()), old(Derived()).value, destroy.value)
      ensures provider != null ==> provider.misuse == old(provider.misuse)
    {
      var base := pointer;
      pointer := None;
      Delete(base);
    }

    /** Move assignment: `reset(other.release())` with the old deleter, and only then the other's deleter. */
    method MoveFrom(other: Owner)
      requires Valid() && other.Valid()
      requires this != other && provider == other.provider && Derived().Some? ==> Derived() != other.Derived()
      modifies this, other`pointer, provider
      ensures Valid() && other.Valid() && Value() == old(other.Value())
      ensures this != other ==> other.Value() == old(other.Value()).(pointer := None)
      ensures old(provider) != null ==>
                old(provider).Books() == if this == other || old(Derived()).None? then old(provider.Books())
                                         else DestroyIn(old(provider.Books()), old(Derived()).value, old(destroy).value)
      ensures old(provider) != null ==> old(provider).misuse == old(provider.misuse)
    {
      var incoming := other.pointer;
      other.pointer := None;
      var base := pointer;
      pointer := incoming;
      Delete(base);
      provider := other.provider;
      destroy := other.destroy;
    }

    /** `swap`: pointers and deleters change places together, and nothing is destroyed. */
    method SwapWith(other: Owner)
      requires Valid() && other.Valid()
      modifies this, other
      ensures Valid() && other.Valid()
      ensures Value() == old(other.Value()) && other.Value() == old(Value())
    {
      pointer, other.pointer := other.pointer, pointer;
      provider, other.provider := other.provider, provider;
      destroy, other.destroy := other.destroy, destroy;
    }
  }

  /** Nothing for null; else back to the derived object, its destructor, and its storage to the provider. */
  method DestroyPolymorphicObject(base: Option<int>, provider: Provider?, k: Class)
    requires base.Some? && provider != null ==> base.value >= k.offset
    modifies provider
    ensures provider != null ==>
              provider.Books() ==
              if base.None? then old(provider.Books()) else DestroyIn(old(provider.Books()), base.value - k.offset, k)
    ensures base.Some? && provider != null ==>
              var a: Address := base.value - k.offset;
              var asMade :=
                && a in old(provider.objects) && old(provider.objects)[a] == k
                && a in old(provider.ledger)
                && old(provider.ledger)[a] == Block(k.shape.size, k.shape.alignment, k.shape.policy);
              && provider.ledger == old(provider.ledger) - {a} && provider.objects == old(provider.objects) - {a}
              && provider.misuse == (old(provider.misuse) || !asMade)
  {
    if base.None? || provider == null { return; }
    var derived: Address := base.value - k.offset;
    provider.misuse := provider.misuse || !(derived in provider.objects && provider.objects[derived] == k);
    provider.objects := provider.objects - {derived};
    provider.Deallocate(derived, k.shape.size, k.shape.alignment, k.shape.policy);
  }

  datatype Making = Made(owner: Owner) | ConstructorThrew | OutOfMemory

  /**
   `MakePolymorphicUnique`, and with offset 0 `MakeUnique`: the provider is captured first; storage, then construction; a
   constructor that throws has its storage returned to the same provider, which is left with the ledger it had.
   */
  method MakePolymorphicUnique(slot: Slot, k: Class, answer: Option<Address>, throws: bool) returns (r: Making)
    requires answer.Some? ==> answer.value !in slot.GetProvider().ledger
    modifies slot.GetProvider()
    ensures (r.OutOfMemory? <==> answer.None?) && (r.ConstructorThrew? <==> answer.Some? && throws)
    ensures slot.GetProvider().Books() ==
            if answer.None? then old(slot.GetProvider().Books())
            else MakeIn(old(slot.GetProvider().Books()), k, answer.value, throws)
    ensures slot.GetProvider().ledger ==
            if !r.Made? then old(slot.GetProvider().ledger)
            else old(slot.GetProvider().ledger)[answer.value := Block(k.shape.size, k.shape.alignment, k.shape.policy)]
    ensures slot.GetProvider().objects ==
            if !r.Made? then old(slot.GetProvider().objects) else old(slot.GetProvider().objects)[answer.value := k]
    ensures slot.GetProvider().misuse == old(slot.GetProvider().misuse)
    ensures r.Made? ==>
              && fresh(r.owner) && r.owner.Valid()
              && r.owner.Value() == Accounts.Owner(Some(answer.value + k.offset), Some(slot.GetProvider()), Some(k))
  {
    var p := slot.GetProvider();
    var storage := p.Allocate(k.shape.size, k.shape.alignment, k.shape.policy, answer);
    if storage.None? { return OutOfMemory; }
    if throws {
      p.Deallocate(storage.value, k.shape.size, k.shape.alignment, k.shape.policy);
      assert p.ledger == old(p.ledger);
      return ConstructorThrew;
    }
    p.objects := p.objects[storage.value := k];
    var base := storage.value + k.offset;
    var owner := new Owner(Some(base), p, Some(k));
    return Made(owner);
  }
}
