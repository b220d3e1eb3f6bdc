/** Blocks, ledgers and the rules by which an allocator picks its provider; shared by the memory modules. */
module MemoryModel {
  import opened Common

  datatype Policy = Automatic | Internal | ExternalPreferred | ExternalRequired

  type Address = nat

  /** What a provider is told about a block, both when it allocates it and when it takes it back. */
  datatype Block = Block(bytes: nat, alignment: nat, policy: Policy)

  /** The live blocks of one provider. */
  type Ledger = map<Address, Block>

  datatype ShapeData = ShapeData(size: nat, alignment: nat, policy: Policy)

  /** sizeof(T), alignof(T) and the policy of an allocator or a deleter. */
  type Shape = s: ShapeData | s.size > 0 witness ShapeData(1, 1, Automatic)

  /** `_provider != nullptr ? _provider : &GetProvider()` */
  function Effective<P>(binding: Option<P>, slot: P): P {
    match binding
    case Some(p) => p
    case None => slot
  }

  /** What a slot that held `p` holds after `ps` were installed in it. */
  function LastOr<P>(ps: seq<P>, p: P): P {
    if ps == [] then p else ps[|ps| - 1]
  }

  /** `count * sizeof(T)` in the unsigned arithmetic of `std::size_t`, whose largest value is `sizeMax`. */
  function Bytes(shape: Shape, count: nat, sizeMax: nat): nat {
    (count * shape.size) % (sizeMax + 1)
  }

  /** The guard at the head of `allocate`. */
  predicate TooMany(shape: Shape, count: nat, sizeMax: nat) {
    count > sizeMax / shape.size
  }

  function BlockFor(shape: Shape, count: nat, sizeMax: nat): Block {
    Block(Bytes(shape, count, sizeMax), shape.alignment, shape.policy)
  }

  lemma SmallIsExact(n: nat, sizeMax: nat)
    ensures n <= sizeMax <==> n % (sizeMax + 1) == n
  {
  }

  lemma ProductFits(count: nat, size: nat, sizeMax: nat)
    requires size > 0
    ensures count <= sizeMax / size <==> count * size <= sizeMax
  {
    var q, r := sizeMax / size, sizeMax % size;
    assert sizeMax == q * size + r;
    if count <= q {
      Monotone(count, q, size);
    } else {
      Monotone(q + 1, count, size);
      assert (q + 1) * size == q * size + size;
    }
  }

  lemma Monotone(a: nat, b: nat, n: nat)
    requires a <= b
    ensures a * n <= b * n
  {
  }

  /** The guard refuses exactly the counts whose byte count would wrap. */
  lemma GuardIsExact(shape: Shape, count: nat, sizeMax: nat)
    ensures !TooMany(shape, count, sizeMax) <==> Bytes(shape, count, sizeMax) == count * shape.size
    ensures !TooMany(shape, count, sizeMax) <==> count * shape.size <= sizeMax
  {
    ProductFits(count, shape.size, sizeMax);
    SmallIsExact(count * shape.size, sizeMax);
  }
}
