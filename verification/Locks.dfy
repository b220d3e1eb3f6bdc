/**
 The atomic specifications of the three kinds of lock, as the mutex requirements of section 33.4.3 of
 ISO/IEC 14882:2017 state them, and what the counts of acquisitions and releases say about their owners.

 Operations whose precondition the caller breaks (releasing what it does not hold) complete in no state. A try
 operation may be refused at any time.
 */
module Locks {
  import opened Common
  import opened AtomicObjects

  datatype LockOp = Lock | TryLock | Unlock
  datatype LockResult = Held | Refused | Released

  predicate Acquires(op: LockOp, r: LockResult) { (op.Lock? || op.TryLock?) && r.Held? }
  predicate Releases(op: LockOp) { op.Unlock? }
  function LockHolding(): Holding<LockOp, LockResult> { Holding(Acquires, Releases) }

  // -------------------------------------------------------------------- mutex

  /** `holder` is the thread that owns the mutex. */
  function MutexApply(holder: Option<Tid>, t: Tid, op: LockOp, r: LockResult): Option<Option<Tid>> {
    match op
    case Lock => if r.Held? && holder.None? then Some(Some(t)) else None
    case TryLock =>
      if r.Refused? then Some(holder) else if r.Held? && holder.None? then Some(Some(t)) else None
    case Unlock => if r.Released? && holder == Some(t) then Some(None) else None
  }

  function MutexObject(): Object<Option<Tid>, LockOp, LockResult> { Object(None, MutexApply) }

  lemma {:induction false} MutexBalance(h: seq<Completed<LockOp, LockResult>>, t: Tid)
    requires AtomicRun(MutexObject(), h).Some?
    ensures Balance(LockHolding(), h, t) == if AtomicRun(MutexObject(), h).value == Some(t) then 1 else 0
  {
    if h != [] { MutexBalance(h[..|h| - 1], t); }
  }

  /** When the mutex answers, told from the counts: it is granted exactly when nobody holds it. */
  lemma MutexAnswers(h: seq<Completed<LockOp, LockResult>>, t: Tid)
    requires AtomicRun(MutexObject(), h).Some?
    ensures var m := AtomicRun(MutexObject(), h).value;
            && (MutexApply(m, t, Lock, Held).Some? <==> Unheld(LockHolding(), h, None))
            && (MutexApply(m, t, TryLock, Held).Some? <==> Unheld(LockHolding(), h, None))
            && (MutexApply(m, t, Unlock, Released).Some? <==> Balance(LockHolding(), h, t) == 1)
            && MutexApply(m, t, TryLock, Refused) == Some(m)
  {
    forall u: Tid ensures Balance(LockHolding(), h, u) == if AtomicRun(MutexObject(), h).value == Some(u) then 1 else 0 {
      MutexBalance(h, u);
    }
    if AtomicRun(MutexObject(), h).value.Some? {
      assert Balance(LockHolding(), h, AtomicRun(MutexObject(), h).value.value) == 1;
    }
  }

  // ---------------------------------------------------------- recursive mutex

  datatype Ownership = Free | OwnedBy(owner: Tid, depth: nat)

  function DepthOf(o: Ownership, t: Tid): nat { if o.OwnedBy? && o.owner == t then o.depth else 0 }

  function Acquired(o: Ownership, t: Tid): Option<Ownership> {
    match o
    case Free => Some(OwnedBy(t, 1))
    case OwnedBy(u, d) => if u == t then Some(OwnedBy(t, d + 1)) else None
  }

  function RecursiveApply(o: Ownership, t: Tid, op: LockOp, r: LockResult): Option<Ownership> {
    match op
    case Lock => if r.Held? then Acquired(o, t) else None
    case TryLock => if r.Refused? then Some(o) else if r.Held? then Acquired(o, t) else None
    case Unlock =>
      if r.Released? && DepthOf(o, t) > 0 then Some(if o.depth == 1 then Free else OwnedBy(t, o.depth - 1)) else None
  }

  function RecursiveObject(): Object<Ownership, LockOp, LockResult> { Object(Free, RecursiveApply) }

  lemma {:induction false} RecursiveBalance(h: seq<Completed<LockOp, LockResult>>, t: Tid)
    requires AtomicRun(RecursiveObject(), h).Some?
    ensures Balance(LockHolding(), h, t) == DepthOf(AtomicRun(RecursiveObject(), h).value, t)
    ensures AtomicRun(RecursiveObject(), h).value.OwnedBy? ==> AtomicRun(RecursiveObject(), h).value.depth > 0
  {
    if h != [] { RecursiveBalance(h[..|h| - 1], t); }
  }

  /** Nobody acquires while another thread has depth. */
  lemma AcquiresAlone(o: Ownership, t: Tid, op: LockOp, u: Tid)
    requires RecursiveApply(o, t, op, Held).Some? && t != u
    ensures DepthOf(o, u) == 0
  {
  }

  /** The recursive mutex is granted exactly when no other thread has depth, so also to the thread that owns it. */
  lemma RecursiveAnswers(h: seq<Completed<LockOp, LockResult>>, t: Tid)
    requires AtomicRun(RecursiveObject(), h).Some?
    ensures var m := AtomicRun(RecursiveObject(), h).value;
            && (RecursiveApply(m, t, Lock, Held).Some? <==> Unheld(LockHolding(), h, Some(t)))
            && (RecursiveApply(m, t, TryLock, Held).Some? <==> Unheld(LockHolding(), h, Some(t)))
            && (RecursiveApply(m, t, Unlock, Released).Some? <==> Balance(LockHolding(), h, t) > 0)
            && RecursiveApply(m, t, TryLock, Refused) == Some(m)
  {
    var m := AtomicRun(RecursiveObject(), h).value;
    forall u: Tid ensures Balance(LockHolding(), h, u) == DepthOf(m, u) && (m.OwnedBy? ==> m.depth > 0) {
      RecursiveBalance(h, u);
    }
    if m.OwnedBy? { assert Balance(LockHolding(), h, m.owner) > 0; }
  }

  // ---------------------------------------------------------- read/write lock

  datatype SharedOp = Exclusive(op: LockOp) | Shared(op: LockOp)

  /** At most one writer; `readers[t]` counts the shared acquisitions that `t` has not released. */
  datatype Occupancy = Occupancy(writer: Option<Tid>, readers: multiset<Tid>)

  function WriterApply(o: Occupancy, t: Tid, op: LockOp, r: LockResult): Option<Occupancy> {
    if Acquires(op, r) then
      if o.writer.None? && o.readers == multiset{} then Some(o.(writer := Some(t))) else None
    else if op.TryLock? && r.Refused? then Some(o)
    else if op.Unlock? && r.Released? && o.writer == Some(t) then Some(o.(writer := None))
    else None
  }

  function ReaderApply(o: Occupancy, t: Tid, op: LockOp, r: LockResult): Option<Occupancy> {
    if Acquires(op, r) then
      if o.writer.None? then Some(o.(readers := o.readers + multiset{t})) else None
    else if op.TryLock? && r.Refused? then Some(o)
    else if op.Unlock? && r.Released? && t in o.readers then Some(o.(readers := o.readers - multiset{t}))
    else None
  }

  function SharedApply(o: Occupancy, t: Tid, op: SharedOp, r: LockResult): Option<Occupancy> {
    match op
    case Exclusive(op) => WriterApply(o, t, op, r)
    case Shared(op) => ReaderApply(o, t, op, r)
  }

  function SharedObject(): Object<Occupancy, SharedOp, LockResult> { Object(Occupancy(None, multiset{}), SharedApply) }

  function ExclusiveHolding(): Holding<SharedOp, LockResult> {
    Holding((op: SharedOp, r) => op.Exclusive? && Acquires(op.op, r), (op: SharedOp) => op.Exclusive? && Releases(op.op))
  }

  function SharedHolding(): Holding<SharedOp, LockResult> {
    Holding((op: SharedOp, r) => op.Shared? && Acquires(op.op, r), (op: SharedOp) => op.Shared? && Releases(op.op))
  }

  function Moves(op: LockOp, r: LockResult): int {
    if Acquires(op, r) then 1 else if Releases(op) then -1 else 0
  }

  lemma WriterStep(o: Occupancy, t: Tid, op: LockOp, r: LockResult, u: Tid)
    requires WriterApply(o, t, op, r).Some? && (o.writer.Some? ==> o.readers == multiset{})
    ensures var o' := WriterApply(o, t, op, r).value;
            && (o'.writer.Some? ==> o'.readers == multiset{}) && o'.readers == o.readers
            && Writes(o', u) == Writes(o, u) + if u == t then Moves(op, r) else 0
  {
  }

  lemma ReaderStep(o: Occupancy, t: Tid, op: LockOp, r: LockResult, u: Tid)
    requires ReaderApply(o, t, op, r).Some? && (o.writer.Some? ==> o.readers == multiset{})
    ensures var o' := ReaderApply(o, t, op, r).value;
            && (o'.writer.Some? ==> o'.readers == multiset{}) && o'.writer == o.writer
            && |o'.readers| == |o.readers| + Moves(op, r)
            && o'.readers[u] == o.readers[u] + if u == t then Moves(op, r) else 0
  {
    if op.Unlock? {
      assert o.readers == o.readers - multiset{t} + multiset{t};
    }
  }

  /** One operation moves the counts as `Balance` and `Total` count it, and keeps the writer alone. */
  lemma SharedStep(o: Occupancy, c: Completed<SharedOp, LockResult>, u: Tid)
    requires SharedApply(o, c.thread, c.op, c.result).Some? && (o.writer.Some? ==> o.readers == multiset{})
    ensures var o' := SharedApply(o, c.thread, c.op, c.result).value;
            && (o'.writer.Some? ==> o'.readers == multiset{})
            && |o'.readers| == |o.readers| + Change(SharedHolding(), c)
            && o'.readers[u] == o.readers[u] + (if u == c.thread then Change(SharedHolding(), c) else 0)
            && Writes(o', u) == Writes(o, u) + (if u == c.thread then Change(ExclusiveHolding(), c) else 0)
  {
    match c.op
    case Exclusive(op) =>
      WriterStep(o, c.thread, op, c.result, u);
      hide WriterApply;
    case Shared(op) =>
      ReaderStep(o, c.thread, op, c.result, u);
      hide ReaderApply;
  }

  function Writes(o: Occupancy, t: Tid): int { if o.writer == Some(t) then 1 else 0 }

  lemma {:induction false} SharedBalance(h: seq<Completed<SharedOp, LockResult>>, t: Tid)
    requires AtomicRun(SharedObject(), h).Some?
    ensures var o := AtomicRun(SharedObject(), h).value;
            && Balance(ExclusiveHolding(), h, t) == Writes(o, t)
            && Balance(SharedHolding(), h, t) == o.readers[t]
            && Total(SharedHolding(), h) == |o.readers|
            && (o.writer.Some? ==> o.readers == multiset{})
  {
    if h != [] {
      SharedBalance(h[..|h| - 1], t);
      SharedStep(AtomicRun(SharedObject(), h[..|h| - 1]).value, h[|h| - 1], t);
      hide SharedApply;
    }
  }

  lemma SharedCounts(h: seq<Completed<SharedOp, LockResult>>)
    requires AtomicRun(SharedObject(), h).Some?
    ensures AtomicRun(SharedObject(), h).value.writer.None? <==> Unheld(ExclusiveHolding(), h, None)
    ensures AtomicRun(SharedObject(), h).value.readers == multiset{} <==> Unheld(SharedHolding(), h, None)
  {
    var o := AtomicRun(SharedObject(), h).value;
    forall u: Tid ensures Balance(ExclusiveHolding(), h, u) == Writes(o, u) && Balance(SharedHolding(), h, u) == o.readers[u] {
      SharedBalance(h, u);
    }
    hide Balance, AtomicRun;
    if o.writer.Some? { assert Balance(ExclusiveHolding(), h, o.writer.value) == 1; }
    if o.readers != multiset{} {
      var u: Tid :| u in o.readers;
      assert Balance(SharedHolding(), h, u) > 0;
    }
  }

  lemma OccupancyAnswers(o: Occupancy, t: Tid)
    ensures forall op :: op == Lock || op == TryLock ==>
              && (ReaderApply(o, t, op, Held).Some? <==> o.writer.None?)
              && (WriterApply(o, t, op, Held).Some? <==> o.writer.None? && o.readers == multiset{})
    ensures ReaderApply(o, t, Unlock, Released).Some? <==> o.readers[t] > 0
    ensures WriterApply(o, t, Unlock, Released).Some? <==> Writes(o, t) == 1
    ensures ReaderApply(o, t, TryLock, Refused) == Some(o) && WriterApply(o, t, TryLock, Refused) == Some(o)
  {
  }

  /**
   The readers-writer lock is granted to a reader exactly when there is no writer, so also beside other readers, and to a
   writer exactly when there is nobody.
   */
  lemma SharedAnswers(h: seq<Completed<SharedOp, LockResult>>, t: Tid, op: LockOp)
    requires AtomicRun(SharedObject(), h).Some?
    ensures var o := AtomicRun(SharedObject(), h).value;
            && (op.Lock? || op.TryLock? ==>
                  && (SharedApply(o, t, Shared(op), Held).Some? <==> Unheld(ExclusiveHolding(), h, None))
                  && (SharedApply(o, t, Exclusive(op), Held).Some? <==>
                        Unheld(ExclusiveHolding(), h, None) && Unheld(SharedHolding(), h, None)))
            && (op.Unlock? ==>
                  && (SharedApply(o, t, Shared(op), Released).Some? <==> Balance(SharedHolding(), h, t) > 0)
                  && (SharedApply(o, t, Exclusive(op), Released).Some? <==> Balance(ExclusiveHolding(), h, t) == 1))
            && (op.TryLock? ==> SharedApply(o, t, Shared(op), Refused) == Some(o) &&
                                SharedApply(o, t, Exclusive(op), Refused) == Some(o))
  {
    SharedCounts(h);
    SharedBalance(h, t);
    OccupancyAnswers(AtomicRun(SharedObject(), h).value, t);
    hide Balance, AtomicRun, Unheld, ReaderApply, WriterApply;
  }
}
