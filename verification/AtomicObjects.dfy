/**
 Sequential specifications of shared objects, and what it means for the calls and returns that clients see to agree
 with one.
 */
module AtomicObjects {
  import opened Common

  /**
   An object is given by its initial state and by what one completed operation does to it. `apply` answers `None` when
   the operation cannot complete with that result in that state, either because it blocks or because the caller breaks
   the object's usage rules.
   */
  datatype Object<!S, !Op, !R> = Object(init: S, apply: (S, Tid, Op, R) -> Option<S>)

  datatype Completed<Op, R> = Completed(thread: Tid, op: Op, result: R)

  /** The state after the operations of `h`, one at a time and in that order; `None` when one of them is impossible. */
  function AtomicRun<S, Op, R>(obj: Object<S, Op, R>, h: seq<Completed<Op, R>>): Option<S> {
    if h == [] then Some(obj.init)
    else
      match AtomicRun(obj, h[..|h| - 1])
      case None => None
      case Some(s) =>
        var last := h[|h| - 1];
        obj.apply(s, last.thread, last.op, last.result)
  }

  // ------------------------------------------------------------------- traces

  /** An operation is called, takes effect at one instant, and returns. */
  datatype Label<Op, R> =
    | Called(thread: Tid, op: Op)
    | Effected(thread: Tid, op: Op, result: R)
    | Returned(thread: Tid, op: Op, result: R)

  /** The operations of a trace in the order in which they take effect. */
  function Effects<Op, R>(trace: seq<Label<Op, R>>): seq<Completed<Op, R>> {
    if trace == [] then []
    else
      var last := trace[|trace| - 1];
      Effects(trace[..|trace| - 1]) + if last.Effected? then [Completed(last.thread, last.op, last.result)] else []
  }

  /** Where a thread stands between the calls and returns of a trace. */
  datatype Phase<Op, R> = Quiet | Pending(op: Op) | Decided(op: Op, result: R)

  /**
   The phase of thread `t` after `trace`; `None` unless every operation of `t` is called, takes effect exactly once, and
   then returns the result with which it took effect.
   */
  ghost function PhaseAfter<Op, R>(trace: seq<Label<Op, R>>, t: Tid): Option<Phase<Op, R>> {
    if trace == [] then Some(Quiet)
    else
      match PhaseAfter(trace[..|trace| - 1], t)
      case None => None
      case Some(phase) => PhaseStep(phase, trace[|trace| - 1], t)
  }

  ghost function PhaseStep<Op, R>(phase: Phase<Op, R>, seen: Label<Op, R>, t: Tid): Option<Phase<Op, R>> {
    if seen.thread != t then Some(phase)
    else
      match seen
      case Called(_, op) => if phase == Quiet then Some(Pending(op)) else None
      case Effected(_, op, r) => if phase == Pending(op) then Some(Decided(op, r)) else None
      case Returned(_, op, r) => if phase == Decided(op, r) then Some(Quiet) else None
  }

  // ------------------------------------------------------- counting ownership

  /** Which operations give a unit of ownership back, and which completed ones among the others take one. */
  datatype Holding<!Op, !R> = Holding(takes: (Op, R) -> bool, gives: Op -> bool)

  predicate Takes<Op, R>(k: Holding<Op, R>, op: Op, r: R) { !k.gives(op) && k.takes(op, r) }

  function Change<Op, R>(k: Holding<Op, R>, c: Completed<Op, R>): int {
    if Takes(k, c.op, c.result) then 1 else if k.gives(c.op) then -1 else 0
  }

  /** Units that the operations of `t` in `h` took, less those they gave back. */
  function Balance<Op, R>(k: Holding<Op, R>, h: seq<Completed<Op, R>>, t: Tid): int {
    if h == [] then 0
    else
      var last := h[|h| - 1];
      Balance(k, h[..|h| - 1], t) + if last.thread == t then Change(k, last) else 0
  }

  /** No thread, but perhaps `except`, holds a unit. */
  ghost predicate Unheld<Op, R>(k: Holding<Op, R>, h: seq<Completed<Op, R>>, except: Option<Tid>) {
    forall t: Tid :: except != Some(t) ==> Balance(k, h, t) == 0
  }

  /** Units that all threads together took, less those they gave back. */
  function Total<Op, R>(k: Holding<Op, R>, h: seq<Completed<Op, R>>): int {
    if h == [] then 0
    else
      Total(k, h[..|h| - 1]) + Change(k, h[|h| - 1])
  }

  /**
   What thread `t` itself can count: a unit from the return of the operation that took it until the call of the one
   that gives it back.
   */
  function Inside<Op, R>(k: Holding<Op, R>, trace: seq<Label<Op, R>>, t: Tid): int {
    if trace == [] then 0 else Inside(k, trace[..|trace| - 1], t) + InsideChange(k, trace[|trace| - 1], t)
  }

  function InsideChange<Op, R>(k: Holding<Op, R>, seen: Label<Op, R>, t: Tid): int {
    if seen.thread != t then 0
    else
      match seen
      case Called(_, op) => if k.gives(op) then -1 else 0
      case Effected(_, _, _) => 0
      case Returned(_, op, r) => if Takes(k, op, r) then 1 else 0
  }

  lemma EffectsSnoc<Op, R>(trace: seq<Label<Op, R>>, l: Label<Op, R>)
    ensures Effects(trace + [l]) ==
            Effects(trace) + if l.Effected? then [Completed(l.thread, l.op, l.result)] else []
  {
    assert (trace + [l])[..|trace|] == trace;
  }

  lemma AtomicRunSnoc<S, Op, R>(obj: Object<S, Op, R>, h: seq<Completed<Op, R>>, c: Completed<Op, R>)
    requires AtomicRun(obj, h).Some?
    ensures AtomicRun(obj, h + [c]) == obj.apply(AtomicRun(obj, h).value, c.thread, c.op, c.result)
  {
    assert (h + [c])[..|h|] == h;
  }

  lemma PhaseSnoc<Op, R>(trace: seq<Label<Op, R>>, l: Label<Op, R>, t: Tid)
    requires PhaseAfter(trace, t).Some?
    ensures PhaseAfter(trace + [l], t) == PhaseStep(PhaseAfter(trace, t).value, l, t)
  {
    assert (trace + [l])[..|trace|] == trace;
  }

  lemma BalanceSnoc<Op, R>(k: Holding<Op, R>, h: seq<Completed<Op, R>>, c: Completed<Op, R>, t: Tid)
    ensures Balance(k, h + [c], t) == Balance(k, h, t) +
              if c.thread == t then Change(k, c) else 0
  {
    assert (h + [c])[..|h|] == h;
  }

  /** The units a thread holds beyond its own count: one just taken, or one it is about to give back. */
  function Margin<Op, R>(k: Holding<Op, R>, phase: Phase<Op, R>): int {
    match phase
    case Quiet => 0
    case Pending(op) => if k.gives(op) then 1 else 0
    case Decided(op, r) => if Takes(k, op, r) then 1 else 0
  }

  lemma MarginStep<Op, R>(k: Holding<Op, R>, phase: Phase<Op, R>, l: Label<Op, R>, t: Tid)
    requires PhaseStep(phase, l, t).Some?
    ensures Margin(k, PhaseStep(phase, l, t).value) + InsideChange(k, l, t) == Margin(k, phase) +
              if l.Effected? && l.thread == t then Change(k, Completed(t, l.op, l.result)) else 0
  {
  }

  /** A thread's own count never exceeds the units it holds at that instant. */
  lemma {:induction false} InsideIsHeld<Op, R>(k: Holding<Op, R>, trace: seq<Label<Op, R>>, t: Tid)
    requires PhaseAfter(trace, t).Some?
    ensures Balance(k, Effects(trace), t) == Inside(k, trace, t) + Margin(k, PhaseAfter(trace, t).value)
  {
    if trace != [] {
      var before := trace[..|trace| - 1];
      var last := trace[|trace| - 1];
      InsideIsHeld(k, before, t);
      MarginStep(k, PhaseAfter(before, t).value, last, t);
      assert trace == before + [last];
      EffectsSnoc(before, last);
      if last.Effected? {
        BalanceSnoc(k, Effects(before), Completed(last.thread, last.op, last.result), t);
      } else {
        assert Effects(trace) == Effects(before);
      }
      hide Margin, InsideChange, Change, PhaseStep;
    }
  }
}
