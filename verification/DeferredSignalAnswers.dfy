/** What the operations of a deferred signal answer, told from the operations that took effect before them. */
module DeferredSignalAnswers {
  import opened Common
  import opened AtomicObjects
  import opened DeferredSignal
  import opened DeferredSignalTheorems

  type SignalHistory = seq<Completed<SignalOp, SignalResult>>

  predicate Gives(op: SignalOp) { op.Give? || op.GiveFromInterrupt? }

  /**
   After the operations `h` a signal that started as `initiallySet` is set: the last one that was not a timeout gave it, or
   there was none and it was set from the start.
   */
  ghost predicate IsSet(h: SignalHistory, initiallySet: bool) {
    || (exists j :: 0 <= j < |h| && Gives(h[j].op) && OnlyTimeouts(h, j + 1))
    || (initiallySet && OnlyTimeouts(h, 0))
  }

  predicate OnlyTimeouts(h: SignalHistory, from: nat) {
    forall k :: from <= k < |h| ==> h[k].result.Timeout?
  }

  /** The operation got the answer that it was due. */
  predicate Right(c: Completed<SignalOp, SignalResult>, isSet: bool) {
    c.result == Due(c.op, isSet)
  }

  lemma IsSetSnoc(h: SignalHistory, c: Completed<SignalOp, SignalResult>, initiallySet: bool)
    ensures IsSet(h + [c], initiallySet) <==> Gives(c.op) || (c.result.Timeout? && IsSet(h, initiallySet))
  {
    var g := h + [c];
    if Gives(c.op) {
      assert Gives(g[|h|].op) && OnlyTimeouts(g, |h| + 1);
    } else if c.result.Timeout? {
      if j :| 0 <= j < |h| && Gives(h[j].op) && OnlyTimeouts(h, j + 1) {
        assert g[j] == h[j] && OnlyTimeouts(g, j + 1);
      }
      if j :| 0 <= j < |g| && Gives(g[j].op) && OnlyTimeouts(g, j + 1) {
        assert g[j] == h[j];
        forall k | j + 1 <= k < |h| ensures h[k].result.Timeout? { assert g[k] == h[k]; }
      }
      forall k | 0 <= k < |h| ensures h[k] == g[k] { }
    } else {
      assert g[|h|] == c;
    }
  }

  ghost predicate AllRight(h: SignalHistory, initiallySet: bool) {
    forall i :: 0 <= i < |h| ==> Right(h[i], IsSet(h[..i], initiallySet))
  }

  lemma AllRightSnoc(h: SignalHistory, c: Completed<SignalOp, SignalResult>, initiallySet: bool)
    ensures AllRight(h + [c], initiallySet) <==> AllRight(h, initiallySet) && Right(c, IsSet(h, initiallySet))
  {
    hide IsSet, Right;
    var g := h + [c];
    forall i | 0 <= i < |h| ensures g[i] == h[i] && g[..i] == h[..i] { }
    assert g[|h|] == c && g[..|h|] == h;
    if AllRight(g, initiallySet) {
      forall i | 0 <= i < |h| ensures Right(h[i], IsSet(h[..i], initiallySet)) {
        assert Right(g[i], IsSet(g[..i], initiallySet));
      }
      assert Right(g[|h|], IsSet(g[..|h|], initiallySet));
    }
  }

  /** One more operation is possible exactly when it is answered rightly. */
  lemma NextRight(isSet: bool, c: Completed<SignalOp, SignalResult>)
    ensures SignalApply(isSet, c.thread, c.op, c.result).Some? <==> Right(c, isSet)
    ensures Right(c, isSet) ==>
              (SignalApply(isSet, c.thread, c.op, c.result).value <==> Gives(c.op) || (c.result.Timeout? && isSet))
  {
  }

  /** A history is one of a binary signal if and only if every operation in it is answered rightly. */
  lemma {:induction false} RightAnswersExactly(h: SignalHistory, initiallySet: bool)
    ensures AtomicRun(SignalObject(initiallySet), h).Some? <==> AllRight(h, initiallySet)
    ensures AtomicRun(SignalObject(initiallySet), h).Some? ==>
              (AtomicRun(SignalObject(initiallySet), h).value <==> IsSet(h, initiallySet))
  {
    if h == [] {
      assert OnlyTimeouts(h, 0);
    } else {
      hide IsSet, AllRight, Right, SignalApply;
      var before, last := h[..|h| - 1], h[|h| - 1];
      assert before + [last] == h;
      RightAnswersExactly(before, initiallySet);
      IsSetSnoc(before, last, initiallySet);
      AllRightSnoc(before, last, initiallySet);
      NextRight(IsSet(before, initiallySet), last);
    }
  }

  lemma RightAfter(h: SignalHistory, n: nat, i: nat, initiallySet: bool)
    requires n <= i < |h| && AtomicRun(SignalObject(initiallySet), h[n..]).Some?
    ensures Right(h[i], IsSet(h[n..i], initiallySet))
  {
    RightAnswersExactly(h[n..], initiallySet);
    hide AtomicRun, IsSet, Right;
    assert Right(h[n..][i - n], IsSet(h[n..][..i - n], initiallySet));
    assert h[n..][i - n] == h[i] && h[n..][..i - n] == h[n..i];
  }

  /**
   In every run: an operation that takes effect before the release store answers `Unavailable`. After it a `Wait` succeeds
   if and only if the last operation since the store that was not a timeout is a `Give` or a `GiveFromInterrupt`, or there
   is none and the signal is initially set, and else it times out; every other operation succeeds.
   */
  lemma AnswersAreRight(initiallySet: bool, slot: Option<ProviderId>, es: seq<Event>, i: nat)
    requires Run(Init(initiallySet, slot), es).Some? && i < |Effects(Trace(Init(initiallySet, slot), es))|
    ensures EffectsBeforeStore(Init(initiallySet, slot), es) <= |Effects(Trace(Init(initiallySet, slot), es))|
    ensures var h, n := Effects(Trace(Init(initiallySet, slot), es)), EffectsBeforeStore(Init(initiallySet, slot), es);
            if i < n then h[i].result == Unavailable
            else if h[i].op.Wait? then h[i].result == if IsSet(h[n..i], initiallySet) then Succeeded else Timeout
            else h[i].result == Succeeded
  {
    Linearizable(initiallySet, slot, es);
    var h, n := Effects(Trace(Init(initiallySet, slot), es)), EffectsBeforeStore(Init(initiallySet, slot), es);
    hide Run, Trace, Effects, PhasesAgree, EffectsBeforeStore, Inv, AtomicRun, IsSet;
    if n <= i { RightAfter(h, n, i, initiallySet); }
  }
}
