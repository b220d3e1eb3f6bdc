/** The process-wide memory provider slot, which `SetProvider` exchanges atomically. */
module SlotExchange {
  import opened Common

  /** `SetProvider(null)` installs the default provider. */
  function Normal<P>(provider: Option<P>, default_: P): P {
    match provider
    case Some(p) => p
    case None => default_
  }

  /** A call of `SetProvider` by some thread. An interleaving of any threads' calls is a sequence of them. */
  datatype Exchange<P> = Exchange(thread: Tid, provider: Option<P>)

  function After<P>(slot: P, calls: seq<Exchange<P>>, default_: P): P {
    if calls == [] then slot else Normal(calls[|calls| - 1].provider, default_)
  }

  function Installed<P>(calls: seq<Exchange<P>>, default_: P): seq<P> {
    if calls == [] then []
    else Installed(calls[..|calls| - 1], default_) + [Normal(calls[|calls| - 1].provider, default_)]
  }

  /** What the calls return: each the value that it replaces. */
  function Returned<P>(slot: P, calls: seq<Exchange<P>>, default_: P): seq<P> {
    if calls == [] then []
    else Returned(slot, calls[..|calls| - 1], default_) + [After(slot, calls[..|calls| - 1], default_)]
  }

  /**
   Nothing is lost and nothing is made up: over every interleaving, the initial provider and the installed ones are, as a
   multiset, the returned ones and the one that is current.
   */
  lemma {:induction false} ExchangesConserve<P>(slot: P, calls: seq<Exchange<P>>, default_: P)
    ensures multiset([slot]) + multiset(Installed(calls, default_)) ==
            multiset(Returned(slot, calls, default_)) + multiset([After(slot, calls, default_)])
  {
    if calls != [] {
      ExchangesConserve(slot, calls[..|calls| - 1], default_);
    }
  }

  // ------------------------------------------------------------- save and restore

  /** Install a provider, run the scopes inside, and install again what the first call returned. */
  datatype Scope<P> = Scope(provider: Option<P>, inner: seq<Scope<P>>)

  /** The calls that one thread makes for well-nested scopes, when it finds `slot` installed. */
  function Calls<P>(t: Tid, slot: P, scopes: seq<Scope<P>>, default_: P): seq<Exchange<P>>
    decreases scopes
  {
    if scopes == [] then []
    else
      var s := scopes[0];
      var open := [Exchange(t, s.provider)] + Calls(t, Normal(s.provider, default_), s.inner, default_);
      open + [Exchange(t, Some(Returned(slot, open, default_)[0]))] + Calls(t, slot, scopes[1..], default_)
  }

  lemma AfterConcat<P>(slot: P, a: seq<Exchange<P>>, b: seq<Exchange<P>>, default_: P)
    ensures After(slot, a + b, default_) == After(After(slot, a, default_), b, default_)
  {
    if b == [] { assert a + b == a; }
  }

  lemma {:induction false} FirstReturned<P>(slot: P, calls: seq<Exchange<P>>, default_: P)
    ensures |Returned(slot, calls, default_)| == |calls|
    ensures calls != [] ==> Returned(slot, calls, default_)[0] == slot
  {
    if calls != [] { FirstReturned(slot, calls[..|calls| - 1], default_); }
  }

  /** Any tree of well-nested scopes leaves the slot as it found it. */
  lemma {:induction false} ScopesRestore<P>(t: Tid, slot: P, scopes: seq<Scope<P>>, default_: P)
    ensures After(slot, Calls(t, slot, scopes, default_), default_) == slot
    decreases scopes
  {
    if scopes != [] {
      var s := scopes[0];
      var open := [Exchange(t, s.provider)] + Calls(t, Normal(s.provider, default_), s.inner, default_);
      FirstReturned(slot, open, default_);
      var close := [Exchange(t, Some(slot))];
      AfterConcat(slot, open, close, default_);
      ScopesRestore(t, slot, scopes[1..], default_);
      AfterConcat(slot, open + close, Calls(t, slot, scopes[1..], default_), default_);
    }
  }

  /** Inside a scope, between its inner scopes and after them, the thread finds the scope's own provider. */
  lemma InnerScopesSeeTheirOwn<P>(t: Tid, slot: P, s: Scope<P>, n: nat, default_: P)
    requires n <= |s.inner|
    ensures After(slot, [Exchange(t, s.provider)] + Calls(t, Normal(s.provider, default_), s.inner[..n], default_), default_)
            == Normal(s.provider, default_)
  {
    var open := [Exchange(t, s.provider)];
    var p := Normal(s.provider, default_);
    AfterConcat(slot, open, Calls(t, p, s.inner[..n], default_), default_);
    ScopesRestore(t, p, s.inner[..n], default_);
  }
}
