/**
 * The decision `verify_otp` takes: which of the user's enabled methods
 * accept the submitted OTP, and which one wins. The session write that
 * follows the decision is in TwoFactorController.
 */
module OtpVerification {
  import opened Wrappers
  import opened TwoFactorModel

  /** The methods the query with `where('enabled', true)` returns, in collection order. */
  function Candidates(ms: seq<TwoFactorMethod>): (r: seq<TwoFactorMethod>)
    ensures |r| <= |ms|
    ensures forall m :: m in r <==> m in ms && m.enabled
  {
    if ms == [] then []
    else (if ms[0].enabled then [ms[0]] else []) + Candidates(ms[1..])
  }

  /** The enabled methods of a concatenation are those of each part, in order. */
  lemma {:induction false} CandidatesAppend(a: seq<TwoFactorMethod>, b: seq<TwoFactorMethod>)
    ensures Candidates(a + b) == Candidates(a) + Candidates(b)
  {
    if a == [] {
      assert a + b == b;
    } else {
      assert (a + b)[0] == a[0] && (a + b)[1..] == a[1..] + b;
      CandidatesAppend(a[1..], b);
    }
  }

  /**
   * Whether checking `m` calls the remote verifier: it is not a time-based
   * method, the OTP parses locally, and its prefix equals the stored one.
   */
  predicate ReachesRemote(m: TwoFactorMethod, otp: string, env: Oracles)
    ensures UsesTotp(m) ==> !ReachesRemote(m, otp, env)
    ensures env.parsePrefix(otp).None? ==> !ReachesRemote(m, otp, env)
    ensures env.parsePrefix(otp).Some? && !UsesTotp(m)
        ==> (ReachesRemote(m, otp, env) <==> LooseEquals(m.yubikeyOtp, env.parsePrefix(otp).value))
  {
    !UsesTotp(m) && env.parsePrefix(otp).Some? && LooseEquals(m.yubikeyOtp, env.parsePrefix(otp).value)
  }

  /** The filter's verdict on a remote call: its return value, or false when it threw. */
  function RemoteVerdict(res: RemoteResult): (b: bool)
    ensures res.Returned? ==> b == res.ok
    ensures res.Threw? ==> !b
  {
    match res
    case Returned(ok) => ok
    case Threw(_) => false
  }

  /**
   * The filter closure on one method, when `k` remote calls were made
   * earlier in the request.
   */
  function Accepts(m: TwoFactorMethod, otp: string, env: Oracles, k: nat): (b: bool)
    ensures UsesTotp(m) ==> (b <==> env.totpValid(m.google2faSecret.value, otp, VerifyWindow))
    ensures !UsesTotp(m) && !ReachesRemote(m, otp, env) ==> !b
    ensures ReachesRemote(m, otp, env) ==> (b <==> env.remoteVerify(otp, RemoteTimeout, k) == Returned(true))
  {
    if UsesTotp(m) then env.totpValid(m.google2faSecret.value, otp, VerifyWindow)
    else if ReachesRemote(m, otp, env) then RemoteVerdict(env.remoteVerify(otp, RemoteTimeout, k))
    else false
  }

  /** The number of remote calls the filter makes over `cs`. */
  function RemoteCalls(cs: seq<TwoFactorMethod>, otp: string, env: Oracles): (n: nat)
    ensures n <= |cs|
  {
    if cs == [] then 0
    else (if ReachesRemote(cs[0], otp, env) then 1 else 0) + RemoteCalls(cs[1..], otp, env)
  }

  /** The filter makes no remote call exactly when no method's stored prefix matches the OTP's. */
  lemma {:induction false} NoRemoteCalls(cs: seq<TwoFactorMethod>, otp: string, env: Oracles)
    ensures RemoteCalls(cs, otp, env) == 0 <==> forall i :: 0 <= i < |cs| ==> !ReachesRemote(cs[i], otp, env)
  {
    if cs != [] {
      NoRemoteCalls(cs[1..], otp, env);
      assert forall i :: 1 <= i < |cs| ==> cs[i] == cs[1..][i - 1];
    }
  }

  /** `$correctOtps`: the candidates the filter keeps, in order; `k` remote calls precede `cs`. */
  function Matching(cs: seq<TwoFactorMethod>, otp: string, env: Oracles, k: nat): (r: seq<TwoFactorMethod>)
    ensures |r| <= |cs|
    ensures forall m :: m in r ==> m in cs
  {
    if cs == [] then []
    else
      (if Accepts(cs[0], otp, env, k) then [cs[0]] else [])
      + Matching(cs[1..], otp, env, k + (if ReachesRemote(cs[0], otp, env) then 1 else 0))
  }

  /** Whether the filter accepts the i-th candidate, counting the remote calls made before it. */
  predicate PassesAt(cs: seq<TwoFactorMethod>, otp: string, env: Oracles, k: nat, i: nat)
    requires i < |cs|
  {
    Accepts(cs[i], otp, env, k + RemoteCalls(cs[..i], otp, env))
  }

  /** No candidate is accepted: the count of `$correctOtps` is 0. */
  predicate AcceptsNone(cs: seq<TwoFactorMethod>, otp: string, env: Oracles, k: nat) {
    forall i :: 0 <= i < |cs| ==> !PassesAt(cs, otp, env, k, i)
  }

  /** The id `verify_otp` writes to the session (the first match), or None for "This OTP is not valid." */
  function Decide(methods: seq<TwoFactorMethod>, otp: string, env: Oracles): (r: Option<MethodId>)
    ensures Candidates(methods) == [] ==> r == None
    ensures r.Some? ==> exists m :: m in methods && m.enabled && m.id == r.value
  {
    var matched := Matching(Candidates(methods), otp, env, 0);
    if matched == [] then None else Some(matched[0].id)
  }

  lemma {:induction false} RemoteCallsAppend(a: seq<TwoFactorMethod>, b: seq<TwoFactorMethod>, otp: string, env: Oracles)
    ensures RemoteCalls(a + b, otp, env) == RemoteCalls(a, otp, env) + RemoteCalls(b, otp, env)
  {
    if a == [] {
      assert a + b == b;
    } else {
      assert (a + b)[1..] == a[1..] + b;
      RemoteCallsAppend(a[1..], b, otp, env);
    }
  }

  /** Filtering a concatenation filters each part, the second after the first part's remote calls. */
  lemma {:induction false} MatchingAppend(a: seq<TwoFactorMethod>, b: seq<TwoFactorMethod>, otp: string, env: Oracles, k: nat)
    ensures Matching(a + b, otp, env, k)
         == Matching(a, otp, env, k) + Matching(b, otp, env, k + RemoteCalls(a, otp, env))
  {
    if a == [] {
      assert a + b == b;
    } else {
      assert (a + b)[1..] == a[1..] + b;
      var k' := k + (if ReachesRemote(a[0], otp, env) then 1 else 0);
      MatchingAppend(a[1..], b, otp, env, k');
    }
  }

  /** Whether a candidate passes does not depend on the candidates after it. */
  lemma PassesAtPrefix(cs: seq<TwoFactorMethod>, otp: string, env: Oracles, k: nat, n: nat, i: nat)
    requires i < n <= |cs|
    ensures PassesAt(cs[..n], otp, env, k, i) == PassesAt(cs, otp, env, k, i)
  {
    assert cs[..n][..i] == cs[..i];
  }

  /** The remote calls up to and including position i. */
  lemma RemoteCallsSnoc(cs: seq<TwoFactorMethod>, otp: string, env: Oracles, i: nat)
    requires i < |cs|
    ensures RemoteCalls(cs[..i + 1], otp, env)
         == RemoteCalls(cs[..i], otp, env) + (if ReachesRemote(cs[i], otp, env) then 1 else 0)
  {
    assert cs[..i + 1] == cs[..i] + [cs[i]];
    RemoteCallsAppend(cs[..i], [cs[i]], otp, env);
    assert [cs[i]][1..] == [];
  }

  /** The filter over a non-empty suffix: the verdict on its first method, then the rest. */
  lemma MatchingSuffix(cs: seq<TwoFactorMethod>, otp: string, env: Oracles, k: nat, i: nat)
    requires i < |cs|
    ensures Matching(cs[i..], otp, env, k)
         == (if Accepts(cs[i], otp, env, k) then [cs[i]] else [])
          + Matching(cs[i + 1..], otp, env, k + (if ReachesRemote(cs[i], otp, env) then 1 else 0))
  {
  }

  /** Filtering split at position i: the prefix, then the suffix after the prefix's remote calls. */
  lemma MatchingPrefixSuffix(cs: seq<TwoFactorMethod>, otp: string, env: Oracles, k: nat, i: nat)
    requires i <= |cs|
    ensures Matching(cs, otp, env, k)
         == Matching(cs[..i], otp, env, k) + Matching(cs[i..], otp, env, k + RemoteCalls(cs[..i], otp, env))
  {
    assert cs == cs[..i] + cs[i..];
    MatchingAppend(cs[..i], cs[i..], otp, env, k);
  }

  /** Splitting the candidates at i: what precedes i, the verdict on i, and what follows. */
  lemma MatchingSplit(cs: seq<TwoFactorMethod>, otp: string, env: Oracles, k: nat, i: nat)
    requires i < |cs|
    ensures Matching(cs, otp, env, k)
         == Matching(cs[..i], otp, env, k)
          + (if PassesAt(cs, otp, env, k, i) then [cs[i]] else [])
          + Matching(cs[i + 1..], otp, env, k + RemoteCalls(cs[..i + 1], otp, env))
  {
    var k' := k + RemoteCalls(cs[..i], otp, env);
    MatchingPrefixSuffix(cs, otp, env, k, i);
    MatchingSuffix(cs, otp, env, k', i);
    RemoteCallsSnoc(cs, otp, env, i);
    assert PassesAt(cs, otp, env, k, i) == Accepts(cs[i], otp, env, k');
  }

  /**
   * Every candidate the filter accepts is kept: a method rejected earlier,
   * even one whose remote call threw, does not stop the later ones.
   */
  lemma MatchingComplete(cs: seq<TwoFactorMethod>, otp: string, env: Oracles, k: nat, i: nat)
    requires i < |cs| && PassesAt(cs, otp, env, k, i)
    ensures cs[i] in Matching(cs, otp, env, k)
  {
    MatchingSplit(cs, otp, env, k, i);
  }

  /** Every kept method is a candidate at a position the filter accepts. */
  lemma {:induction false} MatchingSound(cs: seq<TwoFactorMethod>, otp: string, env: Oracles, k: nat, m: TwoFactorMethod)
    requires m in Matching(cs, otp, env, k)
    ensures exists i :: 0 <= i < |cs| && cs[i] == m && PassesAt(cs, otp, env, k, i)
  {
    var i := |cs| - 1;
    MatchingSplit(cs, otp, env, k, i);
    assert cs[i + 1..] == [];
    if PassesAt(cs, otp, env, k, i) && m == cs[i] {
    } else {
      assert m in Matching(cs[..i], otp, env, k);
      MatchingSound(cs[..i], otp, env, k, m);
      var j :| 0 <= j < i && cs[..i][j] == m && PassesAt(cs[..i], otp, env, k, j);
      PassesAtPrefix(cs, otp, env, k, i, j);
    }
  }

  /** The filter keeps nothing exactly when it accepts no candidate. */
  lemma {:induction false} MatchingEmpty(cs: seq<TwoFactorMethod>, otp: string, env: Oracles, k: nat)
    ensures Matching(cs, otp, env, k) == [] <==> AcceptsNone(cs, otp, env, k)
  {
    if Matching(cs, otp, env, k) == [] {
      forall i | 0 <= i < |cs| ensures !PassesAt(cs, otp, env, k, i) {
        if PassesAt(cs, otp, env, k, i) {
          MatchingComplete(cs, otp, env, k, i);
        }
      }
      assert AcceptsNone(cs, otp, env, k);
    } else {
      MatchingSound(cs, otp, env, k, Matching(cs, otp, env, k)[0]);
    }
  }

  /** The first kept method is the earliest candidate the filter accepts. */
  lemma MatchingFirst(cs: seq<TwoFactorMethod>, otp: string, env: Oracles, k: nat, i: nat)
    requires i < |cs| && PassesAt(cs, otp, env, k, i)
    requires forall j :: 0 <= j < i ==> !PassesAt(cs, otp, env, k, j)
    ensures Matching(cs, otp, env, k) != [] && Matching(cs, otp, env, k)[0] == cs[i]
  {
    MatchingSplit(cs, otp, env, k, i);
    forall j | 0 <= j < i ensures !PassesAt(cs[..i], otp, env, k, j) {
      PassesAtPrefix(cs, otp, env, k, i, j);
    }
    MatchingEmpty(cs[..i], otp, env, k);
  }

  /** When no candidate reaches the remote verifier, the remote verifier cannot affect the filter. */
  lemma {:induction false} MatchingWithoutRemote(cs: seq<TwoFactorMethod>, otp: string, env: Oracles, k: nat,
                                                 verifier: (string, nat, nat) -> RemoteResult)
    requires RemoteCalls(cs, otp, env) == 0
    ensures Matching(cs, otp, env, k) == Matching(cs, otp, env.(remoteVerify := verifier), k)
  {
    if cs != [] {
      var env' := env.(remoteVerify := verifier);
      assert env'.parsePrefix == env.parsePrefix && env'.totpValid == env.totpValid;
      assert !ReachesRemote(cs[0], otp, env) && !ReachesRemote(cs[0], otp, env');
      assert Accepts(cs[0], otp, env, k) == Accepts(cs[0], otp, env', k);
      MatchingWithoutRemote(cs[1..], otp, env, k, verifier);
    }
  }

  /** No enabled method accepts the OTP exactly when verification fails; a user with none always fails. */
  lemma DecideNoMatch(methods: seq<TwoFactorMethod>, otp: string, env: Oracles)
    ensures Decide(methods, otp, env) == None <==> AcceptsNone(Candidates(methods), otp, env, 0)
  {
    var cs := Candidates(methods);
    MatchingEmpty(cs, otp, env, 0);
    assert Decide(methods, otp, env) == None <==> Matching(cs, otp, env, 0) == [];
  }

  /** The session receives the id of the earliest enabled method that accepts the OTP. */
  lemma DecideFirstMatch(methods: seq<TwoFactorMethod>, otp: string, env: Oracles, i: nat)
    requires i < |Candidates(methods)| && PassesAt(Candidates(methods), otp, env, 0, i)
    requires forall j :: 0 <= j < i ==> !PassesAt(Candidates(methods), otp, env, 0, j)
    ensures Decide(methods, otp, env) == Some(Candidates(methods)[i].id)
  {
    MatchingFirst(Candidates(methods), otp, env, 0, i);
  }

  /** When no enabled method's prefix matches, the decision makes no remote call and ignores the verifier. */
  lemma DecideWithoutRemote(methods: seq<TwoFactorMethod>, otp: string, env: Oracles,
                            verifier: (string, nat, nat) -> RemoteResult)
    requires RemoteCalls(Candidates(methods), otp, env) == 0
    ensures Decide(methods, otp, env) == Decide(methods, otp, env.(remoteVerify := verifier))
  {
    MatchingWithoutRemote(Candidates(methods), otp, env, 0, verifier);
  }

  /** A disabled method is never the one verification picks. */
  lemma DisabledNeverDecides(methods: seq<TwoFactorMethod>, otp: string, env: Oracles, i: nat)
    requires UniqueIds(methods) && i < |methods| && !methods[i].enabled
    ensures Decide(methods, otp, env) != Some(methods[i].id)
  {
  }

  /** After `update` turns a method's `enabled` off, verification can no longer pick it. */
  lemma DisableThenNeverDecides(methods: seq<TwoFactorMethod>, i: nat, name: Option<string>, otp: string, env: Oracles)
    requires UniqueIds(methods) && i < |methods|
    ensures Decide(methods[i := Patched(methods[i], Patch(name, Some(false)))], otp, env) != Some(methods[i].id)
  {
  }

  /** After `destroy` removes a method, verification can no longer pick its id. */
  lemma RemovedNeverDecides(methods: seq<TwoFactorMethod>, i: nat, otp: string, env: Oracles)
    requires UniqueIds(methods) && i < |methods|
    ensures Decide(methods[..i] + methods[i + 1..], otp, env) != Some(methods[i].id)
  {
  }
}
