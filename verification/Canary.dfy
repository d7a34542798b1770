/** The build-time canary (src/canary.rs): a fresh session must reproduce a reference embedding within three
    runs before it serves; a persistent failure on a cached program wipes the slice and rebuilds once. */
module Canary {
  import opened Wrappers

  const SETTLE_ATTEMPTS: nat := 3
  const CANARY_MIN_COSINE: real := 0.99

  /** What one canary run came back as. */
  datatype Pass = Rejected | Short | Scored(cosine: real)

  predicate Clears(p: Pass) {
    p.Scored? && p.cosine >= CANARY_MIN_COSINE
  }

  /** One session the loader may produce and what its first three runs would say. */
  datatype Session = Session(loads: bool, passes: seq<Pass>)

  predicate Sound(s: Session) {
    |s.passes| == SETTLE_ATTEMPTS
  }

  datatype Outcome = Outcome(cosine: real, attempts: nat)

  datatype Failure = LoadFailed | RunRejected | NeverSettled(lastCosine: real)

  /** The engine is fit to serve: one of its first three runs cleared the bar. */
  predicate Verified(s: Session) {
    s.loads && exists i | 0 <= i < |s.passes| && i < SETTLE_ATTEMPTS :: Clears(s.passes[i])
  }

  /** The cosine of the last scored run among the first `n`, -1 when none scored. */
  function LastCosine(passes: seq<Pass>, n: nat): real
    requires n <= |passes|
  {
    if n == 0 then -1.0
    else if passes[n - 1].Scored? then passes[n - 1].cosine
    else LastCosine(passes, n - 1)
  }

  /** `cosine` is what the last scored one of the first `n` passes scored, -1 when none did. */
  ghost predicate IsLastCosine(passes: seq<Pass>, n: nat, cosine: real)
    requires n <= |passes|
  {
    || (cosine == -1.0 && forall i | 0 <= i < n :: !passes[i].Scored?)
    || exists i | 0 <= i < n :: passes[i] == Scored(cosine) && forall j | i < j < n :: !passes[j].Scored?
  }

  lemma {:induction false} LastCosineIsLast(passes: seq<Pass>, n: nat)
    requires n <= |passes|
    ensures IsLastCosine(passes, n, LastCosine(passes, n))
  {
    if n > 0 && !passes[n - 1].Scored? {
      LastCosineIsLast(passes, n - 1);
    }
  }

  method CanaryCheck(session: Session) returns (r: Result<Outcome, Failure>, runs: nat)
    requires Sound(session)
    ensures r.Ok? ==>
              && 1 <= r.value.attempts == runs <= 3
              && Clears(session.passes[runs - 1]) && r.value.cosine == session.passes[runs - 1].cosine >= 0.99
              && forall i | 0 <= i < runs - 1 :: !Clears(session.passes[i])
    ensures r.Err? ==>
              && runs == SETTLE_ATTEMPTS
              && (forall i | 0 <= i < SETTLE_ATTEMPTS :: !Clears(session.passes[i]))
              && (forall i | 0 <= i < 3 && session.passes[i].Scored? :: session.passes[i].cosine < 0.99)
              && (r.error.NeverSettled? ==> IsLastCosine(session.passes, 3, r.error.lastCosine))
              && r.error == if session.passes[2].Rejected? then RunRejected
                            else NeverSettled(LastCosine(session.passes, SETTLE_ATTEMPTS))
  {
    var lastCosine := -1.0;
    runs := 0;
    while runs < SETTLE_ATTEMPTS
      invariant runs <= SETTLE_ATTEMPTS
      invariant lastCosine == LastCosine(session.passes, runs)
      invariant forall i | 0 <= i < runs :: !Clears(session.passes[i])
      invariant runs == SETTLE_ATTEMPTS ==> !session.passes[2].Rejected?
    {
      var pass := session.passes[runs];
      runs := runs + 1;
      match pass {
        case Scored(cosine) =>
          if cosine >= CANARY_MIN_COSINE {
            return Ok(Outcome(cosine, runs)), runs;
          }
          lastCosine := cosine;
        case Short =>
        case Rejected =>
          if runs == SETTLE_ATTEMPTS {
            return Err(RunRejected), runs;
          }
      }
    }
    LastCosineIsLast(session.passes, SETTLE_ATTEMPTS);
    r := Err(NeverSettled(lastCosine));
  }

  /** What a session that fails its canary is refused with: its third run's own error, or that it never settled. */
  ghost predicate FailedWith(s: Session, failure: Failure)
    requires Sound(s)
  {
    match failure
    case LoadFailed => false
    case RunRejected => s.passes[2].Rejected?
    case NeverSettled(lastCosine) => !s.passes[2].Rejected? && IsLastCosine(s.passes, 3, lastCosine)
  }

  /** `load_validated_dual`: which of the two possible builds is handed out, if either is. */
  function Validated(first: Session, second: Session, cacheConfigured: bool): Option<Session> {
    if !first.loads then None
    else if Verified(first) then Some(first)
    else if cacheConfigured && Verified(second) then Some(second)
    else None
  }

  /** The served engine is one that passed its canary in this very build; the work is at most two loads, one
      wipe and six runs, and the second load happens exactly when a loaded session failed its canary over a
      configured cache. */
  method LoadValidated(first: Session, second: Session, cacheConfigured: bool)
    returns (r: Result<Session, Failure>, loads: nat, wipes: nat, runs: nat)
    requires Sound(first) && Sound(second)
    ensures r.Ok? <==> Validated(first, second, cacheConfigured).Some?
    ensures r.Ok? ==> r.value == Validated(first, second, cacheConfigured).value && Verified(r.value)
    ensures r.Ok? <==> (first.loads && Verified(first))
                       || (first.loads && !Verified(first) && cacheConfigured && second.loads && Verified(second))
    ensures r.Ok? ==> r.value == if Verified(first) then first else second
    ensures r.Err? && first.loads && !cacheConfigured ==> FailedWith(first, r.error)
    ensures r.Err? && wipes == 1 && second.loads ==> FailedWith(second, r.error)
    ensures loads <= 2 && wipes <= 1 && runs <= 6 && loads == wipes + 1
    ensures wipes == 1 <==> first.loads && !Verified(first) && cacheConfigured
    ensures r.Err? && r.error == LoadFailed <==> !first.loads || (wipes == 1 && !second.loads)
  {
    loads, wipes, runs := 1, 0, 0;
    if !first.loads {
      return Err(LoadFailed), loads, wipes, runs;
    }
    var check, firstRuns := CanaryCheck(first);
    runs := firstRuns;
    if check.Ok? {
      assert Clears(first.passes[firstRuns - 1]);
      return Ok(first), loads, wipes, runs;
    }
    if !cacheConfigured {
      return Err(check.error), loads, wipes, runs;
    }
    wipes, loads := 1, 2;
    if !second.loads {
      return Err(LoadFailed), loads, wipes, runs;
    }
    var again, secondRuns := CanaryCheck(second);
    runs := runs + secondRuns;
    if again.Ok? {
      assert Clears(second.passes[secondRuns - 1]);
      return Ok(second), loads, wipes, runs;
    }
    r := Err(again.error);
  }

}
