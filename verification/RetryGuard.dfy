/**
 * The guard on immediate re-registration. The server's error 6005 means that it rejected the
 * authentication certificate; the guard allows one retry at once, then one per cooldown, and
 * forgets the cooldown when a registration succeeds.
 */
module RetryGuard {
  import opened Options

  const BAD_AUTHENTICATION := 6005

  datatype PushError =
    | LookupFailed(code: int)
    | AuthInvalid(code: int)
    | RegisterFailed(code: int)
    | DoNotRetry(inner: PushError)
    | ResourceFailure(retryWait: Option<nat>, error: PushError)
    | OtherError(text: string)

  datatype ResourceState =
    | Generated
    | Generating
    | Failed(retryWait: Option<nat>, error: PushError)
    | Closed

  datatype RegistrationStatus =
    | Registered
    | Registering
    | AuthExpired
    | TransientFailure(retryIn: nat)
    | LoggedOut

  // --- recognising the error ---

  predicate Is6005(e: PushError) {
    match e
    case LookupFailed(code) => code == BAD_AUTHENTICATION
    case AuthInvalid(code) => code == BAD_AUTHENTICATION
    case RegisterFailed(code) => code == BAD_AUTHENTICATION
    case DoNotRetry(inner) => Is6005(inner)
    case ResourceFailure(_, error) => Is6005(error)
    case OtherError(_) => false
  }

  /** The ways an error is wrapped on its way up. */
  datatype Layer = NoRetry | OfResource(retryWait: Option<nat>)

  function Wrap(layers: seq<Layer>, core: PushError): PushError {
    if layers == [] then core
    else
      var inner := Wrap(layers[1..], core);
      match layers[0]
      case NoRetry => DoNotRetry(inner)
      case OfResource(retryWait) => ResourceFailure(retryWait, inner)
  }

  /** However deep it is wrapped, the error is recognised, and nothing else is. */
  lemma {:induction false} WrappingHidesNothing(layers: seq<Layer>, core: PushError)
    requires !core.DoNotRetry? && !core.ResourceFailure?
    ensures Is6005(Wrap(layers, core)) <==>
            core in {LookupFailed(6005), AuthInvalid(6005), RegisterFailed(6005)}
    decreases |layers|
  {
    if layers != [] {
      WrappingHidesNothing(layers[1..], core);
    }
  }

  /** Every error is a core wrapped in some layers. */
  lemma {:induction false} Unwrap(e: PushError) returns (layers: seq<Layer>, core: PushError)
    ensures e == Wrap(layers, core) && !core.DoNotRetry? && !core.ResourceFailure?
    decreases e
  {
    match e {
      case DoNotRetry(inner) =>
        layers, core := Unwrap(inner);
        layers := [NoRetry] + layers;
      case ResourceFailure(retryWait, error) =>
        layers, core := Unwrap(error);
        layers := [OfResource(retryWait)] + layers;
      case _ =>
        layers, core := [], e;
    }
  }

  /** A rejected certificate is reported as such whether or not the resource means to retry. */
  function StatusFrom(state: ResourceState): (status: RegistrationStatus)
    ensures status.AuthExpired? <==> state.Failed? && Is6005(state.error)
    ensures status.LoggedOut? <==> state.Closed? || (state.Failed? && !Is6005(state.error) && state.retryWait.None?)
    ensures status.Registered? <==> state.Generated?
    ensures status.Registering? <==> state.Generating?
    ensures forall wait: nat :: status == TransientFailure(wait) <==>
              state.Failed? && !Is6005(state.error) && state.retryWait == Some(wait)
  {
    match state
    case Generated => Registered
    case Generating => Registering
    case Failed(retryWait, error) =>
      if Is6005(error) then AuthExpired
      else (match retryWait case Some(wait) => TransientFailure(wait) case None => LoggedOut)
    case Closed => LoggedOut
  }

  // --- the guard ---

  class Launch6005RetryGuard {
    const cooldown: nat
    var lastRetry: Option<nat>
    ghost var seen: seq<Sighting>

    ghost predicate Valid()
      reads this
    {
      lastRetry == LastRetry(cooldown, seen)
    }

    constructor (cooldown: nat)
      ensures Valid() && this.cooldown == cooldown && seen == []
    {
      this.cooldown, lastRetry, seen := cooldown, None, [];
    }

    /** Whether to re-register now, given a change of state at a time in seconds. */
    method Evaluate(state: ResourceState, now: nat) returns (retry: bool)
      requires Valid()
      modifies this
      ensures Valid() && seen == old(seen) + [Sighting(state, now)]
      ensures retry <==> Allowed(cooldown, seen, |seen| - 1)
    {
      ghost var before := seen;
      seen := seen + [Sighting(state, now)];
      assert seen[..|seen| - 1] == before && seen[..|seen|] == seen;
      retry := false;
      match state {
        case Generated => lastRetry := None;
        case Generating =>
        case Closed =>
        case Failed(_, error) =>
          if !Is6005(error) {
            return false;
          }
          match lastRetry {
            case None =>
              lastRetry := Some(now);
              retry := true;
            case Some(last) =>
              var waited := if now < last then 0 else now - last;
              if waited >= cooldown {
                lastRetry := Some(now);
                retry := true;
              }
          }
      }
    }
  }

  datatype Sighting = Sighting(state: ResourceState, now: nat)

  ghost predicate Rejected(s: Sighting) { s.state.Failed? && Is6005(s.state.error) }

  /** The saturating difference of two clock readings. */
  ghost function Waited(now: nat, last: nat): nat { if now < last then 0 else now - last }

  /** The time of the last retry since the last successful registration. */
  ghost function LastRetry(cooldown: nat, seen: seq<Sighting>): Option<nat> {
    if seen == [] then None
    else
      var before, s := LastRetry(cooldown, seen[..|seen| - 1]), seen[|seen| - 1];
      if s.state.Generated? then None
      else if Rejected(s) && (before.None? || Waited(s.now, before.value) >= cooldown) then Some(s.now)
      else before
  }

  ghost predicate Allowed(cooldown: nat, seen: seq<Sighting>, k: nat)
    requires k < |seen|
  {
    && Rejected(seen[k])
    && var before := LastRetry(cooldown, seen[..k]);
       before.None? || Waited(seen[k].now, before.value) >= cooldown
  }

  ghost function Retries(cooldown: nat, seen: seq<Sighting>): nat {
    if seen == [] then 0
    else Retries(cooldown, seen[..|seen| - 1]) + if Allowed(cooldown, seen, |seen| - 1) then 1 else 0
  }

  ghost function Successes(seen: seq<Sighting>): nat {
    if seen == [] then 0
    else Successes(seen[..|seen| - 1]) + if seen[|seen| - 1].state.Generated? then 1 else 0
  }

  ghost predicate NonDecreasing(seen: seq<Sighting>) {
    forall i, j :: 0 <= i < j < |seen| ==> seen[i].now <= seen[j].now
  }

  /** No successful registration strictly between two sightings. */
  ghost predicate NoSuccess(seen: seq<Sighting>, from: nat, upto: nat)
    requires upto <= |seen|
  {
    forall k :: from < k < upto ==> !seen[k].state.Generated?
  }

  /** A retry is allowed exactly when a rejection is seen and every retry since the last success is
      a cooldown ago, whatever the clock does. */
  lemma AllowedIff(cooldown: nat, seen: seq<Sighting>, k: nat)
    requires k < |seen| && cooldown > 0
    ensures Allowed(cooldown, seen, k) <==>
            && Rejected(seen[k])
            && forall i: nat :: i < k && Allowed(cooldown, seen, i) && NoSuccess(seen, i, k) ==>
                 seen[k].now >= seen[i].now + cooldown
  {
    LastRetryIsLatest(cooldown, seen, k);
  }

  lemma {:induction false} LastRetryIsLatest(cooldown: nat, seen: seq<Sighting>, k: nat)
    requires k <= |seen| && cooldown > 0
    ensures
      var last := LastRetry(cooldown, seen[..k]);
      && (last.Some? ==>
            exists i: nat :: i < k && Allowed(cooldown, seen, i) && NoSuccess(seen, i, k) && seen[i].now == last.value)
      && (forall i: nat :: i < k && Allowed(cooldown, seen, i) && NoSuccess(seen, i, k) ==>
            last.Some? && seen[i].now <= last.value)
    decreases k
  {
    if k > 0 {
      LastRetryIsLatest(cooldown, seen, k - 1);
      assert seen[..k][..k - 1] == seen[..k - 1];
      var before, last := LastRetry(cooldown, seen[..k - 1]), LastRetry(cooldown, seen[..k]);
      if Allowed(cooldown, seen, k - 1) {
        assert last == Some(seen[k - 1].now);
      }
      forall i: nat | i < k - 1 && Allowed(cooldown, seen, i) && NoSuccess(seen, i, k)
        ensures last.Some? && seen[i].now <= last.value
      {
        assert NoSuccess(seen, i, k - 1);
        assert !seen[k - 1].state.Generated?;
      }
    }
  }

  ghost function Times(cooldown: nat, n: nat): nat { if n == 0 then 0 else Times(cooldown, n - 1) + cooldown }

  lemma {:induction false} TimesIsProduct(cooldown: nat, n: nat)
    ensures Times(cooldown, n) == n * cooldown
  {
    if n > 0 {
      TimesIsProduct(cooldown, n - 1);
    }
  }

  lemma {:induction false} TimesAdds(cooldown: nat, a: nat, b: nat)
    ensures Times(cooldown, a + b) == Times(cooldown, a) + Times(cooldown, b)
  {
    if b > 0 {
      TimesAdds(cooldown, a, b - 1);
    }
  }

  lemma Quotient(cooldown: nat, t: nat)
    requires cooldown > 0
    ensures t < Times(cooldown, t / cooldown + 1)
  {
    TimesIsProduct(cooldown, t / cooldown + 1);
  }

  lemma TimesDivides(cooldown: nat, r: nat, g: nat, t: nat)
    requires cooldown > 0 && Times(cooldown, r) <= Times(cooldown, g) + t
    ensures r <= g + t / cooldown
  {
    Quotient(cooldown, t);
    TimesAdds(cooldown, g, t / cooldown + 1);
    TimesBelow(cooldown, r, g + (t / cooldown + 1));
  }

  lemma {:induction false} TimesBelow(cooldown: nat, a: nat, b: nat)
    requires Times(cooldown, a) < Times(cooldown, b)
    ensures a < b
    decreases b
  {
    if a > 0 && b > 0 {
      TimesBelow(cooldown, a - 1, b - 1);
    }
  }

  /** The rate of retries: at most one per success, one per cooldown, and one more. */
  lemma RetryRate(cooldown: nat, seen: seq<Sighting>)
    requires cooldown > 0 && seen != [] && NonDecreasing(seen)
    ensures Retries(cooldown, seen) <= Successes(seen) + 1 + (seen[|seen| - 1].now - seen[0].now) / cooldown
  {
    Budget(cooldown, seen);
    TimesDivides(cooldown, Retries(cooldown, seen), Successes(seen) + 1, seen[|seen| - 1].now - seen[0].now);
  }

  lemma {:induction false} Budget(cooldown: nat, seen: seq<Sighting>)
    requires cooldown > 0 && seen != [] && NonDecreasing(seen)
    ensures
      var last, now := LastRetry(cooldown, seen), seen[|seen| - 1].now;
      && (last.Some? ==> seen[0].now <= last.value <= now)
      && Times(cooldown, Retries(cooldown, seen)) <=
         Times(cooldown, Successes(seen))
         + (if last.Some? then last.value - seen[0].now + cooldown else now - seen[0].now)
    decreases |seen|
  {
    var front := seen[..|seen| - 1];
    if front == [] {
      assert Retries(cooldown, front) == 0 && Successes(front) == 0;
    } else {
      Budget(cooldown, front);
    }
  }
}
