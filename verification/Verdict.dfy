/**
 What a verify call decides from one looked-up key: the order of the checks,
 the rate limiter's part, and the response.
 */
module Verdict {
  import opened Domain

  datatype LimitDecision = LimitDecision(
    limitId: string,
    scopeKey: string,
    allowed: bool,
    remaining: int,
    retryAfterMs: int)

  datatype Consumed = Decisions(decisions: seq<LimitDecision>) | ConsumeFailed

  // No limiter configured, the standalone binary's fail-closed limiter, or
  // some outside service.
  datatype Limiter = NoLimiter | FailClosed | External

  datatype VerifyResult = VALID | NOT_FOUND | REVOKED | EXPIRED | DEPLETED | FORBIDDEN | RATE_LIMITED

  datatype Code = InvalidArgument | KeyNotFound | AlreadyExists | Internal | FailedPrecondition | Unavailable

  datatype VerifyRequest = VerifyRequest(
    plaintext: string,
    requiredPermissions: seq<string>,
    skipRatelimit: bool)

  datatype VerifyResponse = VerifyResponse(
    valid: bool,
    result: VerifyResult,
    keyId: string,
    apiId: string,
    workspaceId: string,
    ownerPrincipalId: string,
    permissions: seq<string>,
    limitDecisions: seq<LimitDecision>)

  datatype VerifyOutcome = Replied(response: VerifyResponse) | Failed(code: Code)

  // sha is the hash plaintexts are looked up by; nothing is assumed of it here.
  datatype Config = Config(sha: string -> Bytes, limiter: Limiter)

  function Deny(ref: LimitRef): LimitDecision {
    LimitDecision(ref.limitId, ref.scopeKey, false, 0, 0)
  }

  function DenyAll(refs: seq<LimitRef>): (ds: seq<LimitDecision>)
    ensures |ds| == |refs|
  {
    seq(|refs|, i requires 0 <= i < |refs| => Deny(refs[i]))
  }

  // One denied decision per reference, in order.
  method FailClosedConsume(refs: seq<LimitRef>) returns (out: seq<LimitDecision>)
    ensures out == DenyAll(refs)
    ensures forall i :: 0 <= i < |out| ==> out[i] == LimitDecision(refs[i].limitId, refs[i].scopeKey, false, 0, 0)
  {
    out := [];
    for i := 0 to |refs|
      invariant out == DenyAll(refs)[..i]
    {
      out := out + [LimitDecision(refs[i].limitId, refs[i].scopeKey, false, 0, 0)];
    }
  }

  // The limiter's answer: the fail-closed one is fixed by the references, any
  // other is the outside service's.
  function Consume(limiter: Limiter, refs: seq<LimitRef>, answer: Consumed): Consumed {
    if limiter.FailClosed? then Decisions(DenyAll(refs)) else answer
  }

  predicate AllAllowed(ds: seq<LimitDecision>) {
    forall d <- ds :: d.allowed
  }

  lemma DenyAllDenies(refs: seq<LimitRef>)
    ensures refs != [] ==> !AllAllowed(DenyAll(refs))
  {
    if refs != [] {
      assert DenyAll(refs)[0] in DenyAll(refs) && !DenyAll(refs)[0].allowed;
    }
  }

  predicate HasAllPermissions(have: seq<string>, required: seq<string>) {
    forall p <- required :: p in have
  }

  // Collects the held permissions into a set and looks up each required one.
  method CheckPermissions(have: seq<string>, required: seq<string>) returns (ok: bool)
    ensures ok <==> forall p <- required :: p in have
  {
    if |required| == 0 {
      return true;
    }
    var held: set<string> := {};
    for i := 0 to |have|
      invariant forall p :: p in held <==> p in have[..i]
    {
      held := held + {have[i]};
    }
    for i := 0 to |required|
      invariant HasAllPermissions(have, required[..i])
    {
      if required[i] !in held {
        assert required[i] !in have;
        return false;
      }
    }
    assert required[..|required|] == required;
    return true;
  }

  predicate Expired(k: Key, now: Time) {
    k.expiresAt.Some? && now >= k.expiresAt.value
  }

  // The checks made on the looked-up key alone, in order; None means go on.
  function LocalVerdict(k: Key, req: VerifyRequest, now: Time): Option<VerifyResult> {
    if !k.enabled then Some(REVOKED)
    else if Expired(k, now) then Some(EXPIRED)
    else if k.remainingUses == 0 then Some(DEPLETED)
    else if !HasAllPermissions(k.permissions, req.requiredPermissions) then Some(FORBIDDEN)
    else None
  }

  predicate NeedsLimiter(k: Key, req: VerifyRequest) {
    !req.skipRatelimit && |k.limitRefs| > 0
  }

  function Respond(k: Key, result: VerifyResult, decisions: seq<LimitDecision>): VerifyOutcome {
    Replied(VerifyResponse(result.VALID?, result, k.keyId, k.apiId, k.workspaceId, k.ownerPrincipalId, k.permissions, decisions))
  }

  const RESPONSE_NOT_FOUND := Replied(VerifyResponse(false, NOT_FOUND, "", "", "", "", [], []))

  // The decision reached before any write: a final outcome, or the limiter's
  // decisions to carry on with.
  datatype Screening = Stop(outcome: VerifyOutcome) | Proceed(decisions: seq<LimitDecision>)

  function Limit(limiter: Limiter, k: Key, req: VerifyRequest, answer: Consumed): Screening {
    if !NeedsLimiter(k, req) then
      Proceed([])
    else if limiter.NoLimiter? then
      Stop(Failed(FailedPrecondition))
    else
      match Consume(limiter, k.limitRefs, answer)
      case ConsumeFailed => Stop(Failed(Unavailable))
      case Decisions(ds) => if AllAllowed(ds) then Proceed(ds) else Stop(Respond(k, RATE_LIMITED, ds))
  }

  function Screen(limiter: Limiter, k: Key, req: VerifyRequest, now: Time, answer: Consumed): Screening {
    match LocalVerdict(k, req, now)
    case Some(v) => Stop(Respond(k, v, []))
    case None => Limit(limiter, k, req, answer)
  }
}
