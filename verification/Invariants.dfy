/**
 What every step of every interleaving keeps.
 */
module Invariants {
  import opened Domain
  import opened StoreSpec
  import opened Verdict
  import opened Rpc
  import opened Machine
  import Keymat

  // ------------------------------------------------------------------
  // The store, and each call against it
  // ------------------------------------------------------------------

  ghost predicate StoreOk(s: State) {
    IndexAgrees(s) && Tenancy(s) && forall id <- s.keys :: s.keys[id].remainingUses >= -1
  }

  // k is what some key looked like at an earlier moment.
  predicate Snapshot(s: State, k: Key) {
    k.keyId in s.keys && KeyEvolves(k, s.keys[k.keyId])
  }

  predicate Passed(k: Key, req: VerifyRequest) {
    k.enabled && k.remainingUses != 0 && HasAllPermissions(k.permissions, req.requiredPermissions)
  }

  // The rate limiter let the call through, or was rightly not asked.
  predicate Cleared(limiter: Limiter, k: Key, req: VerifyRequest, ds: seq<LimitDecision>) {
    if NeedsLimiter(k, req)
    then !limiter.NoLimiter? && AllAllowed(ds) && (limiter.FailClosed? ==> ds == DenyAll(k.limitRefs))
    else ds == []
  }

  // What a verdict says about the key it names, now and from now on.
  predicate VerdictHolds(cfg: Config, k: Key, req: VerifyRequest, r: VerifyResponse, at: Time) {
    match r.result
    case VALID =>
      && k.lastVerifiedAt.Some?
      && HasAllPermissions(k.permissions, req.requiredPermissions)
      && Cleared(cfg.limiter, k, req, r.limitDecisions)
    case REVOKED => !k.enabled
    case EXPIRED => Expired(k, at)
    case DEPLETED => k.remainingUses == 0
    case FORBIDDEN => !HasAllPermissions(k.permissions, req.requiredPermissions)
    case RATE_LIMITED =>
      && NeedsLimiter(k, req) && !AllAllowed(r.limitDecisions)
      && (cfg.limiter.FailClosed? ==> r.limitDecisions == DenyAll(k.limitRefs))
    case NOT_FOUND => false
  }

  predicate ResponseOk(cfg: Config, s: State, req: VerifyRequest, r: VerifyResponse, at: Time) {
    && (r.valid <==> r.result.VALID?)
    && (r.result.NOT_FOUND? || (
          && r.keyId in s.keys
          && var k := s.keys[r.keyId];
             && r.apiId == k.apiId && r.workspaceId == k.workspaceId
             && r.ownerPrincipalId == k.ownerPrincipalId && r.permissions == k.permissions
             && VerdictHolds(cfg, k, req, r, at)))
  }

  predicate VerifyOk(cfg: Config, s: State, req: VerifyRequest, stage: VerifyStage) {
    match stage
    case Lookup => true
    case Check(k) => Snapshot(s, k)
    case Consult(k) => Snapshot(s, k) && Passed(k, req) && NeedsLimiter(k, req) && !cfg.limiter.NoLimiter?
    case Spend(k, ds) => Snapshot(s, k) && Passed(k, req) && Cleared(cfg.limiter, k, req, ds) && k.remainingUses > 0
    case Touch(k, ds) => Snapshot(s, k) && Passed(k, req) && Cleared(cfg.limiter, k, req, ds)
    case Answered(outcome, at) =>
      if outcome.Replied? then ResponseOk(cfg, s, req, outcome.response, at)
      else outcome.code == FailedPrecondition || outcome.code == Unavailable
  }

  predicate CallOk(cfg: Config, s: State, call: Call) {
    match call
    case Verify(req, stage) => VerifyOk(cfg, s, req, stage)
    case Create(req, stage) => stage.Insert? ==> stage.api.apiId in s.apis && s.apis[stage.api.apiId] == stage.api
    case Rotate(id, stage) => (stage.ReadKeyApi? ==> stage.key.keyId == id && Snapshot(s, stage.key)) && (stage.Commit? ==> id in s.keys)
    case Revoke(id, reply) => reply == Some(RevokedReply) ==> id in s.keys && !s.keys[id].enabled
    case NewWorkspace(_, _) => true
    case NewApi(_, _) => true
    case Read(_, _) => true
  }

  ghost predicate CallsOk(cfg: Config, w: World) {
    StoreOk(w.store) && forall c <- w.calls :: CallOk(cfg, w.store, w.calls[c])
  }

  // What a call has established stays true as the store evolves.
  lemma CallOkStable(cfg: Config, s: State, s': State, call: Call)
    requires Evolves(s, s') && CallOk(cfg, s, call)
    ensures CallOk(cfg, s', call)
  {
  }

  ghost predicate OpOk(s: State, op: Op) {
    Fresh(s, op) && InTenant(s, op) && (op.OpCreateKey? ==> op.k.remainingUses >= -1)
  }

  lemma OpKeepsUses(s: State, op: Op)
    requires StoreOk(s) && OpOk(s, op)
    ensures forall id <- Do(s, op).keys :: Do(s, op).keys[id].remainingUses >= -1
  {
  }

  lemma OpKeepsStore(s: State, op: Op)
    requires StoreOk(s) && OpOk(s, op)
    ensures StoreOk(Do(s, op)) && Evolves(s, Do(s, op))
  {
    OpKeepsIndex(s, op);
    OpKeepsTenancy(s, op);
    OpKeepsUses(s, op);
    OpEvolves(s, op);
  }

  // A verdict true of the snapshot is true of the key as it is now.
  lemma RespondOk(cfg: Config, s: State, k: Key, req: VerifyRequest, v: VerifyResult, ds: seq<LimitDecision>, at: Time)
    requires Snapshot(s, k) && VerdictHolds(cfg, k, req, Respond(k, v, ds).response, at)
    ensures ResponseOk(cfg, s, req, Respond(k, v, ds).response, at)
  {
    var now := s.keys[k.keyId];
    assert Frozen(k) == Frozen(now);
    assert k.permissions == now.permissions && k.limitRefs == now.limitRefs && k.expiresAt == now.expiresAt;
  }

  lemma CheckStepOk(cfg: Config, s: State, req: VerifyRequest, k: Key, env: Env)
    requires Snapshot(s, k)
    ensures VerifyOk(cfg, s, req, StepVerify(cfg, s, req, Check(k), env).1)
  {
    var v := LocalVerdict(k, req, env.checkAt);
    if v.Some? {
      RespondOk(cfg, s, k, req, v.value, [], env.checkAt);
    }
  }

  lemma ConsultStepOk(cfg: Config, s: State, req: VerifyRequest, k: Key, env: Env)
    requires VerifyOk(cfg, s, req, Consult(k))
    ensures VerifyOk(cfg, s, req, StepVerify(cfg, s, req, Consult(k), env).1)
  {
    var answer := Consume(cfg.limiter, k.limitRefs, env.answer);
    if answer.Decisions? && !AllAllowed(answer.decisions) {
      RespondOk(cfg, s, k, req, RATE_LIMITED, answer.decisions, env.checkAt);
    }
  }

  lemma SpendStepOk(cfg: Config, s: State, req: VerifyRequest, k: Key, ds: seq<LimitDecision>, env: Env)
    requires StoreOk(s) && VerifyOk(cfg, s, req, Spend(k, ds))
    ensures VerifyOk(cfg, Do(s, OpDecrement(k.keyId, env.storeAt)), req, StepVerify(cfg, s, req, Spend(k, ds), env).1)
  {
    var now, op := s.keys[k.keyId], OpDecrement(k.keyId, env.storeAt);
    assert now.remainingUses >= 0;
    if now.remainingUses == 0 {
      assert Do(s, op) == s;
      RespondOk(cfg, s, now, req, DEPLETED, ds, env.checkAt);
    } else {
      assert Snapshot(Do(s, op), k);
    }
  }

  lemma TouchStepOk(cfg: Config, s: State, req: VerifyRequest, k: Key, ds: seq<LimitDecision>, env: Env)
    requires VerifyOk(cfg, s, req, Touch(k, ds))
    ensures VerifyOk(cfg, Do(s, OpTouch(k.keyId, env.touchAt)), req, StepVerify(cfg, s, req, Touch(k, ds), env).1)
  {
    var s' := Do(s, OpTouch(k.keyId, env.touchAt));
    assert Snapshot(s', k);
    assert Frozen(k) == Frozen(s'.keys[k.keyId]);
  }

  lemma VerifyStepOk(cfg: Config, s: State, req: VerifyRequest, stage: VerifyStage, env: Env)
    requires StoreOk(s) && !stage.Answered? && VerifyOk(cfg, s, req, stage)
    ensures var (op, stage') := StepVerify(cfg, s, req, stage, env);
            (op.Some? ==> OpOk(s, op.value)) &&
            VerifyOk(cfg, if op.Some? then Do(s, op.value) else s, req, stage')
  {
    match stage
    case Lookup =>
    case Check(k) => CheckStepOk(cfg, s, req, k, env);
    case Consult(k) => ConsultStepOk(cfg, s, req, k, env);
    case Spend(k, ds) => SpendStepOk(cfg, s, req, k, ds, env);
    case Touch(k, ds) => TouchStepOk(cfg, s, req, k, ds, env);
  }

  lemma CreateStepOk(cfg: Config, s: State, call: Call, env: Env)
    requires StoreOk(s) && !Finished(call) && CallOk(cfg, s, call) && FreshEnv(s, env) && call.Create?
    ensures var eff := Advance(cfg, s, call, env);
            (eff.op.Some? ==> OpOk(s, eff.op.value)) && CallOk(cfg, StoreAfter(s, eff), eff.call)
  {
  }

  lemma RotateStepOk(cfg: Config, s: State, call: Call, env: Env)
    requires StoreOk(s) && !Finished(call) && CallOk(cfg, s, call) && FreshEnv(s, env) && call.Rotate?
    ensures var eff := Advance(cfg, s, call, env);
            (eff.op.Some? ==> OpOk(s, eff.op.value)) && CallOk(cfg, StoreAfter(s, eff), eff.call)
  {
  }

  lemma OneStepOk(cfg: Config, s: State, call: Call, env: Env)
    requires StoreOk(s) && !Finished(call) && CallOk(cfg, s, call) && FreshEnv(s, env)
    requires !call.Verify? && !call.Create? && !call.Rotate?
    ensures var eff := Advance(cfg, s, call, env);
            (eff.op.Some? ==> OpOk(s, eff.op.value)) && CallOk(cfg, StoreAfter(s, eff), eff.call)
  {
  }

  lemma IssueStepOk(cfg: Config, s: State, call: Call, env: Env)
    requires StoreOk(s) && !Finished(call) && CallOk(cfg, s, call) && FreshEnv(s, env) && !call.Verify?
    ensures var eff := Advance(cfg, s, call, env);
            (eff.op.Some? ==> OpOk(s, eff.op.value)) && CallOk(cfg, StoreAfter(s, eff), eff.call)
  {
    if call.Create? {
      CreateStepOk(cfg, s, call, env);
    } else if call.Rotate? {
      RotateStepOk(cfg, s, call, env);
    } else {
      OneStepOk(cfg, s, call, env);
    }
  }

  lemma StepOk(cfg: Config, s: State, call: Call, env: Env)
    requires StoreOk(s) && !Finished(call) && CallOk(cfg, s, call) && FreshEnv(s, env)
    ensures var eff := Advance(cfg, s, call, env);
            StoreOk(StoreAfter(s, eff)) && Evolves(s, StoreAfter(s, eff)) && CallOk(cfg, StoreAfter(s, eff), eff.call)
  {
    var eff := Advance(cfg, s, call, env);
    if call.Verify? {
      VerifyStepOk(cfg, s, call.req, call.verify, env);
    } else {
      IssueStepOk(cfg, s, call, env);
    }
    if eff.op.Some? {
      OpKeepsStore(s, eff.op.value);
    }
  }

  lemma ApplyKeepsCalls(cfg: Config, w: World, e: Event)
    requires CallsOk(cfg, w) && Enabled(w, e)
    ensures CallsOk(cfg, Apply(cfg, w, e)) && Evolves(w.store, Apply(cfg, w, e).store)
  {
    if e.Step? {
      var w' := Apply(cfg, w, e);
      StepOk(cfg, w.store, w.calls[e.c], e.env);
      forall c | c in w'.calls ensures CallOk(cfg, w'.store, w'.calls[c]) {
        if c != e.c {
          CallOkStable(cfg, w.store, w'.store, w.calls[c]);
        }
      }
    }
  }

  lemma {:induction false} RunKeepsCalls(cfg: Config, w: World, es: seq<Event>)
    requires CallsOk(cfg, w) && Legal(cfg, w, es)
    ensures CallsOk(cfg, Exec(cfg, w, es)) && Evolves(w.store, Exec(cfg, w, es).store)
  {
    if es != [] {
      var mid := Exec(cfg, w, es[..|es| - 1]);
      RunKeepsCalls(cfg, w, es[..|es| - 1]);
      ApplyKeepsCalls(cfg, mid, es[|es| - 1]);
      EvolvesTransitive(w.store, mid.store, Exec(cfg, w, es).store);
    }
  }

  // ------------------------------------------------------------------
  // Credit
  // ------------------------------------------------------------------

  // A call that has answered VALID for this key.
  predicate ValidOn(call: Call, id: string) {
    call.Verify? && call.verify.Answered? && call.verify.outcome.Replied? &&
    call.verify.outcome.response.valid && call.verify.outcome.response.keyId == id
  }

  // A call past its decrement of this key: about to touch it, or answered VALID.
  predicate SpentOn(call: Call, id: string) {
    ValidOn(call, id) ||
    (call.Verify? && call.verify.Touch? && call.verify.key.keyId == id && call.verify.key.remainingUses > 0)
  }

  function Spenders(calls: map<nat, Call>, id: string): set<nat> {
    set c | c in calls && SpentOn(calls[c], id)
  }

  ghost predicate CreditKept(w: World, id: string)
    requires id in w.store.keys && id in w.minted
  {
    var left, minted := w.store.keys[id].remainingUses, w.minted[id];
    if minted < 0 then left == minted == -1
    else minted > 0 && left >= 0 && left + |Spenders(w.calls, id)| == minted
  }

  ghost predicate CreditOk(w: World) {
    w.minted.Keys == w.store.keys.Keys && forall id <- w.minted :: CreditKept(w, id)
  }

  lemma SpendersUpdate(calls: map<nat, Call>, c: nat, call: Call, id: string)
    requires c in calls ==> (SpentOn(calls[c], id) ==> SpentOn(call, id))
    ensures var sp, sp' := Spenders(calls, id), Spenders(calls[c := call], id);
            if SpentOn(call, id) && c !in sp then sp' == sp + {c} && |sp'| == |sp| + 1 else sp' == sp
  {
    var sp := Spenders(calls, id);
    if SpentOn(call, id) && c !in sp {
      assert Spenders(calls[c := call], id) == sp + {c};
    } else {
      assert Spenders(calls[c := call], id) == sp;
    }
  }

  lemma NewKeyUnspent(cfg: Config, w: World, id: string)
    requires CallsOk(cfg, w) && id !in w.store.keys
    ensures Spenders(w.calls, id) == {}
  {
    forall c | c in w.calls ensures !SpentOn(w.calls[c], id) {
      assert CallOk(cfg, w.store, w.calls[c]);
    }
  }

  // Which operation changes which field of an existing key.
  lemma FieldsKept(s: State, op: Op, id: string)
    requires id in s.keys && Fresh(s, op)
    ensures id in Do(s, op).keys
    ensures var k, k' := s.keys[id], Do(s, op).keys[id];
            && ((op.OpDecrement? && op.id == id) || k'.remainingUses == k.remainingUses)
            && ((op.OpTouch? && op.id == id) || k'.lastVerifiedAt == k.lastVerifiedAt)
            && ((op.OpRotate? && op.id == id) || k'.keyHash == k.keyHash)
  {
  }

  lemma OnlyCreateAddsKeys(s: State, op: Op)
    ensures Do(s, op).keys.Keys == s.keys.Keys + (if op.OpCreateKey? && StoreSpec.CreateKey(s, op.k, op.id, op.now).1.Ok? then {op.id} else {})
  {
  }

  // Create, rotate, revoke and tenant calls never spend and never touch, and
  // issue exactly when their hash write succeeds.
  lemma NonVerifyEffect(cfg: Config, s: State, call: Call, env: Env)
    requires !Finished(call) && !call.Verify? && FreshEnv(s, env)
    ensures var eff := Advance(cfg, s, call, env);
            && !eff.call.Verify?
            && (eff.op.Some? ==> Fresh(s, eff.op.value) && !eff.op.value.OpDecrement? && !eff.op.value.OpTouch?)
            && (eff.op.Some? && eff.op.value.OpCreateKey? ==>
                  && (eff.issue.Some? <==> StoreSpec.CreateKey(s, eff.op.value.k, eff.op.value.id, eff.op.value.now).1.Ok?)
                  && (eff.issue.Some? ==> eff.issue.value.keyId == eff.op.value.id)
                  && (eff.op.value.k.remainingUses == -1 || eff.op.value.k.remainingUses > 0)
                  && eff.op.value.k.lastVerifiedAt.None?)
            && (eff.issue.Some? ==> eff.op.Some? && (eff.op.value.OpCreateKey? || eff.op.value.OpRotate?))
  {
  }

  lemma VerifyEffect(cfg: Config, s: State, call: Call, env: Env)
    requires !Finished(call) && call.Verify?
    ensures var eff := Advance(cfg, s, call, env);
            && eff.call.Verify? && eff.issue.None? && eff.made.None?
            && (eff.op.Some? <==> call.verify.Spend? || call.verify.Touch?)
            && (eff.op.Some? ==> eff.op.value.id == call.verify.key.keyId)
            && (call.verify.Spend? ==> eff.op.value.OpDecrement?)
            && (call.verify.Touch? ==> eff.op.value.OpTouch?)
  {
  }

  // A verify step lowers a credit key's remaining uses by one exactly when it
  // makes the call a spender of it.
  lemma VerifySpends(cfg: Config, s: State, call: Call, env: Env, id: string)
    requires StoreOk(s) && !Finished(call) && call.Verify? && CallOk(cfg, s, call) && id in s.keys
    ensures var eff := Advance(cfg, s, call, env);
            var left, left' := s.keys[id].remainingUses, StoreAfter(s, eff).keys[id].remainingUses;
            && id in StoreAfter(s, eff).keys
            && (left < 0 ==> left' == left)
            && (left >= 0 ==>
                  && (SpentOn(call, id) ==> SpentOn(eff.call, id))
                  && left' == (if SpentOn(eff.call, id) && !SpentOn(call, id) then left - 1 else left)
                  && left' >= 0)
  {
    match call.verify
    case Lookup =>
    case Check(k) =>
    case Consult(k) =>
    case Spend(k, ds) =>
    case Touch(k, ds) =>
  }

  lemma StepKeepsCreditOf(cfg: Config, w: World, c: nat, env: Env, id: string)
    requires CallsOk(cfg, w) && CreditOk(w) && Enabled(w, Step(c, env)) && id in w.store.keys
    ensures var w' := Apply(cfg, w, Step(c, env)); id in w'.store.keys && id in w'.minted && CreditKept(w', id)
  {
    var call := w.calls[c];
    var eff := Advance(cfg, w.store, call, env);
    assert CallOk(cfg, w.store, call) && CreditKept(w, id);
    if call.Verify? {
      VerifySpends(cfg, w.store, call, env, id);
      VerifyEffect(cfg, w.store, call, env);
    } else {
      NonVerifyEffect(cfg, w.store, call, env);
      if eff.op.Some? { FieldsKept(w.store, eff.op.value, id); }
    }
    if w.minted[id] > 0 {
      SpendersUpdate(w.calls, c, eff.call, id);
    }
  }

  // A key appears exactly when a create call issues it, with the uses drafted.
  lemma EffectMints(cfg: Config, s: State, call: Call, env: Env)
    requires !Finished(call) && FreshEnv(s, env)
    ensures var eff := Advance(cfg, s, call, env);
            var s', mints := StoreAfter(s, eff), eff.issue.Some? && eff.op.Some? && eff.op.value.OpCreateKey?;
            && s'.keys.Keys == s.keys.Keys + (if mints then {eff.op.value.id} else {})
            && (mints ==>
                  var uses := eff.op.value.k.remainingUses;
                  eff.op.value.id !in s.keys && (uses == -1 || uses > 0) && s'.keys[eff.op.value.id].remainingUses == uses)
  {
    var eff := Advance(cfg, s, call, env);
    if call.Verify? {
      VerifyEffect(cfg, s, call, env);
    } else {
      NonVerifyEffect(cfg, s, call, env);
    }
    if eff.op.Some? { OnlyCreateAddsKeys(s, eff.op.value); }
  }

  lemma StepMintsKeys(cfg: Config, w: World, c: nat, env: Env)
    requires w.minted.Keys == w.store.keys.Keys && Enabled(w, Step(c, env))
    ensures var w' := Apply(cfg, w, Step(c, env));
            && w'.minted.Keys == w'.store.keys.Keys
            && forall id <- w'.minted ::
                 if id in w.minted then w'.minted[id] == w.minted[id]
                 else (w'.minted[id] == -1 || w'.minted[id] > 0) && w'.store.keys[id].remainingUses == w'.minted[id]
  {
    EffectMints(cfg, w.store, w.calls[c], env);
  }

  lemma StepMints(cfg: Config, w: World, c: nat, env: Env)
    requires CallsOk(cfg, w) && CreditOk(w) && Enabled(w, Step(c, env))
    ensures var w' := Apply(cfg, w, Step(c, env));
            w'.minted.Keys == w'.store.keys.Keys && forall id <- w'.minted :: id !in w.minted ==> CreditKept(w', id)
  {
    var call, w' := w.calls[c], Apply(cfg, w, Step(c, env));
    StepMintsKeys(cfg, w, c, env);
    forall id | id in w'.minted && id !in w.minted ensures CreditKept(w', id) {
      NewKeyUnspent(cfg, w, id);
      var call' := w'.calls[c];
      NewSpender(cfg, w.store, call, env, id);
      SpendersUpdate(w.calls, c, call', id);
    }
  }

  lemma NewSpender(cfg: Config, s: State, call: Call, env: Env, id: string)
    requires StoreOk(s) && !Finished(call) && CallOk(cfg, s, call) && id !in s.keys
    ensures !SpentOn(Advance(cfg, s, call, env).call, id)
  {
    if call.Verify? {
      VerifyEffect(cfg, s, call, env);
    }
  }

  lemma ApplyKeepsCredit(cfg: Config, w: World, e: Event)
    requires CallsOk(cfg, w) && CreditOk(w) && Enabled(w, e)
    ensures CreditOk(Apply(cfg, w, e))
  {
    var w' := Apply(cfg, w, e);
    match e
    case Begin(c, call) =>
      forall id | id in w'.minted ensures CreditKept(w', id) {
        assert CreditKept(w, id);
        SpendersUpdate(w.calls, c, call, id);
      }
    case Step(c, env) =>
      StepMints(cfg, w, c, env);
      forall id | id in w.minted ensures CreditKept(w', id) {
        StepKeepsCreditOf(cfg, w, c, env, id);
      }
  }

  // A finished create call's key was created with the uses the call asked for.
  predicate MintedAsAsked(w: World, call: Call) {
    call.Create? && call.create.Created? && call.create.reply.KeyReply? ==>
      var id := call.create.reply.key.keyId;
      id in w.minted && w.minted[id] == InitialUses(call.creq.remainingUses)
  }

  ghost predicate MintedOk(w: World) {
    forall c <- w.calls :: MintedAsAsked(w, w.calls[c])
  }

  lemma StepMintsAsAsked(cfg: Config, w: World, c: nat, env: Env)
    requires Enabled(w, Step(c, env))
    ensures var w' := Apply(cfg, w, Step(c, env)); MintedAsAsked(w', w'.calls[c])
  {
    if w.calls[c].Verify? {
      VerifyEffect(cfg, w.store, w.calls[c], env);
    }
  }

  lemma ApplyKeepsMinted(cfg: Config, w: World, e: Event)
    requires CreditOk(w) && MintedOk(w) && Enabled(w, e)
    ensures MintedOk(Apply(cfg, w, e))
  {
    var w' := Apply(cfg, w, e);
    if e.Step? {
      StepMintsKeys(cfg, w, e.c, e.env);
      StepMintsAsAsked(cfg, w, e.c, e.env);
    }
    forall c | c in w'.calls ensures MintedAsAsked(w', w'.calls[c]) {
      assert c != e.c ==> MintedAsAsked(w, w.calls[c]);
    }
  }

  // ------------------------------------------------------------------
  // The last-verified stamp
  // ------------------------------------------------------------------

  ghost predicate TouchedBy(w: World, id: string) {
    exists c :: c in w.calls && ValidOn(w.calls[c], id)
  }

  ghost predicate TouchOk(w: World) {
    forall id <- w.store.keys :: w.store.keys[id].lastVerifiedAt.Some? <==> TouchedBy(w, id)
  }

  lemma StepTouches(cfg: Config, s: State, call: Call, env: Env, id: string)
    requires !Finished(call) && CallOk(cfg, s, call) && FreshEnv(s, env)
    ensures var eff := Advance(cfg, s, call, env);
            var s' := StoreAfter(s, eff);
            && (id in s.keys ==>
                  && id in s'.keys
                  && (ValidOn(eff.call, id) ==> s'.keys[id].lastVerifiedAt.Some?)
                  && (!ValidOn(eff.call, id) ==> s'.keys[id].lastVerifiedAt == s.keys[id].lastVerifiedAt))
            && (id !in s.keys ==> !ValidOn(eff.call, id) && (id in s'.keys ==> s'.keys[id].lastVerifiedAt.None?))
  {
    var eff := Advance(cfg, s, call, env);
    if call.Verify? {
      VerifyEffect(cfg, s, call, env);
    } else {
      NonVerifyEffect(cfg, s, call, env);
    }
    if eff.op.Some? {
      OnlyCreateAddsKeys(s, eff.op.value);
      if id in s.keys { FieldsKept(s, eff.op.value, id); }
    }
  }

  lemma ApplyKeepsTouch(cfg: Config, w: World, e: Event)
    requires CallsOk(cfg, w) && TouchOk(w) && Enabled(w, e)
    ensures TouchOk(Apply(cfg, w, e))
  {
    var w' := Apply(cfg, w, e);
    forall id | id in w'.store.keys ensures w'.store.keys[id].lastVerifiedAt.Some? <==> TouchedBy(w', id) {
      if e.Step? {
        assert CallOk(cfg, w.store, w.calls[e.c]);
        StepTouches(cfg, w.store, w.calls[e.c], e.env, id);
        assert w'.calls[e.c] == Advance(cfg, w.store, w.calls[e.c], e.env).call;
      }
      if TouchedBy(w, id) {
        var c :| c in w.calls && ValidOn(w.calls[c], id);
        assert CallOk(cfg, w.store, w.calls[c]) && w'.calls[c] == w.calls[c];
      }
      if TouchedBy(w', id) {
        var c :| c in w'.calls && ValidOn(w'.calls[c], id);
        assert c == e.c || (c in w.calls && w.calls[c] == w'.calls[c]);
      }
    }
  }

  // ------------------------------------------------------------------
  // Issued plaintexts
  // ------------------------------------------------------------------

  function LastIssue(log: seq<Issue>, id: string): Option<string> {
    if log == [] then None
    else if log[|log| - 1].keyId == id then Some(log[|log| - 1].plaintext)
    else LastIssue(log[..|log| - 1], id)
  }

  // The plaintext a call has generated and not yet committed.
  function Pending(call: Call): Option<string> {
    match call
    case Create(_, stage) => if stage.Insert? then Some(stage.plaintext) else None
    case Rotate(_, stage) => if stage.Commit? then Some(stage.plaintext) else None
    case _ => None
  }

  // A generated plaintext is 52 letters behind its API's prefix.
  predicate CarriesPrefix(prefix: string, plaintext: string) {
    |plaintext| == |prefix| + Keymat.ENCODED_LENGTH && Keymat.Validate(plaintext, prefix) == None
  }

  ghost predicate GeneratedOk(w: World) {
    && (forall p <- w.generated :: Keymat.EntropyOf(p) in w.drawn)
    && (forall issue <- w.issued :: issue.plaintext in w.generated)
    && (forall i, j :: 0 <= i < j < |w.issued| ==> w.issued[i].plaintext != w.issued[j].plaintext)
  }

  // Plaintexts in flight are generated, unissued, and different between calls.
  ghost predicate PendingOk(w: World) {
    && (forall c <- w.calls :: Pending(w.calls[c]).Some? ==>
          && Pending(w.calls[c]).value in w.generated
          && (forall issue <- w.issued :: issue.plaintext != Pending(w.calls[c]).value))
    && (forall c, d :: c in w.calls && d in w.calls && c != d && Pending(w.calls[c]).Some? ==>
          Pending(w.calls[c]) != Pending(w.calls[d]))
  }

  ghost predicate HashesOk(cfg: Config, w: World) {
    && (forall id <- w.store.keys ::
          LastIssue(w.issued, id).Some? && w.store.keys[id].keyHash == cfg.sha(LastIssue(w.issued, id).value))
    && (forall issue <- w.issued :: issue.keyId in w.store.keys)
  }

  // The plaintext carries the prefix of the API its key belongs to.
  ghost predicate IssuePrefixOk(s: State, issue: Issue)
    requires Tenancy(s)
  {
    issue.keyId in s.keys && CarriesPrefix(s.apis[s.keys[issue.keyId].apiId].keyPrefix, issue.plaintext)
  }

  ghost predicate PendingPrefixOk(s: State, call: Call)
    requires Tenancy(s)
  {
    && (call.Create? && call.create.Insert? ==> CarriesPrefix(call.create.api.keyPrefix, call.create.plaintext))
    && (call.Rotate? && call.rotate.Commit? ==> IssuePrefixOk(s, Issue(call.keyId, call.rotate.plaintext)))
  }

  ghost predicate PrefixesOk(w: World)
    requires Tenancy(w.store)
  {
    && (forall issue <- w.issued :: IssuePrefixOk(w.store, issue))
    && (forall c <- w.calls :: PendingPrefixOk(w.store, w.calls[c]))
  }

  // A plaintext just generated from unused random bytes is new.
  lemma MadeIsFresh(cfg: Config, w: World, c: nat, env: Env)
    requires GeneratedOk(w) && Enabled(w, Step(c, env))
    ensures var eff := Advance(cfg, w.store, w.calls[c], env);
            eff.made.Some? ==> env.entropy.Some? && eff.made.value !in w.generated &&
                               Keymat.EntropyOf(eff.made.value) == env.entropy.value
  {
    var eff := Advance(cfg, w.store, w.calls[c], env);
    if eff.made.Some? {
      var prefix :| eff.made.value == Keymat.Plaintext(prefix, env.entropy.value);
      Keymat.PlaintextShape(prefix, env.entropy.value);
    }
  }

  lemma ApplyKeepsGenerated(cfg: Config, w: World, e: Event)
    requires GeneratedOk(w) && PendingOk(w) && Enabled(w, e)
    ensures GeneratedOk(Apply(cfg, w, e)) && PendingOk(Apply(cfg, w, e))
  {
    if e.Step? {
      var eff := Advance(cfg, w.store, w.calls[e.c], e.env);
      MadeIsFresh(cfg, w, e.c, e.env);
      EffectOnPending(cfg, w, e.c, e.env);
    }
  }

  lemma EffectOnPending(cfg: Config, w: World, c: nat, env: Env)
    requires Enabled(w, Step(c, env))
    ensures var eff := Advance(cfg, w.store, w.calls[c], env);
            && Pending(eff.call) == eff.made
            && (eff.issue.Some? ==> eff.made.None? && Pending(w.calls[c]) == Some(eff.issue.value.plaintext))
  {
  }

  // The key named by the issue, if any, gets its hash; no other hash changes.
  ghost predicate HashStep(cfg: Config, s: State, eff: Effect, id: string) {
    var s' := StoreAfter(s, eff);
    && (id in s.keys ==> id in s'.keys)
    && (id in s'.keys ==>
          if eff.issue.Some? && eff.issue.value.keyId == id then s'.keys[id].keyHash == cfg.sha(eff.issue.value.plaintext)
          else id in s.keys && s'.keys[id].keyHash == s.keys[id].keyHash)
    && (eff.issue.Some? && eff.issue.value.keyId == id ==> id in s'.keys)
  }

  lemma VerifyHashEffect(cfg: Config, s: State, call: Call, env: Env, id: string)
    requires !Finished(call) && call.Verify?
    ensures HashStep(cfg, s, Advance(cfg, s, call, env), id)
  {
    VerifyEffect(cfg, s, call, env);
    var eff := Advance(cfg, s, call, env);
    if eff.op.Some? {
      OnlyCreateAddsKeys(s, eff.op.value);
      if id in s.keys { FieldsKept(s, eff.op.value, id); }
    }
  }

  lemma OtherHashEffect(cfg: Config, s: State, call: Call, env: Env, id: string)
    requires !Finished(call) && !call.Verify? && FreshEnv(s, env)
    ensures HashStep(cfg, s, Advance(cfg, s, call, env), id)
  {
    if call.Create? {
      CreateHashEffect(cfg, s, call, env, id);
    } else if call.Rotate? {
      RotateHashEffect(cfg, s, call, env, id);
    }
  }

  lemma CreateHashEffect(cfg: Config, s: State, call: Call, env: Env, id: string)
    requires !Finished(call) && call.Create? && FreshEnv(s, env)
    ensures HashStep(cfg, s, Advance(cfg, s, call, env), id)
  {
  }

  lemma RotateHashEffect(cfg: Config, s: State, call: Call, env: Env, id: string)
    requires !Finished(call) && call.Rotate? && FreshEnv(s, env)
    ensures HashStep(cfg, s, Advance(cfg, s, call, env), id)
  {
  }

  lemma HashEffect(cfg: Config, s: State, call: Call, env: Env, id: string)
    requires !Finished(call) && FreshEnv(s, env)
    ensures HashStep(cfg, s, Advance(cfg, s, call, env), id)
  {
    if call.Verify? {
      VerifyHashEffect(cfg, s, call, env, id);
    } else {
      OtherHashEffect(cfg, s, call, env, id);
    }
  }

  lemma ApplyKeepsHashes(cfg: Config, w: World, e: Event)
    requires StoreOk(w.store) && HashesOk(cfg, w) && Enabled(w, e)
    ensures HashesOk(cfg, Apply(cfg, w, e))
  {
    if e.Step? {
      var eff := Advance(cfg, w.store, w.calls[e.c], e.env);
      var w' := Apply(cfg, w, e);
      if eff.issue.Some? {
        assert w'.issued[..|w'.issued| - 1] == w.issued;
      }
      forall id ensures
        && (id in w'.store.keys ==>
              LastIssue(w'.issued, id).Some? && w'.store.keys[id].keyHash == cfg.sha(LastIssue(w'.issued, id).value))
        && (id in w.store.keys ==> id in w'.store.keys)
        && (eff.issue.Some? && eff.issue.value.keyId == id ==> id in w'.store.keys)
      {
        HashEffect(cfg, w.store, w.calls[e.c], e.env, id);
      }
    }
  }

  lemma GeneratedCarriesPrefix(prefix: string, entropy: Bytes)
    requires |entropy| == Keymat.RANDOM_BYTES
    ensures CarriesPrefix(prefix, Keymat.Plaintext(prefix, entropy))
  {
    Keymat.PlaintextShape(prefix, entropy);
  }

  lemma CreatePrefixEffect(cfg: Config, s: State, req: CreateKeyRequest, stage: CreateStage, env: Env)
    requires StoreOk(s) && !stage.Created? && CallOk(cfg, s, Create(req, stage)) && FreshEnv(s, env)
    requires env.entropy.Some? ==> |env.entropy.value| == Keymat.RANDOM_BYTES
    requires PendingPrefixOk(s, Create(req, stage))
    ensures var eff := StepCreate(cfg, s, req, stage, env);
            var s' := StoreAfter(s, eff);
            Tenancy(s') ==> PendingPrefixOk(s', eff.call) && (eff.issue.Some? ==> IssuePrefixOk(s', eff.issue.value))
  {
    if stage.ReadApi? && req.apiId in s.apis && env.entropy.Some? {
      GeneratedCarriesPrefix(s.apis[req.apiId].keyPrefix, env.entropy.value);
    }
  }

  lemma RotatePrefixEffect(cfg: Config, s: State, id: string, stage: RotateStage, env: Env)
    requires StoreOk(s) && !stage.Rotated? && CallOk(cfg, s, Rotate(id, stage))
    requires env.entropy.Some? ==> |env.entropy.value| == Keymat.RANDOM_BYTES
    requires PendingPrefixOk(s, Rotate(id, stage))
    ensures var eff := StepRotate(cfg, s, id, stage, env);
            var s' := StoreAfter(s, eff);
            Tenancy(s') ==> PendingPrefixOk(s', eff.call) && (eff.issue.Some? ==> IssuePrefixOk(s', eff.issue.value))
  {
    if stage.ReadKeyApi? && env.entropy.Some? {
      assert stage.key.apiId == s.keys[id].apiId by { assert Frozen(stage.key) == Frozen(s.keys[id]); }
      GeneratedCarriesPrefix(s.apis[stage.key.apiId].keyPrefix, env.entropy.value);
    }
  }

  lemma OtherPrefixEffect(cfg: Config, s: State, call: Call, env: Env)
    requires !Finished(call) && !call.Create? && !call.Rotate?
    ensures var eff := Advance(cfg, s, call, env);
            !eff.call.Create? && !eff.call.Rotate? && eff.issue.None?
  {
  }

  lemma PrefixEffect(cfg: Config, s: State, call: Call, env: Env)
    requires StoreOk(s) && !Finished(call) && CallOk(cfg, s, call) && FreshEnv(s, env)
    requires env.entropy.Some? ==> |env.entropy.value| == Keymat.RANDOM_BYTES
    requires PendingPrefixOk(s, call)
    ensures var eff := Advance(cfg, s, call, env);
            var s' := StoreAfter(s, eff);
            && Tenancy(s') && PendingPrefixOk(s', eff.call)
            && (eff.issue.Some? ==> IssuePrefixOk(s', eff.issue.value))
  {
    StepOk(cfg, s, call, env);
    if call.Create? {
      CreatePrefixEffect(cfg, s, call.creq, call.create, env);
    } else if call.Rotate? {
      RotatePrefixEffect(cfg, s, call.keyId, call.rotate, env);
    } else {
      OtherPrefixEffect(cfg, s, call, env);
    }
  }

  lemma IssuePrefixStable(s: State, s': State, issue: Issue)
    requires Tenancy(s) && Tenancy(s') && Evolves(s, s') && IssuePrefixOk(s, issue)
    ensures IssuePrefixOk(s', issue)
  {
    assert Frozen(s.keys[issue.keyId]).apiId == Frozen(s'.keys[issue.keyId]).apiId;
  }

  lemma PendingPrefixStable(s: State, s': State, call: Call)
    requires Tenancy(s) && Tenancy(s') && Evolves(s, s') && PendingPrefixOk(s, call)
    ensures PendingPrefixOk(s', call)
  {
    if call.Rotate? && call.rotate.Commit? {
      IssuePrefixStable(s, s', Issue(call.keyId, call.rotate.plaintext));
    }
  }

  lemma ApplyKeepsPrefixes(cfg: Config, w: World, e: Event)
    requires CallsOk(cfg, w) && PrefixesOk(w) && Enabled(w, e)
    ensures Tenancy(Apply(cfg, w, e).store) && PrefixesOk(Apply(cfg, w, e))
  {
    ApplyKeepsCalls(cfg, w, e);
    if e.Step? {
      assert CallOk(cfg, w.store, w.calls[e.c]);
      PrefixEffect(cfg, w.store, w.calls[e.c], e.env);
      var w' := Apply(cfg, w, e);
      forall c | c in w'.calls && c != e.c ensures PendingPrefixOk(w'.store, w'.calls[c]) {
        PendingPrefixStable(w.store, w'.store, w.calls[c]);
      }
      forall issue | issue in w.issued ensures IssuePrefixOk(w'.store, issue) {
        IssuePrefixStable(w.store, w'.store, issue);
      }
    }
  }

  // ------------------------------------------------------------------
  // All together
  // ------------------------------------------------------------------

  // The calls recorded as finished before another began did finish.
  ghost predicate BeforeOk(w: World) {
    w.before.Keys == w.calls.Keys && forall c <- w.before :: w.before[c] <= FinishedCalls(w)
  }

  ghost predicate Inv(cfg: Config, w: World) {
    && CallsOk(cfg, w) && CreditOk(w) && MintedOk(w) && TouchOk(w) && BeforeOk(w)
    && GeneratedOk(w) && PendingOk(w) && HashesOk(cfg, w) && PrefixesOk(w)
  }

  lemma ApplyKeepsInv(cfg: Config, w: World, e: Event)
    requires Inv(cfg, w) && Enabled(w, e)
    ensures Inv(cfg, Apply(cfg, w, e))
  {
    ApplyKeepsCalls(cfg, w, e);
    ApplyKeepsCredit(cfg, w, e);
    ApplyKeepsMinted(cfg, w, e);
    ApplyKeepsTouch(cfg, w, e);
    ApplyKeepsGenerated(cfg, w, e);
    ApplyKeepsHashes(cfg, w, e);
    ApplyKeepsPrefixes(cfg, w, e);
    ApplyKeepsBefore(cfg, w, e);
  }

  lemma ApplyKeepsBefore(cfg: Config, w: World, e: Event)
    requires BeforeOk(w) && Enabled(w, e)
    ensures BeforeOk(Apply(cfg, w, e))
  {
    var w' := Apply(cfg, w, e);
    assert FinishedCalls(w) <= FinishedCalls(w');
  }

  lemma {:induction false} RunKeepsInv(cfg: Config, w: World, es: seq<Event>)
    requires Inv(cfg, w) && Legal(cfg, w, es)
    ensures Inv(cfg, Exec(cfg, w, es))
  {
    if es != [] {
      RunKeepsInv(cfg, w, es[..|es| - 1]);
      ApplyKeepsInv(cfg, Exec(cfg, w, es[..|es| - 1]), es[|es| - 1]);
    }
  }

  lemma ReachableInv(cfg: Config, w: World)
    requires Reachable(cfg, w)
    ensures Inv(cfg, w)
  {
    var es :| Legal(cfg, START, es) && w == Exec(cfg, START, es);
    RunKeepsInv(cfg, START, es);
  }
}
