/**
 What calls are told in any interleaving, spelled out: each verdict was true of
 the record as it was looked up, judged by the clock reading of the call's own
 check; and each key created is what its request asked for.
 */
module Outcomes {
  import opened Domain
  import opened StoreSpec
  import opened Verdict
  import opened Rpc
  import opened Machine
  import opened Invariants
  import opened Replay
  import opened Contracts
  import Safety

  // ------------------------------------------------------------------
  // One step of a verify call
  // ------------------------------------------------------------------

  // A call goes on from its check, to the limiter or to its writes, exactly when
  // the record passes and a limiter it needs is there.
  lemma CheckGoesOn(cfg: Config, s: State, req: VerifyRequest, k: Key, env: Env)
    ensures var next := StepVerify(cfg, s, req, Check(k), env).1;
            && (!next.Answered? <==> Passes(k, req, env.checkAt) && (Limited(k, req) ==> !cfg.limiter.NoLimiter?))
            && (!next.Answered? ==>
                  next == if Limited(k, req) then Consult(k) else if k.remainingUses > 0 then Spend(k, []) else Touch(k, []))
            && (!next.Answered? ==> k.expiresAt.None? || env.checkAt < k.expiresAt.value)
  {
  }

  // The limiter let the call through, or was not needed and said nothing.
  predicate LetThrough(limiter: Limiter, k: Key, req: VerifyRequest, ds: seq<LimitDecision>) {
    if Limited(k, req) then limiter.External? && forall d <- ds :: d.allowed else ds == []
  }

  // What a record, looked up and then checked at this reading, must be like for
  // a call to be told this.
  predicate Judged(limiter: Limiter, k: Key, req: VerifyRequest, at: Time, o: VerifyOutcome) {
    var unexpired := k.expiresAt.None? || at < k.expiresAt.value;
    var permitted := forall p <- req.requiredPermissions :: p in k.permissions;
    match o
    case Failed(code) =>
      && Passes(k, req, at) && Limited(k, req)
      && ((limiter.NoLimiter? && code == FailedPrecondition) || (limiter.External? && code == Unavailable))
    case Replied(r) =>
      && Names(r, k)
      && (match r.result
          case REVOKED => !k.enabled && r.limitDecisions == []
          case EXPIRED => k.enabled && k.expiresAt.Some? && at >= k.expiresAt.value && r.limitDecisions == []
          case DEPLETED =>
            if k.remainingUses == 0 then k.enabled && unexpired && r.limitDecisions == []
            else k.remainingUses > 0 && Passes(k, req, at) && LetThrough(limiter, k, req, r.limitDecisions)
          case FORBIDDEN => k.enabled && unexpired && k.remainingUses != 0 && !permitted && r.limitDecisions == []
          case RATE_LIMITED =>
            && Passes(k, req, at) && Limited(k, req)
            && (if limiter.FailClosed? then Denials(r.limitDecisions, k.limitRefs)
                else limiter.External? && exists d <- r.limitDecisions :: !d.allowed)
          case VALID => Passes(k, req, at) && LetThrough(limiter, k, req, r.limitDecisions)
          case NOT_FOUND => false)
  }

  // The same of a call still on its way.
  predicate Stands(limiter: Limiter, k: Key, req: VerifyRequest, at: Time, stage: VerifyStage) {
    match stage
    case Lookup => false
    case Check(_) => false
    case Consult(held) => held == k && Passes(k, req, at) && Limited(k, req) && !limiter.NoLimiter?
    case Spend(held, ds) => held == k && Passes(k, req, at) && LetThrough(limiter, k, req, ds) && k.remainingUses > 0
    case Touch(held, ds) => held == k && Passes(k, req, at) && LetThrough(limiter, k, req, ds)
    case Answered(o, _) => Judged(limiter, k, req, at, o)
  }

  lemma CheckStands(cfg: Config, s: State, req: VerifyRequest, k: Key, env: Env)
    ensures Stands(cfg.limiter, k, req, env.checkAt, StepVerify(cfg, s, req, Check(k), env).1)
  {
  }

  lemma ConsultStands(cfg: Config, s: State, req: VerifyRequest, k: Key, env: Env, at: Time)
    requires Stands(cfg.limiter, k, req, at, Consult(k))
    ensures Stands(cfg.limiter, k, req, at, StepVerify(cfg, s, req, Consult(k), env).1)
  {
    DenyAllIsDenials(k.limitRefs);
  }

  lemma WriteStands(cfg: Config, s: State, req: VerifyRequest, stage: VerifyStage, env: Env, k: Key, at: Time)
    requires Stands(cfg.limiter, k, req, at, stage) && (stage.Spend? || stage.Touch?)
    requires StoreOk(s) && VerifyOk(cfg, s, req, stage)
    ensures Stands(cfg.limiter, k, req, at, StepVerify(cfg, s, req, stage, env).1)
  {
  }

  // ------------------------------------------------------------------
  // Whole runs
  // ------------------------------------------------------------------

  // At event i of the run call c, with record k looked up, makes its check.
  ghost predicate ChecksAt(cfg: Config, es: seq<Event>, i: int, c: nat, req: VerifyRequest, k: Key, at: Time) {
    && 0 <= i < |es| && es[i].Step? && es[i].c == c && es[i].env.checkAt == at && Legal(cfg, START, es[..i])
    && c in Exec(cfg, START, es[..i]).calls && Exec(cfg, START, es[..i]).calls[c] == Verify(req, Check(k))
  }

  ghost predicate Checked(cfg: Config, es: seq<Event>, c: nat, req: VerifyRequest, k: Key, at: Time) {
    exists i :: ChecksAt(cfg, es, i, c, req, k, at)
  }

  predicate Unknown(stage: VerifyStage) {
    stage.Answered? && stage.outcome == Replied(VerifyResponse(false, NOT_FOUND, "", "", "", "", [], []))
  }

  ghost predicate Founded(cfg: Config, es: seq<Event>, c: nat, req: VerifyRequest, stage: VerifyStage) {
    stage.Lookup? || stage.Check? || Unknown(stage) ||
    exists k, at :: Checked(cfg, es, c, req, k, at) && Stands(cfg.limiter, k, req, at, stage)
  }

  lemma {:induction false} CheckedStays(cfg: Config, es: seq<Event>, e: Event, c: nat, req: VerifyRequest, k: Key, at: Time)
    requires Checked(cfg, es, c, req, k, at)
    ensures Checked(cfg, es + [e], c, req, k, at)
  {
    var i :| ChecksAt(cfg, es, i, c, req, k, at);
    assert (es + [e])[..i] == es[..i];
    assert ChecksAt(cfg, es + [e], i, c, req, k, at);
  }

  lemma {:induction false} FoundedStays(cfg: Config, es: seq<Event>, e: Event, c: nat, req: VerifyRequest, stage: VerifyStage)
    requires Founded(cfg, es, c, req, stage)
    ensures Founded(cfg, es + [e], c, req, stage)
  {
    if !(stage.Lookup? || stage.Check? || Unknown(stage)) {
      var k, at :| Checked(cfg, es, c, req, k, at) && Stands(cfg.limiter, k, req, at, stage);
      CheckedStays(cfg, es, e, c, req, k, at);
    }
  }

  lemma {:induction false} FoundedStep(cfg: Config, es: seq<Event>, c: nat, env: Env, req: VerifyRequest, stage: VerifyStage)
    requires Legal(cfg, START, es) && Enabled(Exec(cfg, START, es), Step(c, env))
    requires Exec(cfg, START, es).calls[c] == Verify(req, stage) && Founded(cfg, es, c, req, stage)
    requires CallsOk(cfg, Exec(cfg, START, es))
    ensures Founded(cfg, es + [Step(c, env)], c, req, StepVerify(cfg, Exec(cfg, START, es).store, req, stage, env).1)
  {
    var w, es' := Exec(cfg, START, es), es + [Step(c, env)];
    assert CallOk(cfg, w.store, w.calls[c]);
    if stage.Check? {
      CheckStands(cfg, w.store, req, stage.key, env);
      assert es'[..|es|] == es;
      assert ChecksAt(cfg, es', |es|, c, req, stage.key, env.checkAt);
    } else if !stage.Lookup? {
      var k, at :| Checked(cfg, es, c, req, k, at) && Stands(cfg.limiter, k, req, at, stage);
      CheckedStays(cfg, es, Step(c, env), c, req, k, at);
      if stage.Consult? {
        ConsultStands(cfg, w.store, req, k, env, at);
      } else {
        WriteStands(cfg, w.store, req, stage, env, k, at);
      }
    }
  }

  lemma {:induction false} RunFounded(cfg: Config, es: seq<Event>, c: nat)
    requires Legal(cfg, START, es) && c in Exec(cfg, START, es).calls && Exec(cfg, START, es).calls[c].Verify?
    ensures var call := Exec(cfg, START, es).calls[c]; Founded(cfg, es, c, call.req, call.verify)
  {
    if es != [] {
      var front, e := es[..|es| - 1], es[|es| - 1];
      var w := Exec(cfg, START, front);
      assert es == front + [e];
      if c in w.calls {
        assert w.calls[c].Verify?;
        RunFounded(cfg, front, c);
        if e.Step? && e.c == c {
          RunKeepsCalls(cfg, START, front);
          FoundedStep(cfg, front, c, e.env, w.calls[c].req, w.calls[c].verify);
        } else {
          FoundedStays(cfg, front, e, c, w.calls[c].req, w.calls[c].verify);
        }
      }
    }
  }

  // What never changes of a key, field by field.
  lemma FrozenFields(k: Key, k': Key)
    requires KeyEvolves(k, k')
    ensures && k'.keyId == k.keyId && k'.apiId == k.apiId && k'.workspaceId == k.workspaceId
            && k'.ownerPrincipalId == k.ownerPrincipalId && k'.name == k.name && k'.permissions == k.permissions
            && k'.limitRefs == k.limitRefs && k'.expiresAt == k.expiresAt && k'.createdAt == k.createdAt
            && k'.metadata == k.metadata && (k'.enabled ==> k.enabled)
  {
    assert Frozen(k).keyId == Frozen(k').keyId;
  }

  lemma SnapshotStays(s: State, s': State, k: Key)
    requires Snapshot(s, k) && Evolves(s, s')
    ensures Snapshot(s', k)
  {
  }

  // What was looked up is an earlier state of the key as it is at the end.
  lemma {:induction false} HeldThenNow(cfg: Config, es: seq<Event>, i: nat, c: nat, req: VerifyRequest, k: Key)
    requires Legal(cfg, START, es) && i <= |es| && Legal(cfg, START, es[..i])
    requires c in Exec(cfg, START, es[..i]).calls && Exec(cfg, START, es[..i]).calls[c] == Verify(req, Check(k))
    ensures Snapshot(Exec(cfg, START, es).store, k)
  {
    var w := Exec(cfg, START, es[..i]);
    RunKeepsCalls(cfg, START, es[..i]);
    assert CallOk(cfg, w.store, w.calls[c]);
    assert Evolves(w.store, Exec(cfg, START, es).store) by {
      Safety.LaterStore(cfg, es, i, |es|);
      assert es[..|es|] == es;
    }
    SnapshotStays(w.store, Exec(cfg, START, es).store, k);
  }

  // In every run, a verify call that was told anything but NOT_FOUND made its
  // check on a record it had looked up, an earlier state of the key, and what it
  // was told was true of that record at the clock reading of that check.
  lemma {:induction false} VerdictsAreJudged(cfg: Config, es: seq<Event>, c: nat)
    requires Legal(cfg, START, es) && c in Exec(cfg, START, es).calls
    requires Exec(cfg, START, es).calls[c].Verify? && Exec(cfg, START, es).calls[c].verify.Answered?
    ensures var w := Exec(cfg, START, es);
            var req, o := w.calls[c].req, w.calls[c].verify.outcome;
            o == Replied(VerifyResponse(false, NOT_FOUND, "", "", "", "", [], [])) ||
            exists k, at :: Checked(cfg, es, c, req, k, at) && Judged(cfg.limiter, k, req, at, o) && Snapshot(w.store, k)
  {
    RunFounded(cfg, es, c);
    var call := Exec(cfg, START, es).calls[c];
    if !Unknown(call.verify) {
      var k, at :| Checked(cfg, es, c, call.req, k, at) && Stands(cfg.limiter, k, call.req, at, call.verify);
      var i :| ChecksAt(cfg, es, i, c, call.req, k, at);
      HeldThenNow(cfg, es, i, c, call.req, k);
      assert Judged(cfg.limiter, k, call.req, at, call.verify.outcome);
    }
  }

  // In particular a call told VALID made its check before the expiry of the key.
  lemma {:induction false} ValidWasUnexpired(cfg: Config, es: seq<Event>, c: nat)
    requires Legal(cfg, START, es) && c in Exec(cfg, START, es).calls && Safety.AnsweredWith(Exec(cfg, START, es).calls[c], VALID)
    ensures var w := Exec(cfg, START, es);
            var id := w.calls[c].verify.outcome.response.keyId;
            && id in w.store.keys
            && (w.store.keys[id].expiresAt.Some? ==>
                  exists e <- es :: e.Step? && e.c == c && e.env.checkAt < w.store.keys[id].expiresAt.value)
  {
    var w := Exec(cfg, START, es);
    VerdictsAreJudged(cfg, es, c);
    var k, at :| Checked(cfg, es, c, w.calls[c].req, k, at) && Judged(cfg.limiter, k, w.calls[c].req, at, w.calls[c].verify.outcome) &&
                 Snapshot(w.store, k);
    var i :| ChecksAt(cfg, es, i, c, w.calls[c].req, k, at);
    FrozenFields(k, w.store.keys[k.keyId]);
    assert es[i] in es;
  }

  // What the limiter has to do with an answer to a key with these references.
  predicate LimiterAsNeeded(limiter: Limiter, req: VerifyRequest, refs: seq<LimitRef>, o: VerifyOutcome) {
    && (req.skipRatelimit || |refs| == 0 ==> o.Replied? && o.response.result != RATE_LIMITED && o.response.limitDecisions == [])
    && (o.Failed? ==>
          && (o.code == FailedPrecondition || o.code == Unavailable)
          && (o.code == FailedPrecondition <==> limiter.NoLimiter?) && (o.code == Unavailable <==> limiter.External?))
  }

  lemma JudgedAsNeeded(limiter: Limiter, k: Key, req: VerifyRequest, at: Time, o: VerifyOutcome)
    requires Judged(limiter, k, req, at, o)
    ensures LimiterAsNeeded(limiter, req, k.limitRefs, o) && (o.Replied? ==> o.response.keyId == k.keyId)
  {
  }

  // In every run a call that skips the limiter, or was answered about a key
  // without references, was not stopped by it and carries no decisions. An error
  // means that some key has references, that the call did not skip, and that the
  // limiter is missing or has failed.
  lemma {:induction false} LimiterOnlyWhenNeeded(cfg: Config, es: seq<Event>, c: nat)
    requires Legal(cfg, START, es) && c in Exec(cfg, START, es).calls
    requires Exec(cfg, START, es).calls[c].Verify? && Exec(cfg, START, es).calls[c].verify.Answered?
    ensures var w := Exec(cfg, START, es);
            var req, o := w.calls[c].req, w.calls[c].verify.outcome;
            o == Replied(VerifyResponse(false, NOT_FOUND, "", "", "", "", [], [])) ||
            exists id <- w.store.keys ::
              LimiterAsNeeded(cfg.limiter, req, w.store.keys[id].limitRefs, o) && (o.Replied? ==> o.response.keyId == id)
  {
    var w := Exec(cfg, START, es);
    VerdictsAreJudged(cfg, es, c);
    var req, o := w.calls[c].req, w.calls[c].verify.outcome;
    if o != Replied(VerifyResponse(false, NOT_FOUND, "", "", "", "", [], [])) {
      var k, at :| Checked(cfg, es, c, req, k, at) && Judged(cfg.limiter, k, req, at, o) && Snapshot(w.store, k);
      FrozenFields(k, w.store.keys[k.keyId]);
      JudgedAsNeeded(cfg.limiter, k, req, at, o);
    }
  }

  // ------------------------------------------------------------------
  // Create calls
  // ------------------------------------------------------------------

  // A step that answers a create call with a key: the record inserted and the key
  // shown, field by field.
  lemma InsertMakes(cfg: Config, s: State, req: CreateKeyRequest, api: Api, plaintext: string, env: Env)
    requires req.apiId == api.apiId && FreshEnv(s, env)
    ensures var eff := Advance(cfg, s, Create(req, Insert(api, plaintext)), env);
            eff.call.create.reply.KeyReply? ==>
              var shown, s' := eff.call.create.reply.key, StoreAfter(s, eff);
              && shown.keyId == env.freshId && env.freshId in s'.keys && Shows(shown, s'.keys[env.freshId])
              && AsAsked(req, shown) && BrandNew(req, shown, env.storeAt) && shown.workspaceId == api.workspaceId
              && s'.keys[env.freshId].keyHash == cfg.sha(plaintext) && eff.call.create.reply.plaintext == plaintext
  {
  }

  // The key a create call answered with was made at one of its own steps, stamped
  // with that step's reading, and is stored, as asked still.
  ghost predicate MadeBy(es: seq<Event>, s: State, c: nat, req: CreateKeyRequest, shown: Key) {
    && (exists e <- es :: e.Step? && e.c == c && e.env.freshId == shown.keyId && BrandNew(req, shown, e.env.storeAt))
    && AsAsked(req, shown) && shown.keyHash == []
    && shown.keyId in s.keys && AsAsked(req, s.keys[shown.keyId])
    && s.keys[shown.keyId].keyId == shown.keyId && s.keys[shown.keyId].workspaceId == shown.workspaceId
    && s.keys[shown.keyId].createdAt == shown.createdAt
  }

  ghost predicate CreateFounded(es: seq<Event>, s: State, c: nat, req: CreateKeyRequest, stage: CreateStage) {
    match stage
    case ReadApi => true
    case Insert(api, _) => api.apiId == req.apiId
    case Created(reply) => reply.KeyReply? ==> MadeBy(es, s, c, req, reply.key)
  }

  lemma CreateFoundedStays(es: seq<Event>, e: Event, s: State, s': State, c: nat, req: CreateKeyRequest, stage: CreateStage)
    requires CreateFounded(es, s, c, req, stage) && Evolves(s, s')
    ensures CreateFounded(es + [e], s', c, req, stage)
  {
    if stage.Created? && stage.reply.KeyReply? {
      var made :| made in es && made.Step? && made.c == c && made.env.freshId == stage.reply.key.keyId &&
                  BrandNew(req, stage.reply.key, made.env.storeAt);
      assert made in es + [e];
      FrozenFields(s.keys[stage.reply.key.keyId], s'.keys[stage.reply.key.keyId]);
    }
  }

  lemma CreateFoundedStep(cfg: Config, es: seq<Event>, s: State, c: nat, env: Env, req: CreateKeyRequest, stage: CreateStage)
    requires CreateFounded(es, s, c, req, stage) && !stage.Created? && Tenancy(s) && FreshEnv(s, env)
    ensures var eff := Advance(cfg, s, Create(req, stage), env);
            eff.call.Create? && CreateFounded(es + [Step(c, env)], StoreAfter(s, eff), c, req, eff.call.create)
  {
    if stage.Insert? {
      InsertMakes(cfg, s, req, stage.api, stage.plaintext, env);
      assert Step(c, env) in es + [Step(c, env)];
    }
  }

  lemma EventCreates(cfg: Config, es: seq<Event>, w: World, e: Event, c: nat)
    requires CallsOk(cfg, w) && Enabled(w, e) && c in w.calls && w.calls[c].Create?
    requires CreateFounded(es, w.store, c, w.calls[c].creq, w.calls[c].create)
    ensures var w' := Apply(cfg, w, e);
            && c in w'.calls && w'.calls[c].Create?
            && CreateFounded(es + [e], w'.store, c, w'.calls[c].creq, w'.calls[c].create)
  {
    if e.Step? && e.c == c {
      CreateFoundedStep(cfg, es, w.store, c, e.env, w.calls[c].creq, w.calls[c].create);
      StillAsked(cfg, w.store, w.calls[c], e.env);
    } else {
      ApplyKeepsCalls(cfg, w, e);
      CreateFoundedStays(es, e, w.store, Apply(cfg, w, e).store, c, w.calls[c].creq, w.calls[c].create);
    }
  }

  lemma {:induction false} RunCreates(cfg: Config, es: seq<Event>, c: nat)
    requires Legal(cfg, START, es) && c in Exec(cfg, START, es).calls && Exec(cfg, START, es).calls[c].Create?
    ensures var w := Exec(cfg, START, es); CreateFounded(es, w.store, c, w.calls[c].creq, w.calls[c].create)
  {
    if es != [] {
      var front, e := es[..|es| - 1], es[|es| - 1];
      var w := Exec(cfg, START, front);
      assert es == front + [e];
      if c in w.calls {
        assert w.calls[c].Create?;
        RunCreates(cfg, front, c);
        RunKeepsCalls(cfg, START, front);
        EventCreates(cfg, front, w, e, c);
      }
    }
  }

  // In every run, a create call that answered with a key made it as its request
  // asked: its API, owner, name, permissions, limit references, expiry and
  // metadata, enabled, never verified, with the uses asked for, both stamps the
  // store's reading. The stored key still has all that never changes, and the
  // uses minted for it are the uses asked for.
  lemma {:induction false} CreatedAsAsked(cfg: Config, es: seq<Event>, c: nat)
    requires Legal(cfg, START, es) && c in Exec(cfg, START, es).calls
    requires var call := Exec(cfg, START, es).calls[c]; call.Create? && call.create.Created? && call.create.reply.KeyReply?
    ensures var w := Exec(cfg, START, es);
            var req, shown := w.calls[c].creq, w.calls[c].create.reply.key;
            && MadeBy(es, w.store, c, req, shown)
            && shown.keyId in w.minted && w.minted[shown.keyId] == if req.remainingUses > 0 then req.remainingUses else -1
  {
    RunCreates(cfg, es, c);
    RunKeepsInv(cfg, START, es);
    assert MintedAsAsked(Exec(cfg, START, es), Exec(cfg, START, es).calls[c]);
  }
}
