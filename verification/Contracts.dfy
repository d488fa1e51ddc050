/**
 What each request is judged by and what it reads and writes, spelled out field
 by field, without the names the handlers are written in.
 */
module Contracts {
  import opened Domain
  import opened StoreSpec
  import opened Verdict
  import opened Rpc
  import Keymat
  import Pagination

  // ------------------------------------------------------------------
  // VerifyKey
  // ------------------------------------------------------------------

  predicate Told(o: VerifyOutcome, v: VerifyResult) {
    o.Replied? && o.response.result == v
  }

  // The response is about this key, and valid exactly when it says VALID.
  predicate Names(r: VerifyResponse, k: Key) {
    && r.keyId == k.keyId && r.apiId == k.apiId && r.workspaceId == k.workspaceId
    && r.ownerPrincipalId == k.ownerPrincipalId && r.permissions == k.permissions
    && (r.valid <==> r.result == VALID) && r.result != NOT_FOUND
  }

  // An unknown plaintext, or none: NOT_FOUND and nothing else, over any driver.
  lemma VerifyUnknown<S>(d: Driver<S>, cfg: Config, s: S, req: VerifyRequest, env: Env)
    requires req.plaintext == "" || d.getKeyByHash(s, cfg.sha(req.plaintext)) == Err(NotFound)
    ensures ServeVerify(d, cfg, s, req, env) == (s, Replied(VerifyResponse(false, NOT_FOUND, "", "", "", "", [], [])))
  {
  }

  // A key found that is revoked, expired, used up or not permitted is told so,
  // in that order, and nothing is written.
  lemma VerifyRefuses<S>(d: Driver<S>, cfg: Config, s: S, req: VerifyRequest, env: Env, k: Key)
    requires req.plaintext != "" && d.getKeyByHash(s, cfg.sha(req.plaintext)) == Ok(k)
    ensures var (s', o) := ServeVerify(d, cfg, s, req, env);
            var expired := k.expiresAt.Some? && env.checkAt >= k.expiresAt.value;
            var permitted := forall p <- req.requiredPermissions :: p in k.permissions;
            && (o.Replied? ==> Names(o.response, k))
            && (Told(o, REVOKED) <==> !k.enabled)
            && (Told(o, EXPIRED) <==> k.enabled && expired)
            && (k.enabled && !expired && k.remainingUses == 0 ==> Told(o, DEPLETED))
            && (Told(o, FORBIDDEN) <==> k.enabled && !expired && k.remainingUses != 0 && !permitted)
            && (!k.enabled || expired || k.remainingUses == 0 || !permitted ==> s' == s && o.response.limitDecisions == [])
  {
  }

  // Enabled, not expired at this reading, uses left or unlimited, and permitted.
  predicate Passes(k: Key, req: VerifyRequest, at: Time) {
    && k.enabled && (k.expiresAt.None? || at < k.expiresAt.value) && k.remainingUses != 0
    && (forall p <- req.requiredPermissions :: p in k.permissions)
  }

  predicate Limited(k: Key, req: VerifyRequest) {
    !req.skipRatelimit && |k.limitRefs| > 0
  }

  // One denial for each reference, in order.
  predicate Denials(ds: seq<LimitDecision>, refs: seq<LimitRef>) {
    |ds| == |refs| && forall i :: 0 <= i < |refs| ==> ds[i] == LimitDecision(refs[i].limitId, refs[i].scopeKey, false, 0, 0)
  }

  lemma DenyAllIsDenials(refs: seq<LimitRef>)
    ensures Denials(DenyAll(refs), refs)
    ensures AllAllowed(DenyAll(refs)) <==> |refs| == 0
  {
    DenyAllDenies(refs);
  }

  // What the rate limiter's answer makes of a call that passed every check before.
  predicate LimiterStops(limiter: Limiter, k: Key, answer: Consumed, o: VerifyOutcome) {
    match limiter
    case NoLimiter => o == Failed(FailedPrecondition)
    case FailClosed => Told(o, RATE_LIMITED) && Denials(o.response.limitDecisions, k.limitRefs)
    case External =>
      (match answer
       case ConsumeFailed => o == Failed(Unavailable)
       case Decisions(ds) => Told(o, RATE_LIMITED) && o.response.limitDecisions == ds && exists d <- ds :: !d.allowed)
  }

  predicate LimiterLets(limiter: Limiter, answer: Consumed) {
    limiter.External? && answer.Decisions? && forall d <- answer.decisions :: d.allowed
  }

  // A key that passes and needs the limiter is stopped by it with nothing
  // written, unless an outside limiter allows every reference.
  lemma VerifyLimits<S>(d: Driver<S>, cfg: Config, s: S, req: VerifyRequest, env: Env, k: Key)
    requires req.plaintext != "" && d.getKeyByHash(s, cfg.sha(req.plaintext)) == Ok(k)
    requires Passes(k, req, env.checkAt) && Limited(k, req)
    ensures var (s', o) := ServeVerify(d, cfg, s, req, env);
            if LimiterLets(cfg.limiter, env.answer)
            then !Told(o, RATE_LIMITED) && (o.Replied? ==> o.response.limitDecisions == env.answer.decisions)
            else s' == s && LimiterStops(cfg.limiter, k, env.answer, o) && (o.Replied? ==> Names(o.response, k))
  {
    DenyAllIsDenials(k.limitRefs);
  }

  // One that skips it, or has no references, is never stopped by it and carries
  // no decisions.
  lemma VerifyUnlimited<S>(d: Driver<S>, cfg: Config, s: S, req: VerifyRequest, env: Env, k: Key)
    requires req.plaintext != "" && d.getKeyByHash(s, cfg.sha(req.plaintext)) == Ok(k)
    requires !Limited(k, req)
    ensures var o := ServeVerify(d, cfg, s, req, env).1;
            && !Told(o, RATE_LIMITED) && o != Failed(FailedPrecondition) && o != Failed(Unavailable)
            && (o.Replied? ==> o.response.limitDecisions == [])
  {
  }

  // What is left of a key when a verify of it was VALID: one use less if it had
  // a number of them, with the update stamped, and the time it was verified.
  predicate Verified(k: Key, k': Key, env: Env) {
    k' == Key(k.keyId, k.apiId, k.workspaceId, k.ownerPrincipalId, k.name, k.keyHash, k.permissions, k.limitRefs, k.expiresAt,
              if k.remainingUses > 0 then k.remainingUses - 1 else k.remainingUses, k.enabled, k.createdAt,
              if k.remainingUses > 0 then env.storeAt else k.updatedAt, Some(env.touchAt), k.metadata)
  }

  predicate OnlyKey(s: State, s': State, id: string) {
    && s'.workspaces == s.workspaces && s'.apis == s.apis && s'.keys.Keys == s.keys.Keys
    && (forall other <- s.keys :: other != id ==> s'.keys[other] == s.keys[other])
  }

  // Run alone, a verify is VALID exactly when the key passes and the limiter, if
  // it is needed, lets it through; and only then is anything written.
  lemma VerifyWrites(cfg: Config, s: State, req: VerifyRequest, env: Env, id: string)
    requires req.plaintext != "" && cfg.sha(req.plaintext) in s.hashIndex && s.hashIndex[cfg.sha(req.plaintext)] == id
    requires id in s.keys && s.keys[id].keyId == id
    ensures var (s', o) := ServeVerify(MemoryDriver(), cfg, s, req, env);
            var k := s.keys[id];
            && (Told(o, VALID) <==> Passes(k, req, env.checkAt) && (Limited(k, req) ==> LimiterLets(cfg.limiter, env.answer)))
            && (Told(o, VALID) ==> OnlyKey(s, s', id) && s'.hashIndex == s.hashIndex && Verified(k, s'.keys[id], env))
            && (!Told(o, VALID) ==> s' == s)
  {
    DenyAllIsDenials(s.keys[id].limitRefs);
  }

  // ------------------------------------------------------------------
  // Replies that show a key
  // ------------------------------------------------------------------

  // The key as shown: every field of the record but its hash.
  predicate Shows(shown: Key, k: Key) {
    && shown.keyHash == []
    && shown.keyId == k.keyId && shown.apiId == k.apiId && shown.workspaceId == k.workspaceId
    && shown.ownerPrincipalId == k.ownerPrincipalId && shown.name == k.name && shown.permissions == k.permissions
    && shown.limitRefs == k.limitRefs && shown.expiresAt == k.expiresAt && shown.remainingUses == k.remainingUses
    && shown.enabled == k.enabled && shown.createdAt == k.createdAt && shown.updatedAt == k.updatedAt
    && shown.lastVerifiedAt == k.lastVerifiedAt && shown.metadata == k.metadata
  }

  // Over any driver, no reply to any request carries a hash.
  lemma RepliesHideHashes<S>(d: Driver<S>, cfg: Config, s: S, req: Request, env: Env)
    ensures var r := Serve(d, cfg, s, req, env).1;
            && (r.KeyReply? ==> r.key.keyHash == [])
            && (r.ListReply? ==> forall k <- r.keys :: k.keyHash == [])
  {
  }

  lemma GetShows<S>(d: Driver<S>, cfg: Config, s: S, id: string, env: Env)
    ensures var (s', r) := Serve(d, cfg, s, GetKey(id), env);
            && s' == s
            && (id == "" ==> r == ErrorReply(InvalidArgument))
            && (id != "" ==>
                  match d.getKeyById(s, id)
                  case Ok(k) => r.KeyReply? && Shows(r.key, k) && r.plaintext == ""
                  case Err(e) => r == ErrorReply(if e == NotFound then KeyNotFound else if e == Conflict then AlreadyExists else Internal))
  {
  }

  // A rotate shows the record the driver hands back, and the new plaintext: the
  // prefix of the key's API and the letters of the random bytes.
  lemma RotateShows<S>(d: Driver<S>, cfg: Config, s: S, id: string, env: Env, k: Key, api: Api)
    requires id != "" && d.getKeyById(s, id) == Ok(k) && d.getApi(s, k.apiId) == Ok(api) && env.entropy.Some?
    ensures var p := api.keyPrefix + Keymat.Encode(env.entropy.value);
            var (after, rotated) := d.rotateKey(s, id, cfg.sha(p), env.storeAt);
            var (s', r) := Serve(d, cfg, s, RotateKey(id), env);
            && s' == after
            && (rotated.Ok? ==> r.KeyReply? && Shows(r.key, rotated.value) && r.plaintext == p)
  {
    RotateServed(d, cfg, s, id, env, k, api);
  }

  lemma ListShows<S>(d: Driver<S>, cfg: Config, s: S, opts: ListOpts, env: Env)
    ensures var (s', r) := Serve(d, cfg, s, ListKeys(opts), env);
            && s' == s
            && (opts.apiId == "" ==> r == ErrorReply(InvalidArgument))
            && (opts.apiId != "" ==>
                  var page := d.listKeys(s, opts);
                  && r.ListReply? && r.nextToken == page.nextToken && |r.keys| == |page.keys|
                  && (forall i :: 0 <= i < |r.keys| ==> Shows(r.keys[i], page.keys[i])))
  {
  }

  // ------------------------------------------------------------------
  // CreateKey
  // ------------------------------------------------------------------

  // What the request asks of the key it makes.
  predicate AsAsked(req: CreateKeyRequest, k: Key) {
    && k.apiId == req.apiId && k.ownerPrincipalId == req.ownerPrincipalId && k.name == req.name
    && k.permissions == req.permissions && k.limitRefs == req.limitRefs && k.expiresAt == req.expiresAt
    && k.metadata == req.metadata
  }

  // A new key can be used as often as was asked for, or without limit if that
  // was no positive number; it is enabled, never verified, and stamped once.
  predicate BrandNew(req: CreateKeyRequest, k: Key, at: Time) {
    && k.remainingUses == (if req.remainingUses > 0 then req.remainingUses else -1)
    && k.enabled && k.lastVerifiedAt == None && k.createdAt == at && k.updatedAt == at
  }

  lemma CreateMakes(cfg: Config, s: State, req: CreateKeyRequest, env: Env, api: Api)
    requires req.apiId != "" && req.ownerPrincipalId != "" && req.apiId in s.apis && s.apis[req.apiId] == api
    requires api.apiId == req.apiId && env.entropy.Some? && env.freshId !in s.keys
    ensures var p := api.keyPrefix + Keymat.Encode(env.entropy.value);
            var (s', r) := ServeCreateKey(MemoryDriver(), cfg, s, req, env);
            && (r == ErrorReply(AlreadyExists) <==> cfg.sha(p) in s.hashIndex)
            && (r != ErrorReply(AlreadyExists) ==>
                  && r.KeyReply? && r.plaintext == p
                  && env.freshId in s'.keys
                  && var k := s'.keys[env.freshId];
                     && k.keyId == env.freshId && k.workspaceId == api.workspaceId && k.keyHash == cfg.sha(p)
                     && AsAsked(req, k) && BrandNew(req, k, env.storeAt) && Shows(r.key, k)
                     && s'.workspaces == s.workspaces && s'.apis == s.apis
                     && s'.keys == s.keys[env.freshId := k] && s'.hashIndex == s.hashIndex[k.keyHash := env.freshId])
            && (r.ErrorReply? ==> s' == s)
  {
    CreateServed(MemoryDriver(), cfg, s, req, env, api);
  }

  // A missing field, no such API, or no random bytes, in that order.
  lemma CreateRefuses<S>(d: Driver<S>, cfg: Config, s: S, req: CreateKeyRequest, env: Env)
    ensures var (s', r) := ServeCreateKey(d, cfg, s, req, env);
            var missing, api := req.apiId == "" || req.ownerPrincipalId == "", d.getApi(s, req.apiId);
            && (missing ==> r == ErrorReply(InvalidArgument))
            && (!missing && api == Err(NotFound) ==> r == ErrorReply(KeyNotFound))
            && (!missing && api.Ok? && env.entropy.None? ==> r == ErrorReply(Internal))
            && (missing || api.Err? || env.entropy.None? ==> s' == s && r.ErrorReply?)
  {
  }

  // ------------------------------------------------------------------
  // RotateKey and RevokeKey
  // ------------------------------------------------------------------

  // A rotate writes one key's hash and update stamp, and moves its index entry.
  lemma RotateMoves(cfg: Config, s: State, id: string, env: Env)
    requires IndexAgrees(s) && id in s.keys && s.keys[id].apiId in s.apis && env.entropy.Some?
    ensures var k, p := s.keys[id], s.apis[s.keys[id].apiId].keyPrefix + Keymat.Encode(env.entropy.value);
            var (s', r) := ServeRotateKey(MemoryDriver(), cfg, s, id, env);
            && (r == ErrorReply(AlreadyExists) <==> exists other <- s.keys :: other != id && s.keys[other].keyHash == cfg.sha(p))
            && (r.ErrorReply? ==> r.code == AlreadyExists && s' == s)
            && (!r.ErrorReply? ==>
                  && r.KeyReply? && r.plaintext == p && OnlyKey(s, s', id) && Shows(r.key, s'.keys[id])
                  && s'.keys[id] == Key(k.keyId, k.apiId, k.workspaceId, k.ownerPrincipalId, k.name, cfg.sha(p), k.permissions,
                                        k.limitRefs, k.expiresAt, k.remainingUses, k.enabled, k.createdAt, env.storeAt,
                                        k.lastVerifiedAt, k.metadata)
                  && (forall h :: h in s'.hashIndex <==> h == cfg.sha(p) || (h in s.hashIndex && h != k.keyHash))
                  && (forall h <- s'.hashIndex :: s'.hashIndex[h] == if h == cfg.sha(p) then id else s.hashIndex[h]))
  {
    RotateServed(MemoryDriver(), cfg, s, id, env, s.keys[id], s.apis[s.keys[id].apiId]);
    RotateFrame(s, id, cfg.sha(s.apis[s.keys[id].apiId].keyPrefix + Keymat.Encode(env.entropy.value)), env.storeAt);
  }

  // No identifier, no such key, no such API, or no random bytes, in that order.
  lemma RotateRefuses<S>(d: Driver<S>, cfg: Config, s: S, id: string, env: Env)
    ensures var (s', r) := ServeRotateKey(d, cfg, s, id, env);
            var found := d.getKeyById(s, id);
            && (id == "" ==> r == ErrorReply(InvalidArgument))
            && (id != "" && found == Err(NotFound) ==> r == ErrorReply(KeyNotFound))
            && (id != "" && found.Ok? && d.getApi(s, found.value.apiId) == Err(NotFound) ==> r == ErrorReply(KeyNotFound))
            && (id != "" && found.Ok? && d.getApi(s, found.value.apiId).Ok? && env.entropy.None? ==> r == ErrorReply(Internal))
            && (id == "" || found.Err? || d.getApi(s, found.value.apiId).Err? || env.entropy.None? ==> s' == s && r.ErrorReply?)
  {
  }

  // A revoke disables an enabled key and stamps it; of a revoked key it changes
  // nothing, and both are told alike.
  lemma RevokeMarks(s: State, id: string, env: Env)
    ensures var (s', r) := ServeRevokeKey(MemoryDriver(), s, id, env);
            && (r == ErrorReply(InvalidArgument) <==> id == "")
            && (r == ErrorReply(KeyNotFound) <==> id != "" && id !in s.keys)
            && (r == RevokedReply <==> id != "" && id in s.keys)
            && (r == RevokedReply && s.keys[id].enabled ==>
                  var k := s.keys[id];
                  && OnlyKey(s, s', id) && s'.hashIndex == s.hashIndex
                  && s'.keys[id] == Key(k.keyId, k.apiId, k.workspaceId, k.ownerPrincipalId, k.name, k.keyHash, k.permissions,
                                        k.limitRefs, k.expiresAt, k.remainingUses, false, k.createdAt, env.storeAt,
                                        k.lastVerifiedAt, k.metadata))
            && (!(r == RevokedReply && s.keys[id].enabled) ==> s' == s)
  {
  }

  // ------------------------------------------------------------------
  // Workspaces and APIs
  // ------------------------------------------------------------------

  lemma CreateWorkspaceMakes(cfg: Config, s: State, env: Env, name: string, owner: string, metadata: map<string, string>)
    ensures var (s', r) := Serve(MemoryDriver(), cfg, s, Request.CreateWorkspace(name, owner, metadata), env);
            var w := Workspace(env.freshId, name, owner, env.storeAt, env.storeAt, metadata);
            if name == "" || owner == "" then s' == s && r == ErrorReply(InvalidArgument)
            else s' == s.(workspaces := s.workspaces[env.freshId := w]) && r == WorkspaceReply(w)
  {
  }

  lemma CreateApiMakes(cfg: Config, s: State, env: Env, workspaceId: string, name: string, prefix: string, metadata: map<string, string>)
    ensures var (s', r) := Serve(MemoryDriver(), cfg, s, Request.CreateApi(workspaceId, name, prefix, metadata), env);
            var a := Api(env.freshId, workspaceId, name, prefix, env.storeAt, env.storeAt, metadata);
            if workspaceId == "" || name == "" then s' == s && r == ErrorReply(InvalidArgument)
            else if workspaceId !in s.workspaces then s' == s && r == ErrorReply(KeyNotFound)
            else s' == s.(apis := s.apis[env.freshId := a]) && r == ApiReply(a)
  {
  }

  lemma TenantReads(cfg: Config, s: State, id: string, env: Env)
    ensures Serve(MemoryDriver(), cfg, s, Request.GetWorkspace(id), env) ==
              (s, if id == "" then ErrorReply(InvalidArgument)
                  else if id in s.workspaces then WorkspaceReply(s.workspaces[id]) else ErrorReply(KeyNotFound))
    ensures Serve(MemoryDriver(), cfg, s, Request.GetApi(id), env) ==
              (s, if id == "" then ErrorReply(InvalidArgument)
                  else if id in s.apis then ApiReply(s.apis[id]) else ErrorReply(KeyNotFound))
  {
  }
}
