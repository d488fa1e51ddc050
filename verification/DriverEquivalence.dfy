/**
 Any sequential run of RPCs over the in-memory driver and over Postgres: the same
 replies and the same stores, but for the update stamps of keys revoked again
 while revoked, which Postgres renews and memory leaves alone. Which stamps
 differ after a run is computed exactly.
 */
module DriverEquivalence {
  import opened Domain
  import opened StoreSpec
  import opened Verdict
  import opened Rpc
  import Keymat
  import Pagination
  import Postgres

  ghost function PostgresDriver(): Driver<Postgres.Table> {
    Driver(
      Postgres.CreateWorkspace, Postgres.GetWorkspace, Postgres.CreateApi, Postgres.GetApi,
      Postgres.CreateKey, Postgres.SelectById, Postgres.SelectByHash, Postgres.RevokeKey,
      Postgres.RotateKey, Postgres.ListKeys, Postgres.TouchLastVerified, Postgres.Decrement)
  }

  // The same key, whose stamps differ exactly for the keys in `drift`.
  predicate Matches(drift: set<string>, a: Key, b: Key) {
    SameKey(a, b) && (a.keyId in drift <==> a.updatedAt != b.updatedAt)
  }

  predicate SameReply(drift: set<string>, a: Reply, b: Reply) {
    if a.KeyReply? && b.KeyReply? then
      Matches(drift, a.key, b.key) && a.plaintext == b.plaintext
    else if a.ListReply? && b.ListReply? then
      && |a.keys| == |b.keys| && a.nextToken == b.nextToken
      && (forall i :: 0 <= i < |a.keys| ==> Matches(drift, a.keys[i], b.keys[i]))
    else a == b
  }

  lemma NoDriftSameReply(a: Reply, b: Reply)
    requires SameReply({}, a, b)
    ensures a == b
  {
    if a.ListReply? && b.ListReply? {
      assert a.keys == b.keys;
    }
  }

  // The tables are equal but for the stamps of the keys in `drift`, all of
  // which are revoked.
  ghost predicate Alike(s: State, t: Postgres.Table, drift: set<string>) {
    && s.workspaces == t.workspaces && s.apis == t.apis && s.keys.Keys == t.rows.Keys
    && (forall id <- s.keys ::
          && SameKey(s.keys[id], t.rows[id])
          && (id in drift <==> s.keys[id].updatedAt != t.rows[id].updatedAt))
    && (forall id <- drift :: id in s.keys && !s.keys[id].enabled)
  }

  ghost predicate Related(s: State, t: Postgres.Table, drift: set<string>) {
    IndexAgrees(s) && Tenancy(s) && Alike(s, t, drift)
  }

  function Mark(drift: set<string>, id: string, differs: bool): set<string> {
    if differs then drift + {id} else drift - {id}
  }

  // How a request moves the drift, told from the in-memory store before it: a
  // repeated revoke makes the stamps differ unless it happens to give the stamp
  // that is there, and a rotate that succeeds makes them equal again.
  ghost function DriftAfter(drift: set<string>, cfg: Config, s: State, req: Request, env: Env): set<string> {
    match req
    case RevokeKey(id) =>
      if id in s.keys && !s.keys[id].enabled then Mark(drift, id, env.storeAt != s.keys[id].updatedAt) else drift
    case RotateKey(id) =>
      if ServeRotateKey(MemoryDriver(), cfg, s, id, env).1.KeyReply? then drift - {id} else drift
    case _ => drift
  }

  // The two stores and the two replies after one step.
  ghost predicate Agree(a: (State, Reply), b: (Postgres.Table, Reply), drift: set<string>) {
    Related(a.0, b.0, drift) && SameReply(drift, a.1, b.1)
  }

  ghost predicate AgreeOnVerdict(a: (State, VerifyOutcome), b: (Postgres.Table, VerifyOutcome), drift: set<string>) {
    Related(a.0, b.0, drift) && a.1 == b.1
  }

  // ------------------------------------------------------------------
  // One operation
  // ------------------------------------------------------------------

  lemma ByHashAgrees(s: State, t: Postgres.Table, drift: set<string>, hash: Bytes)
    requires Related(s, t, drift)
    ensures var a, b := GetKeyByHash(s, hash), Postgres.SelectByHash(t, hash);
            if a.Ok? then
              && b.Ok? && a.value.keyHash == hash && a.value.keyId in s.keys && s.keys[a.value.keyId] == a.value
              && b.value == t.rows[a.value.keyId]
            else a == b && a.error.NotFound?
  {
    if hash in s.hashIndex {
      var id := s.hashIndex[hash];
      assert t.rows[id] in t.rows.Values && t.rows[id].keyHash == hash;
      var k := Postgres.SelectByHash(t, hash).value;
      var other :| other in t.rows && t.rows[other] == k;
      assert s.keys[other].keyHash == hash;
    } else {
      forall k | k in t.rows.Values ensures k.keyHash != hash {
        var id :| id in t.rows && t.rows[id] == k;
        assert s.keys[id].keyHash == k.keyHash;
      }
    }
  }

  lemma TakenAgrees(s: State, t: Postgres.Table, drift: set<string>, hash: Bytes, id: string)
    requires Related(s, t, drift)
    ensures Postgres.HashTaken(t, hash, id) <==> hash in s.hashIndex && s.hashIndex[hash] != id
  {
    if hash in s.hashIndex && s.hashIndex[hash] != id {
      assert t.rows[s.hashIndex[hash]].keyHash == hash;
    }
    if Postgres.HashTaken(t, hash, id) {
      var other :| other in t.rows && other != id && t.rows[other].keyHash == hash;
      assert s.keys[other].keyHash == hash;
    }
  }

  lemma PutAlike(s: State, t: Postgres.Table, drift: set<string>, s': State, id: string, k': Key)
    requires Alike(s, t, drift) && s'.workspaces == s.workspaces && s'.apis == s.apis
    requires id in s'.keys && s'.keys == s.keys[id := s'.keys[id]] && SameKey(s'.keys[id], k')
    requires s'.keys[id].updatedAt != k'.updatedAt ==> !s'.keys[id].enabled
    ensures Alike(s', t.(rows := t.rows[id := k']), Mark(drift, id, s'.keys[id].updatedAt != k'.updatedAt))
  {
  }

  lemma InsertAlike(s: State, t: Postgres.Table, drift: set<string>, s': State, k: Key)
    requires Alike(s, t, drift) && s'.workspaces == s.workspaces && s'.apis == s.apis
    requires k.keyId !in s.keys && s'.keys == s.keys[k.keyId := k]
    ensures Alike(s', t.(rows := t.rows[k.keyId := k]), drift)
  {
    PutAlike(s, t, drift, s', k.keyId, k);
    assert drift - {k.keyId} == drift;
  }

  lemma CreateKeyAgrees(s: State, t: Postgres.Table, drift: set<string>, k: Key, id: string, now: Time)
    requires Related(s, t, drift) && id != "" && id !in s.keys
    requires k.apiId in s.apis && k.workspaceId == s.apis[k.apiId].workspaceId
    ensures var (s', r) := StoreSpec.CreateKey(s, k, id, now);
            var (t', q) := Postgres.CreateKey(t, k, id, now);
            Related(s', t', drift) && r == q
  {
    TakenAgrees(s, t, drift, k.keyHash, id);
    OpKeepsIndex(s, OpCreateKey(k, id, now));
    OpKeepsTenancy(s, OpCreateKey(k, id, now));
    var k' := k.(keyId := id, createdAt := now, updatedAt := now);
    if k.keyHash !in s.hashIndex {
      InsertAlike(s, t, drift, StoreSpec.CreateKey(s, k, id, now).0, k');
      assert Postgres.InsertKey(t, k') == (t.(rows := t.rows[id := k']), Postgres.Success);
    } else {
      assert Postgres.InsertKey(t, k') == (t, Postgres.UniqueViolation);
    }
  }

  lemma RotateAgrees(s: State, t: Postgres.Table, drift: set<string>, id: string, hash: Bytes, now: Time)
    requires Related(s, t, drift)
    ensures var (s', r) := StoreSpec.RotateKey(s, id, hash, now);
            var (t', q) := Postgres.RotateKey(t, id, hash, now);
            Related(s', t', if r.Ok? then drift - {id} else drift) && r == q
  {
    TakenAgrees(s, t, drift, hash, id);
    OpKeepsIndex(s, OpRotate(id, hash, now));
    OpKeepsTenancy(s, OpRotate(id, hash, now));
    if id in s.keys && StoreSpec.RotateKey(s, id, hash, now).1.Ok? {
      PutAlike(s, t, drift, StoreSpec.RotateKey(s, id, hash, now).0, id, t.rows[id].(keyHash := hash, updatedAt := now));
    }
  }

  lemma PutKeepsTenancy(s: State, id: string, k: Key)
    requires Tenancy(s) && id in s.keys && k.apiId == s.keys[id].apiId && k.workspaceId == s.keys[id].workspaceId
    ensures Tenancy(s.(keys := s.keys[id := k]))
  {
  }

  // Rewriting one key in both stores, apart from its hash, keeps them related.
  lemma PutRelated(s: State, t: Postgres.Table, drift: set<string>, id: string, k: Key, k': Key)
    requires Related(s, t, drift) && id in s.keys && SameKey(k, k') && (k.updatedAt != k'.updatedAt ==> !k.enabled)
    requires Frozen(k) == Frozen(s.keys[id]) && k.keyHash == s.keys[id].keyHash
    ensures Related(s.(keys := s.keys[id := k]), t.(rows := t.rows[id := k']), Mark(drift, id, k.updatedAt != k'.updatedAt))
  {
    assert k.keyId == s.keys[id].keyId && k.apiId == s.keys[id].apiId && k.workspaceId == s.keys[id].workspaceId;
    SameHashKeepsIndex(s, id, k);
    PutKeepsTenancy(s, id, k);
    PutAlike(s, t, drift, s.(keys := s.keys[id := k]), id, k');
  }

  // The same record in both stores, in place of an enabled key.
  lemma PutSame(s: State, t: Postgres.Table, drift: set<string>, id: string, k: Key)
    requires Related(s, t, drift) && id in s.keys && s.keys[id].enabled
    requires Frozen(k) == Frozen(s.keys[id]) && k.keyHash == s.keys[id].keyHash
    ensures Related(s.(keys := s.keys[id := k]), t.(rows := t.rows[id := k]), drift)
  {
    assert k.keyId == s.keys[id].keyId && k.apiId == s.keys[id].apiId && k.workspaceId == s.keys[id].workspaceId;
    assert id !in drift;
    SameHashKeepsIndex(s, id, k);
    PutKeepsTenancy(s, id, k);
    PutSameAlike(s, t, drift, id, k);
  }

  lemma PutSameAlike(s: State, t: Postgres.Table, drift: set<string>, id: string, k: Key)
    requires Alike(s, t, drift) && id in s.keys && id !in drift
    ensures Alike(s.(keys := s.keys[id := k]), t.(rows := t.rows[id := k]), drift)
  {
  }

  // A revoke of an enabled key stamps it alike in both drivers, a repeated one
  // only in Postgres.
  lemma RevokeAgrees(s: State, t: Postgres.Table, drift: set<string>, id: string, now: Time)
    requires Related(s, t, drift)
    ensures var (s', r) := StoreSpec.RevokeKey(s, id, now);
            var (t', q) := Postgres.RevokeKey(t, id, now);
            var repeated := id in s.keys && !s.keys[id].enabled;
            Related(s', t', if repeated then Mark(drift, id, now != s.keys[id].updatedAt) else drift) && r == q
  {
    if id in s.keys {
      var k, k' := s.keys[id], t.rows[id].(enabled := false, updatedAt := now);
      if k.enabled {
        PutSame(s, t, drift, id, k');
      } else {
        assert s.keys[id := k] == s.keys;
        PutRelated(s, t, drift, id, k, k');
      }
    }
  }

  lemma DecrementPuts(s: State, t: Postgres.Table, id: string, now: Time)
    requires id in s.keys && id in t.rows && t.rows[id] == s.keys[id] && s.keys[id].remainingUses > 0
    ensures var k := s.keys[id].(remainingUses := s.keys[id].remainingUses - 1, updatedAt := now);
            && StoreSpec.Decrement(s, id, now) == (s.(keys := s.keys[id := k]), DecrementReply(k.remainingUses, None))
            && Postgres.Decrement(t, id, now) == (t.(rows := t.rows[id := k]), DecrementReply(k.remainingUses, None))
  {
  }

  lemma DecrementAgrees(s: State, t: Postgres.Table, drift: set<string>, id: string, now: Time)
    requires Related(s, t, drift) && id in s.keys && s.keys[id].enabled
    ensures var (s', r) := StoreSpec.Decrement(s, id, now);
            var (t', q) := Postgres.Decrement(t, id, now);
            Related(s', t', drift) && r == q && s'.keys[id].enabled
  {
    var k := s.keys[id];
    assert id !in drift && t.rows[id] == k;
    if k.remainingUses > 0 {
      var k' := k.(remainingUses := k.remainingUses - 1, updatedAt := now);
      PutSame(s, t, drift, id, k');
      DecrementPuts(s, t, id, now);
    } else {
      assert StoreSpec.Decrement(s, id, now).0 == s && Postgres.Decrement(t, id, now).0 == t;
    }
  }

  lemma TouchAgrees(s: State, t: Postgres.Table, drift: set<string>, id: string, at: Time)
    requires Related(s, t, drift) && id in s.keys && s.keys[id].enabled
    ensures Related(StoreSpec.TouchLastVerified(s, id, at).0, Postgres.TouchLastVerified(t, id, at).0, drift)
  {
    assert id !in drift && t.rows[id] == s.keys[id];
    PutSame(s, t, drift, id, s.keys[id].(lastVerifiedAt := Some(at)));
  }

  // The writes of a verify call are reached only from a lookup that found the
  // key enabled.
  lemma SettleAgrees(s: State, t: Postgres.Table, drift: set<string>, k: Key, ds: seq<LimitDecision>, env: Env)
    requires Related(s, t, drift) && k.keyId in s.keys && s.keys[k.keyId] == k && k.enabled
    ensures AgreeOnVerdict(Settle(MemoryDriver(), s, k, ds, env), Settle(PostgresDriver(), t, k, ds, env), drift)
  {
    if k.remainingUses > 0 {
      DecrementAgrees(s, t, drift, k.keyId, env.storeAt);
      var s', t' := StoreSpec.Decrement(s, k.keyId, env.storeAt).0, Postgres.Decrement(t, k.keyId, env.storeAt).0;
      TouchAgrees(s', t', drift, k.keyId, env.touchAt);
    } else {
      TouchAgrees(s, t, drift, k.keyId, env.touchAt);
    }
  }

  lemma PageAgrees(s: State, u: State, drift: set<string>, ids: seq<string>)
    requires s.keys.Keys == u.keys.Keys && Pagination.Elements(ids) <= s.keys.Keys
    requires forall id <- s.keys :: s.keys[id].keyId == id && SameKey(s.keys[id], u.keys[id])
    requires forall id <- s.keys :: id in drift <==> s.keys[id].updatedAt != u.keys[id].updatedAt
    ensures forall i :: 0 <= i < |ids| ==> Matches(drift, Pagination.Keys(s, ids)[i], Pagination.Keys(u, ids)[i])
  {
    forall i | 0 <= i < |ids| ensures Matches(drift, Pagination.Keys(s, ids)[i], Pagination.Keys(u, ids)[i]) {
      assert ids[i] in Pagination.Elements(ids);
    }
  }

  lemma SameMatching(s: State, u: State, opts: ListOpts)
    requires s.keys.Keys == u.keys.Keys && forall id <- s.keys :: SameKey(s.keys[id], u.keys[id])
    ensures Pagination.Matching(s, opts) == Pagination.Matching(u, opts)
  {
    forall id <- s.keys ensures Pagination.Matches(s.keys[id], opts) == Pagination.Matches(u.keys[id], opts) {
      assert SameKey(s.keys[id], u.keys[id]);
    }
  }

  lemma SamePage(s: State, u: State, drift: set<string>, opts: ListOpts)
    requires s.keys.Keys == u.keys.Keys
    requires forall id <- s.keys :: s.keys[id].keyId == id && SameKey(s.keys[id], u.keys[id])
    requires forall id <- s.keys :: id in drift <==> s.keys[id].updatedAt != u.keys[id].updatedAt
    ensures var p, q := Pagination.ListKeys(s, opts), Pagination.ListKeys(u, opts);
            && |p.keys| == |q.keys| && p.nextToken == q.nextToken
            && (forall i :: 0 <= i < |p.keys| ==> Matches(drift, p.keys[i], q.keys[i]))
  {
    SameMatching(s, u, opts);
    var ids := Pagination.SortedIds(Pagination.Matching(s, opts));
    var here, next := CutOf(s, opts, ids);
    var here', next' := CutOf(u, opts, ids);
    PageAgrees(s, u, drift, here);
  }

  lemma CutOf(s: State, opts: ListOpts, ids: seq<string>) returns (here: seq<string>, next: string)
    requires ids == Pagination.SortedIds(Pagination.Matching(s, opts))
    ensures Pagination.Elements(here) <= s.keys.Keys && Pagination.ListKeys(s, opts) == Page(Pagination.Keys(s, here), next)
    ensures var start, size := Pagination.StartIndex(ids, opts.pageToken), Pagination.PageSize(opts.pageSize);
            var end := if start + size > |ids| then |ids| else start + size;
            here == ids[start..end] && next == if end < |ids| then ids[end - 1] else ""
  {
    var start, size := Pagination.StartIndex(ids, opts.pageToken), Pagination.PageSize(opts.pageSize);
    var end := if start + size > |ids| then |ids| else start + size;
    here, next := ids[start..end], if end < |ids| then ids[end - 1] else "";
    assert forall id <- here :: id in Pagination.Elements(ids);
  }

  lemma RowsAreKeyed(s: State, t: Postgres.Table, drift: set<string>)
    requires Related(s, t, drift)
    ensures Postgres.KeyedRows(t)
  {
    forall id <- t.rows ensures t.rows[id].keyId == id {
      assert SameKey(s.keys[id], t.rows[id]);
    }
  }

  lemma ListAgrees(s: State, t: Postgres.Table, drift: set<string>, opts: ListOpts)
    requires Related(s, t, drift)
    ensures var p, q := Pagination.ListKeys(s, opts), Postgres.ListKeys(t, opts);
            && |p.keys| == |q.keys| && p.nextToken == q.nextToken
            && (forall i :: 0 <= i < |p.keys| ==> Matches(drift, p.keys[i], q.keys[i]))
  {
    RowsAreKeyed(s, t, drift);
    Postgres.OverFetch(t, opts);
    SamePage(s, Postgres.AsState(t), drift, opts);
  }

  // ------------------------------------------------------------------
  // One RPC, and a run of them
  // ------------------------------------------------------------------

  // The update stamp is all that may differ, and no check reads it.
  lemma ScreenAgrees(limiter: Limiter, k: Key, k': Key, req: VerifyRequest, env: Env)
    requires SameKey(k, k')
    ensures Screen(limiter, k, req, env.checkAt, env.answer) == Screen(limiter, k', req, env.checkAt, env.answer)
    ensures Screen(limiter, k, req, env.checkAt, env.answer).Proceed? ==> k.enabled
  {
  }

  lemma VerifyAgrees(s: State, t: Postgres.Table, drift: set<string>, cfg: Config, req: VerifyRequest, env: Env)
    requires Related(s, t, drift)
    ensures AgreeOnVerdict(ServeVerify(MemoryDriver(), cfg, s, req, env), ServeVerify(PostgresDriver(), cfg, t, req, env), drift)
  {
    ByHashAgrees(s, t, drift, cfg.sha(req.plaintext));
    var found, found' := GetKeyByHash(s, cfg.sha(req.plaintext)), Postgres.SelectByHash(t, cfg.sha(req.plaintext));
    if found.Ok? {
      assert SameKey(found.value, found'.value);
      ScreenAgrees(cfg.limiter, found.value, found'.value, req, env);
      var screen := Screen(cfg.limiter, found.value, req, env.checkAt, env.answer);
      if screen.Proceed? {
        assert found.value.keyId !in drift && found.value == found'.value;
        SettleAgrees(s, t, drift, found.value, screen.decisions, env);
      }
    }
  }

  lemma ServeCreateKeyAgrees(s: State, t: Postgres.Table, drift: set<string>, cfg: Config, req: CreateKeyRequest, env: Env)
    requires Related(s, t, drift) && FreshEnv(s, env)
    ensures var (s', r) := ServeCreateKey(MemoryDriver(), cfg, s, req, env);
            var (t', q) := ServeCreateKey(PostgresDriver(), cfg, t, req, env);
            Related(s', t', drift) && r == q && (r.KeyReply? ==> r.key.keyId !in drift)
  {
    if req.apiId != "" && req.ownerPrincipalId != "" && req.apiId in s.apis && env.entropy.Some? {
      var api := s.apis[req.apiId];
      assert api.apiId == req.apiId;
      var plaintext := Keymat.Plaintext(api.keyPrefix, env.entropy.value);
      CreateKeyAgrees(s, t, drift, DraftKey(req, api, cfg.sha(plaintext)), env.freshId, env.storeAt);
      CreateServed(MemoryDriver(), cfg, s, req, env, api);
      CreateServed(PostgresDriver(), cfg, t, req, env, api);
    }
  }

  // A rotate that gets as far as its hash write.
  lemma RotateWriteAgrees(s: State, t: Postgres.Table, drift: set<string>, cfg: Config, id: string, env: Env)
    requires Related(s, t, drift) && id in s.keys && env.entropy.Some?
    ensures var (s', r) := ServeRotateKey(MemoryDriver(), cfg, s, id, env);
            var (t', q) := ServeRotateKey(PostgresDriver(), cfg, t, id, env);
            Related(s', t', if r.KeyReply? then drift - {id} else drift) && r == q && (r.KeyReply? ==> r.key.keyId == id)
  {
    assert id != "" && SameKey(s.keys[id], t.rows[id]);
    var api := s.apis[s.keys[id].apiId];
    assert t.rows[id].apiId == s.keys[id].apiId && t.apis[t.rows[id].apiId] == api;
    RotateAgrees(s, t, drift, id, cfg.sha(Keymat.Plaintext(api.keyPrefix, env.entropy.value)), env.storeAt);
    RotateServed(MemoryDriver(), cfg, s, id, env, s.keys[id], api);
    RotateServed(PostgresDriver(), cfg, t, id, env, t.rows[id], api);
  }

  lemma ServeRotateKeyAgrees(s: State, t: Postgres.Table, drift: set<string>, cfg: Config, id: string, env: Env)
    requires Related(s, t, drift)
    ensures var (s', r) := ServeRotateKey(MemoryDriver(), cfg, s, id, env);
            var (t', q) := ServeRotateKey(PostgresDriver(), cfg, t, id, env);
            Related(s', t', if r.KeyReply? then drift - {id} else drift) && r == q && (r.KeyReply? ==> r.key.keyId == id)
  {
    if id in s.keys {
      assert SameKey(s.keys[id], t.rows[id]);
      if env.entropy.Some? {
        RotateWriteAgrees(s, t, drift, cfg, id, env);
      }
    }
  }

  lemma CreateTenantAgrees(s: State, t: Postgres.Table, drift: set<string>, op: Op)
    requires Related(s, t, drift) && (op.OpCreateWorkspace? || op.OpCreateApi?) && Fresh(s, op)
    ensures op.OpCreateWorkspace? ==>
              var (s', r), (t', q) := StoreSpec.CreateWorkspace(s, op.w, op.id, op.now), Postgres.CreateWorkspace(t, op.w, op.id, op.now);
              Related(s', t', drift) && r == q
    ensures op.OpCreateApi? ==>
              var (s', r), (t', q) := StoreSpec.CreateApi(s, op.a, op.id, op.now), Postgres.CreateApi(t, op.a, op.id, op.now);
              Related(s', t', drift) && r == q
  {
    OpKeepsIndex(s, op);
    OpKeepsTenancy(s, op);
  }

  lemma ServeCreateTenantAgrees(s: State, t: Postgres.Table, drift: set<string>, cfg: Config, req: Request, env: Env)
    requires Related(s, t, drift) && FreshEnv(s, env) && (req.CreateWorkspace? || req.CreateApi?)
    ensures Agree(Serve(MemoryDriver(), cfg, s, req, env), Serve(PostgresDriver(), cfg, t, req, env), drift)
  {
    if req.CreateWorkspace? {
      CreateTenantAgrees(s, t, drift,
        OpCreateWorkspace(DraftWorkspace(req.name, req.ownerPrincipalId, req.metadata), env.freshId, env.storeAt));
    } else {
      CreateTenantAgrees(s, t, drift,
        OpCreateApi(DraftApi(req.workspaceId, req.name, req.keyPrefix, req.metadata), env.freshId, env.storeAt));
    }
  }

  lemma ServeListAgrees(s: State, t: Postgres.Table, drift: set<string>, opts: ListOpts)
    requires Related(s, t, drift)
    ensures SameReply(drift, ServeListKeys(MemoryDriver(), s, opts), ServeListKeys(PostgresDriver(), t, opts))
  {
    ListAgrees(s, t, drift, opts);
  }

  lemma ServeReadAgrees(s: State, t: Postgres.Table, drift: set<string>, cfg: Config, req: Request, env: Env)
    requires Related(s, t, drift) && (req.GetWorkspace? || req.GetApi? || req.GetKey? || req.ListKeys?)
    ensures Agree(Serve(MemoryDriver(), cfg, s, req, env), Serve(PostgresDriver(), cfg, t, req, env), drift)
  {
    if req.GetKey? {
      assert req.keyId in s.keys ==> Matches(drift, s.keys[req.keyId], t.rows[req.keyId]);
    } else if req.ListKeys? {
      ServeListAgrees(s, t, drift, req.opts);
    }
  }

  lemma ServeCreateAgrees(s: State, t: Postgres.Table, drift: set<string>, cfg: Config, req: Request, env: Env)
    requires Related(s, t, drift) && FreshEnv(s, env) && req.CreateKey?
    ensures Agree(Serve(MemoryDriver(), cfg, s, req, env), Serve(PostgresDriver(), cfg, t, req, env), drift)
  {
    ServeCreateKeyAgrees(s, t, drift, cfg, req.create, env);
  }

  lemma ServeRotateAgrees(s: State, t: Postgres.Table, drift: set<string>, cfg: Config, req: Request, env: Env)
    requires Related(s, t, drift) && req.RotateKey?
    ensures Agree(Serve(MemoryDriver(), cfg, s, req, env), Serve(PostgresDriver(), cfg, t, req, env),
                  DriftAfter(drift, cfg, s, req, env))
  {
    ServeRotateKeyAgrees(s, t, drift, cfg, req.keyId, env);
  }

  lemma ServeRevokeAgrees(s: State, t: Postgres.Table, drift: set<string>, cfg: Config, req: Request, env: Env)
    requires Related(s, t, drift) && req.RevokeKey?
    ensures Agree(Serve(MemoryDriver(), cfg, s, req, env), Serve(PostgresDriver(), cfg, t, req, env),
                  DriftAfter(drift, cfg, s, req, env))
  {
    if req.keyId != "" {
      RevokeAgrees(s, t, drift, req.keyId, env.storeAt);
      RevokeServed(MemoryDriver(), cfg, s, req, env);
      RevokeServed(PostgresDriver(), cfg, t, req, env);
    }
  }

  lemma ServeVerifyAgrees(s: State, t: Postgres.Table, drift: set<string>, cfg: Config, req: Request, env: Env)
    requires Related(s, t, drift) && req.VerifyKey?
    ensures Agree(Serve(MemoryDriver(), cfg, s, req, env), Serve(PostgresDriver(), cfg, t, req, env), drift)
  {
    VerifyAgrees(s, t, drift, cfg, req.verify, env);
  }

  // One request, whichever it is.
  lemma ServeAgrees(s: State, t: Postgres.Table, drift: set<string>, cfg: Config, req: Request, env: Env)
    requires Related(s, t, drift) && FreshEnv(s, env)
    ensures Agree(Serve(MemoryDriver(), cfg, s, req, env), Serve(PostgresDriver(), cfg, t, req, env),
                  DriftAfter(drift, cfg, s, req, env))
  {
    if req.CreateWorkspace? || req.CreateApi? {
      ServeCreateTenantAgrees(s, t, drift, cfg, req, env);
    } else if req.CreateKey? {
      ServeCreateAgrees(s, t, drift, cfg, req, env);
    } else if req.RotateKey? {
      ServeRotateAgrees(s, t, drift, cfg, req, env);
    } else if req.RevokeKey? {
      ServeRevokeAgrees(s, t, drift, cfg, req, env);
    } else if req.VerifyKey? {
      ServeVerifyAgrees(s, t, drift, cfg, req, env);
    } else {
      ServeReadAgrees(s, t, drift, cfg, req, env);
    }
  }

  datatype Served = Served(req: Request, env: Env)

  // The store after a run, and the reply to request i of it.
  ghost function After<S>(d: Driver<S>, cfg: Config, s: S, run: seq<Served>): S {
    if run == [] then s
    else Serve(d, cfg, After(d, cfg, s, run[..|run| - 1]), run[|run| - 1].req, run[|run| - 1].env).0
  }

  ghost function ReplyTo<S>(d: Driver<S>, cfg: Config, s: S, run: seq<Served>, i: nat): Reply
    requires i < |run|
  {
    Serve(d, cfg, After(d, cfg, s, run[..i]), run[i].req, run[i].env).1
  }

  ghost predicate FreshRun(cfg: Config, s: State, run: seq<Served>) {
    forall i :: 0 <= i < |run| ==> FreshEnv(After(MemoryDriver(), cfg, s, run[..i]), run[i].env)
  }

  // The keys whose update stamps differ after a run from empty stores.
  ghost function Drift(cfg: Config, run: seq<Served>): set<string> {
    if run == [] then {}
    else
      var front, last := run[..|run| - 1], run[|run| - 1];
      DriftAfter(Drift(cfg, front), cfg, After(MemoryDriver(), cfg, EMPTY, front), last.req, last.env)
  }

  const NO_ROWS := Postgres.Table(map[], map[], map[])

  lemma {:induction false} StoresStayRelated(cfg: Config, run: seq<Served>)
    requires FreshRun(cfg, EMPTY, run)
    ensures Related(After(MemoryDriver(), cfg, EMPTY, run), After(PostgresDriver(), cfg, NO_ROWS, run), Drift(cfg, run))
  {
    if run != [] {
      var front, last := run[..|run| - 1], run[|run| - 1];
      PrefixFresh(cfg, run, |run| - 1);
      StoresStayRelated(cfg, front);
      ServeAgrees(After(MemoryDriver(), cfg, EMPTY, front), After(PostgresDriver(), cfg, NO_ROWS, front),
                  Drift(cfg, front), cfg, last.req, last.env);
    }
  }

  lemma PrefixFresh(cfg: Config, run: seq<Served>, n: nat)
    requires FreshRun(cfg, EMPTY, run) && n <= |run|
    ensures FreshRun(cfg, EMPTY, run[..n])
  {
    forall i | 0 <= i < n ensures FreshEnv(After(MemoryDriver(), cfg, EMPTY, run[..n][..i]), run[..n][i].env) {
      assert run[..n][..i] == run[..i];
    }
  }

  lemma {:induction false} ReplyAgrees(cfg: Config, run: seq<Served>, i: nat)
    requires FreshRun(cfg, EMPTY, run) && i < |run|
    ensures SameReply(Drift(cfg, run[..i + 1]),
                      ReplyTo(MemoryDriver(), cfg, EMPTY, run, i), ReplyTo(PostgresDriver(), cfg, NO_ROWS, run, i))
  {
    var front, upTo := run[..i], run[..i + 1];
    PrefixFresh(cfg, run, i);
    assert upTo[..|upTo| - 1] == front && upTo[|upTo| - 1] == run[i];
    StoresStayRelated(cfg, front);
    ServeAgrees(After(MemoryDriver(), cfg, EMPTY, front), After(PostgresDriver(), cfg, NO_ROWS, front),
                Drift(cfg, front), cfg, run[i].req, run[i].env);
  }

  // From empty stores, given the same identifiers, random bytes, clock readings
  // and limiter answers, every run leaves the same tables in both drivers, but
  // for the update stamps of exactly the drifted keys, and every request gets
  // the same reply, but for the stamps of exactly the drifted keys in it.
  lemma {:induction false} DriversAgree(cfg: Config, run: seq<Served>)
    requires FreshRun(cfg, EMPTY, run)
    ensures var s, t := After(MemoryDriver(), cfg, EMPTY, run), After(PostgresDriver(), cfg, NO_ROWS, run);
            && s.workspaces == t.workspaces && s.apis == t.apis && s.keys.Keys == t.rows.Keys
            && (forall id <- s.keys :: SameKey(s.keys[id], t.rows[id]) && (s.keys[id] == t.rows[id] <==> id !in Drift(cfg, run)))
    ensures forall i :: 0 <= i < |run| ==>
              SameReply(Drift(cfg, run[..i + 1]),
                        ReplyTo(MemoryDriver(), cfg, EMPTY, run, i), ReplyTo(PostgresDriver(), cfg, NO_ROWS, run, i))
  {
    StoresStayRelated(cfg, run);
    forall i | 0 <= i < |run|
      ensures SameReply(Drift(cfg, run[..i + 1]),
                        ReplyTo(MemoryDriver(), cfg, EMPTY, run, i), ReplyTo(PostgresDriver(), cfg, NO_ROWS, run, i))
    {
      ReplyAgrees(cfg, run, i);
    }
  }

  // ------------------------------------------------------------------
  // When they agree exactly
  // ------------------------------------------------------------------

  // Request i revokes a key that is revoked already.
  ghost predicate RevokesAgain(cfg: Config, run: seq<Served>, i: nat)
    requires i < |run|
  {
    var s := After(MemoryDriver(), cfg, EMPTY, run[..i]);
    run[i].req.RevokeKey? && run[i].req.keyId in s.keys && !s.keys[run[i].req.keyId].enabled
  }

  lemma {:induction false} NoneAgainNoDrift(cfg: Config, run: seq<Served>)
    requires forall i :: 0 <= i < |run| ==> !RevokesAgain(cfg, run, i)
    ensures Drift(cfg, run) == {}
  {
    if run != [] {
      var front := run[..|run| - 1];
      forall i | 0 <= i < |front| ensures !RevokesAgain(cfg, front, i) {
        assert front[..i] == run[..i] && !RevokesAgain(cfg, run, i);
      }
      NoneAgainNoDrift(cfg, front);
      assert !RevokesAgain(cfg, run, |run| - 1);
    }
  }

  // In a run in which no request revokes a key that is revoked already, the two
  // drivers agree exactly: the same replies and the same tables, stamps and all.
  lemma {:induction false} ExactAgreement(cfg: Config, run: seq<Served>)
    requires FreshRun(cfg, EMPTY, run) && forall i :: 0 <= i < |run| ==> !RevokesAgain(cfg, run, i)
    ensures var s, t := After(MemoryDriver(), cfg, EMPTY, run), After(PostgresDriver(), cfg, NO_ROWS, run);
            s.workspaces == t.workspaces && s.apis == t.apis && s.keys == t.rows
    ensures forall i :: 0 <= i < |run| ==>
              ReplyTo(MemoryDriver(), cfg, EMPTY, run, i) == ReplyTo(PostgresDriver(), cfg, NO_ROWS, run, i)
  {
    NoneAgainNoDrift(cfg, run);
    StoresStayRelated(cfg, run);
    forall i | 0 <= i < |run|
      ensures ReplyTo(MemoryDriver(), cfg, EMPTY, run, i) == ReplyTo(PostgresDriver(), cfg, NO_ROWS, run, i)
    {
      var front := run[..i + 1];
      forall j | 0 <= j < |front| ensures !RevokesAgain(cfg, front, j) {
        assert front[..j] == run[..j] && !RevokesAgain(cfg, run, j);
      }
      NoneAgainNoDrift(cfg, front);
      ReplyAgrees(cfg, run, i);
      NoDriftSameReply(ReplyTo(MemoryDriver(), cfg, EMPTY, run, i), ReplyTo(PostgresDriver(), cfg, NO_ROWS, run, i));
    }
  }

  // Right after a repeated revoke that reads another time than the stamp in
  // memory, the tables differ: that key's stamp is the new reading in Postgres
  // and unchanged in memory.
  lemma {:induction false} RepeatedRevokeDiffers(cfg: Config, run: seq<Served>)
    requires FreshRun(cfg, EMPTY, run) && run != [] && RevokesAgain(cfg, run, |run| - 1)
    ensures var before, id := After(MemoryDriver(), cfg, EMPTY, run[..|run| - 1]), run[|run| - 1].req.keyId;
            var s, t := After(MemoryDriver(), cfg, EMPTY, run), After(PostgresDriver(), cfg, NO_ROWS, run);
            && s.keys == before.keys && id in t.rows && t.rows[id].updatedAt == run[|run| - 1].env.storeAt
            && (s.keys[id] == t.rows[id] <==> run[|run| - 1].env.storeAt == before.keys[id].updatedAt)
  {
    var front, last := run[..|run| - 1], run[|run| - 1];
    PrefixFresh(cfg, run, |run| - 1);
    StoresStayRelated(cfg, front);
    ServeRevokeAgain(After(MemoryDriver(), cfg, EMPTY, front), After(PostgresDriver(), cfg, NO_ROWS, front),
                     Drift(cfg, front), cfg, last.req.keyId, last.env);
  }

  lemma ServeRevokeAgain(s: State, t: Postgres.Table, drift: set<string>, cfg: Config, id: string, env: Env)
    requires Related(s, t, drift) && id in s.keys && !s.keys[id].enabled
    ensures var s', t' := Serve(MemoryDriver(), cfg, s, RevokeKey(id), env).0, Serve(PostgresDriver(), cfg, t, RevokeKey(id), env).0;
            && s' == s && id in t'.rows && t'.rows[id].updatedAt == env.storeAt
            && (s'.keys[id] == t'.rows[id] <==> env.storeAt == s.keys[id].updatedAt)
  {
    RepeatedRevoke(s, t, drift, id, env.storeAt);
  }

  // A second revoke of a key leaves memory as it is and stamps the row again in
  // Postgres; nothing else differs.
  lemma RepeatedRevoke(s: State, t: Postgres.Table, drift: set<string>, id: string, now: Time)
    requires Related(s, t, drift) && id in s.keys && !s.keys[id].enabled
    ensures StoreSpec.RevokeKey(s, id, now) == (s, None)
    ensures Postgres.RevokeKey(t, id, now) == (t.(rows := t.rows[id := t.rows[id].(updatedAt := now)]), None)
    ensures SameKey(s.keys[id], t.rows[id])
  {
    assert SameKey(s.keys[id], t.rows[id]);
  }
}
