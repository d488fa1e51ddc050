/**
 The handlers as they run: each drives the in-memory driver call by call and
 fills a response object. Every one computes exactly what the sequential
 meaning of its request says, for the store's contents and for the reply.
 */
module Handlers {
  import opened Domain
  import opened MemoryStore
  import opened Verdict
  import Keymat
  import P = Pagination
  import R = Rpc
  import S = StoreSpec

  // The permissions alias the looked-up record, as they do in the source.
  class Response {
    var valid: bool
    var result: VerifyResult
    var keyId: string
    var apiId: string
    var workspaceId: string
    var ownerPrincipalId: string
    var permissions: array<string>
    var limitDecisions: seq<LimitDecision>

    // The result is filled in later.
    constructor (k: KeyRec)
      ensures permissions == k.permissions
      ensures !valid && keyId == k.keyId && apiId == k.apiId && workspaceId == k.workspaceId
      ensures ownerPrincipalId == k.ownerPrincipalId && limitDecisions == []
    {
      valid, keyId, apiId, workspaceId := false, k.keyId, k.apiId, k.workspaceId;
      ownerPrincipalId, permissions, limitDecisions := k.ownerPrincipalId, k.permissions, [];
    }

    // Everything but the verdict is filled in for this key.
    ghost predicate Describes(k: Key, ds: seq<LimitDecision>)
      reads this, permissions
    {
      && !valid && keyId == k.keyId && apiId == k.apiId && workspaceId == k.workspaceId
      && ownerPrincipalId == k.ownerPrincipalId && permissions[..] == k.permissions && limitDecisions == ds
    }

    function Value(): VerifyResponse
      reads this, permissions
    {
      VerifyResponse(valid, result, keyId, apiId, workspaceId, ownerPrincipalId, permissions[..], limitDecisions)
    }
  }

  datatype Answer = Answered(response: Response) | Refused(code: Code)
  {
    function Outcome(): VerifyOutcome
      reads if Answered? then {response, response.permissions} else {}
    {
      if Answered? then Replied(response.Value()) else Failed(code)
    }
  }

  method NotFoundResponse() returns (r: Response)
    ensures fresh(r) && fresh(r.permissions) && Replied(r.Value()) == RESPONSE_NOT_FOUND
  {
    var k := ZeroKey();
    r := new Response(k);
    r.result := NOT_FOUND;
  }

  class Server {
    const store: Store
    const cfg: Config
    const reader: Keymat.RandomReader

    ghost predicate Valid()
      reads this, store, store.Repr
    {
      store.Valid() && this !in store.Repr && reader !in store.Repr
    }

    constructor (cfg: Config, reader: Keymat.RandomReader)
      ensures Valid() && this.cfg == cfg && this.reader == reader && fresh(store) && store.state == S.EMPTY
    {
      this.cfg, this.reader := cfg, reader;
      store := new Store();
    }

    // What the randomness source will supply next.
    ghost function Entropy(): Option<Bytes>
      reads reader
    {
      if Keymat.RANDOM_BYTES <= |reader.stream| then Some(reader.stream[..Keymat.RANDOM_BYTES]) else None
    }

    method Consume(refs: seq<LimitRef>, answer: Consumed) returns (r: Consumed)
      ensures r == Verdict.Consume(cfg.limiter, refs, answer)
    {
      if cfg.limiter.FailClosed? {
        var ds := FailClosedConsume(refs);
        return Decisions(ds);
      }
      r := answer;
    }

    // The rate limiter's part of the checks.
    method CheckLimits(k: KeyRec, resp: Response, req: VerifyRequest, answer: Consumed, ghost v: Key)
      returns (stop: Option<Answer>)
      requires k.Value() == v && resp.permissions == k.permissions && resp.Describes(v, [])
      modifies resp
      ensures Gives(stop, resp, v, Limit(cfg.limiter, v, req, answer))
      ensures req.skipRatelimit || |v.limitRefs| == 0 ==> stop == None
      ensures !req.skipRatelimit && |v.limitRefs| > 0 && !cfg.limiter.External? ==> stop.Some?
      ensures resp.permissions == k.permissions
    {
      if !req.skipRatelimit && k.limitRefs.Length > 0 {
        if cfg.limiter.NoLimiter? {
          return Some(Refused(FailedPrecondition));
        }
        var consumed := Consume(k.limitRefs[..], answer);
        if consumed.ConsumeFailed? {
          return Some(Refused(Unavailable));
        }
        DenyAllDenies(v.limitRefs);
        var ds := consumed.decisions;
        resp.limitDecisions := ds;
        for i := 0 to |ds|
          invariant AllAllowed(ds[..i])
        {
          if !ds[i].allowed {
            resp.result := RATE_LIMITED;
            return Some(Answered(resp));
          }
        }
        assert ds[..|ds|] == ds;
      }
      stop := None;
    }

    // An outcome to stop with is in the answer; otherwise there is none and
    // the response describes the key.
    ghost predicate Gives(stop: Option<Answer>, resp: Response, v: Key, screening: Screening)
      reads resp, resp.permissions, if stop.Some? && stop.value.Answered? then {stop.value.response, stop.value.response.permissions} else {}
    {
      match screening
      case Stop(outcome) =>
        stop.Some? && stop.value.Outcome() == outcome && (stop.value.Answered? ==> stop.value.response == resp)
      case Proceed(ds) => stop == None && resp.Describes(v, ds)
    }

    // The checks before any write.
    method Check(k: KeyRec, resp: Response, req: VerifyRequest, env: R.Env, ghost v: Key) returns (stop: Option<Answer>)
      requires k.Value() == v && resp.permissions == k.permissions && resp.Describes(v, [])
      modifies resp
      ensures Gives(stop, resp, v, Screen(cfg.limiter, v, req, env.checkAt, env.answer))
      ensures stop == None ==>
                && v.enabled && (v.expiresAt.None? || env.checkAt < v.expiresAt.value) && v.remainingUses != 0
                && (forall p <- req.requiredPermissions :: p in v.permissions)
      ensures resp.permissions == k.permissions
    {
      if !k.enabled {
        resp.result := REVOKED;
        return Some(Answered(resp));
      }
      if k.expiresAt != null && env.checkAt >= k.expiresAt.at {
        resp.result := EXPIRED;
        return Some(Answered(resp));
      }
      if k.remainingUses == 0 {
        resp.result := DEPLETED;
        return Some(Answered(resp));
      }
      var permitted := CheckPermissions(k.permissions[..], req.requiredPermissions);
      if !permitted {
        resp.result := FORBIDDEN;
        return Some(Answered(resp));
      }
      stop := CheckLimits(k, resp, req, env.answer, v);
    }

    // The store writes of a call that passed every check: spend a credit if the
    // key had any when looked up, then record the time.
    method SpendAndTouch(keyId: string, remaining: int, env: R.Env) returns (e: Option<StoreError>)
      requires Valid()
      modifies store
      ensures Valid() && fresh(store.Repr - old(store.Repr))
      ensures (store.state, e) == Spent(old(store.state), keyId, remaining, env)
    {
      if remaining > 0 {
        var r := store.DecrementRemainingUses(keyId, env.storeAt);
        if r.error.Some? {
          return r.error;
        }
      }
      var ignored := store.TouchLastVerified(keyId, env.touchAt);
      e := None;
    }

    ghost function Spent(s: S.State, keyId: string, remaining: int, env: R.Env): (S.State, Option<StoreError>) {
      var (s', r) := if remaining > 0 then S.Decrement(s, keyId, env.storeAt) else (s, DecrementReply(-1, None));
      if r.error.Some? then (s', r.error) else (S.TouchLastVerified(s', keyId, env.touchAt).0, None)
    }

    method Finish(resp: Response, e: Option<StoreError>, ghost k: Key, ghost ds: seq<LimitDecision>) returns (a: Answer)
      requires resp.Describes(k, ds)
      modifies resp
      ensures a.Outcome() == Finished(e, k, ds) && (a.Answered? ==> a.response == resp)
      ensures resp.permissions == old(resp.permissions)
    {
      if e.Some? {
        if e.value.Depleted? {
          resp.result := DEPLETED;
          return Answered(resp);
        }
        return Refused(Internal);
      }
      resp.valid := true;
      resp.result := VALID;
      a := Answered(resp);
    }

    ghost function Finished(e: Option<StoreError>, k: Key, ds: seq<LimitDecision>): VerifyOutcome {
      match e
      case Some(Depleted) => Respond(k, DEPLETED, ds)
      case Some(_) => Failed(Internal)
      case None => Respond(k, VALID, ds)
    }

    lemma SettleInTwo(s: S.State, k: Key, ds: seq<LimitDecision>, env: R.Env)
      ensures var (s', e) := Spent(s, k.keyId, k.remainingUses, env);
              R.Settle(R.MemoryDriver(), s, k, ds, env) == (s', Finished(e, k, ds))
    {
    }

    // Looks the plaintext up and checks the key found, writing nothing. With no
    // answer yet, the response describes the key and the call goes on.
    method Lookup(req: VerifyRequest, env: R.Env) returns (stop: Option<Answer>, resp: Response, keyId: string, remaining: int)
      requires Valid()
      ensures Valid() && fresh(resp) && fresh(resp.permissions)
      ensures Gives(stop, resp, Found(store.state, req), Looked(store.state, req, env))
      ensures stop == None ==> keyId == Found(store.state, req).keyId && remaining == Found(store.state, req).remainingUses
    {
      resp := NotFoundResponse();
      stop, keyId, remaining := Some(Answered(resp)), "", 0;
      if Keymat.Validate(req.plaintext, "").Some? {
        return;
      }
      var found := Find(req.plaintext);
      if found.Err? {
        if !found.error.NotFound? {
          stop := Some(Refused(Internal));
        }
        return;
      }
      keyId, remaining := found.value.keyId, found.value.remainingUses;
      stop, resp := CheckFound(found.value, req, env, Found(store.state, req));
    }

    method CheckFound(k: KeyRec, req: VerifyRequest, env: R.Env, ghost v: Key) returns (stop: Option<Answer>, resp: Response)
      requires k.Value() == v
      ensures fresh(resp) && resp.permissions == k.permissions
      ensures Gives(stop, resp, v, Screen(cfg.limiter, v, req, env.checkAt, env.answer))
    {
      resp := new Response(k);
      stop := Check(k, resp, req, env, v);
    }

    method Find(plaintext: string) returns (found: Result<KeyRec>)
      requires Valid()
      ensures Valid() && (found.Ok? ==> fresh(found.value.Foot()))
      ensures ValueOf(found) == S.GetKeyByHash(store.state, cfg.sha(plaintext))
    {
      var hash := NewSlice(cfg.sha(plaintext));
      found := store.GetKeyByHash(hash);
    }

    ghost function Found(s: S.State, req: VerifyRequest): Key {
      var r := S.GetKeyByHash(s, cfg.sha(req.plaintext));
      if r.Ok? then r.value else ZERO_KEY
    }

    ghost function Looked(s: S.State, req: VerifyRequest, env: R.Env): Screening {
      if Keymat.Validate(req.plaintext, "").Some? then Stop(RESPONSE_NOT_FOUND)
      else
        match S.GetKeyByHash(s, cfg.sha(req.plaintext))
        case Err(NotFound) => Stop(RESPONSE_NOT_FOUND)
        case Err(_) => Stop(Failed(Internal))
        case Ok(k) => Screen(cfg.limiter, k, req, env.checkAt, env.answer)
    }

    lemma LookedIsServed(s: S.State, req: VerifyRequest, env: R.Env)
      ensures R.ServeVerify(R.MemoryDriver(), cfg, s, req, env) ==
              match Looked(s, req, env)
              case Stop(outcome) => (s, outcome)
              case Proceed(ds) => R.Settle(R.MemoryDriver(), s, Found(s, req), ds, env)
    {
    }

    method VerifyKey(req: VerifyRequest, env: R.Env) returns (a: Answer)
      requires Valid()
      modifies store
      ensures Valid() && fresh(store.Repr - old(store.Repr))
      ensures (store.state, a.Outcome()) == R.ServeVerify(R.MemoryDriver(), cfg, old(store.state), req, env)
      ensures a.Answered? ==> fresh(a.response) && fresh(a.response.permissions)
    {
      LookedIsServed(store.state, req, env);
      var stop, resp, keyId, remaining := Lookup(req, env);
      if stop.Some? {
        return stop.value;
      }
      ghost var k, ds := Found(store.state, req), Looked(store.state, req, env).decisions;
      a := Settle(resp, keyId, remaining, env, k, ds);
    }

    method Settle(resp: Response, keyId: string, remaining: int, env: R.Env, ghost k: Key, ghost ds: seq<LimitDecision>)
      returns (a: Answer)
      requires Valid() && resp.Describes(k, ds) && keyId == k.keyId && remaining == k.remainingUses
      requires {resp, resp.permissions} !! {store} + store.Repr
      modifies store, resp
      ensures Valid() && fresh(store.Repr - old(store.Repr)) && (a.Answered? ==> a.response == resp)
      ensures (store.state, a.Outcome()) == R.Settle(R.MemoryDriver(), old(store.state), k, ds, env)
      ensures resp.permissions == old(resp.permissions)
    {
      SettleInTwo(store.state, k, ds, env);
      var e := SpendAndTouch(keyId, remaining, env);
      a := Finish(resp, e, k, ds);
    }

    // A new plaintext with its hash, from the next random bytes.
    method NewKeyMaterial(prefix: string) returns (plaintext: string, hash: array<byte>, ok: bool)
      requires Valid()
      modifies reader
      ensures Valid() && store.state == old(store.state)
      ensures ok == old(Entropy()).Some? && fresh(hash)
      ensures ok ==> plaintext == Keymat.Plaintext(prefix, old(Entropy()).value) && hash[..] == cfg.sha(plaintext)
    {
      var bytes: Bytes;
      plaintext, bytes, ok := Keymat.New(prefix, reader, cfg.sha);
      hash := NewSlice(bytes);
    }

    method CreateKey(req: R.CreateKeyRequest, env: R.Env) returns (reply: R.Reply)
      requires Valid() && env.freshId != "" && env.freshId !in store.keys
      modifies store, reader
      ensures Valid() && fresh(store.Repr - old(store.Repr))
      ensures (store.state, reply) ==
              R.ServeCreateKey(R.MemoryDriver(), cfg, old(store.state), req, env.(entropy := old(Entropy())))
    {
      if req.apiId == "" || req.ownerPrincipalId == "" {
        return R.ErrorReply(InvalidArgument);
      }
      var api := ReadApi(req.apiId);
      if api.Err? {
        return R.ErrorReply(R.CodeOf(api.error));
      }
      var plaintext, hash, ok := NewKeyMaterial(api.value.keyPrefix);
      if !ok {
        return R.ErrorReply(Internal);
      }
      var remaining := req.remainingUses;
      if remaining <= 0 {
        remaining := -1;
      }
      var created := InsertKey(
        Key("", api.value.apiId, api.value.workspaceId, req.ownerPrincipalId, req.name, hash[..], req.permissions,
            req.limitRefs, req.expiresAt, remaining, true, 0, 0, None, req.metadata), env);
      if created.Err? {
        return R.ErrorReply(R.CodeOf(created.error));
      }
      reply := R.KeyReply(created.value, plaintext);
    }

    method InsertKey(draft: Key, env: R.Env) returns (created: Result<Key>)
      requires Valid() && env.freshId != "" && env.freshId !in store.keys
      modifies store
      ensures Valid() && fresh(store.Repr - old(store.Repr))
      ensures (store.state, created) == Wired(S.CreateKey(old(store.state), draft, env.freshId, env.storeAt))
    {
      var k := NewKey(draft);
      var r := store.CreateKey(k, env.freshId, env.storeAt);
      created := if r.Ok? then Ok(R.ToWire(r.value.Value())) else Err(r.error);
    }

    method ReplaceHash(keyId: string, hash: array<byte>, env: R.Env) returns (rotated: Result<Key>)
      requires Valid()
      modifies store
      ensures Valid() && fresh(store.Repr - old(store.Repr))
      ensures (store.state, rotated) == Wired(S.RotateKey(old(store.state), keyId, old(hash[..]), env.storeAt))
    {
      var r := store.RotateKey(keyId, hash, env.storeAt);
      rotated := if r.Ok? then Ok(R.ToWire(r.value.Value())) else Err(r.error);
    }

    ghost function Wired(r: (S.State, Result<Key>)): (S.State, Result<Key>) {
      (r.0, if r.1.Ok? then Ok(R.ToWire(r.1.value)) else r.1)
    }

    method ReadApi(id: string) returns (api: Result<Api>)
      requires Valid()
      ensures Valid() && api == S.GetApi(store.state, id)
    {
      var r := store.GetApi(id);
      api := if r.Ok? then Ok(r.value.Value()) else Err(r.error);
    }

    method ReadKey(id: string) returns (key: Result<Key>)
      requires Valid()
      ensures Valid() && key == S.GetKeyById(store.state, id)
    {
      var r := store.GetKeyById(id);
      key := if r.Ok? then Ok(r.value.Value()) else Err(r.error);
    }

    method ReadOwningApi(keyId: string) returns (api: Result<Api>)
      requires Valid()
      ensures Valid() && api == OwningApi(store.state, keyId)
    {
      var existing := ReadKey(keyId);
      if existing.Err? {
        return Err(existing.error);
      }
      api := ReadApi(existing.value.apiId);
    }

    ghost function OwningApi(s: S.State, keyId: string): Result<Api> {
      var k := S.GetKeyById(s, keyId);
      if k.Err? then Err(k.error) else S.GetApi(s, k.value.apiId)
    }

    ghost function Rotated(s: S.State, keyId: string, entropy: Option<Bytes>, env: R.Env): (S.State, R.Reply) {
      var api := OwningApi(s, keyId);
      if keyId == "" then (s, R.ErrorReply(InvalidArgument))
      else Rekeyed(s, keyId, api, entropy, env)
    }

    lemma RotatedIsServed(s: S.State, keyId: string, entropy: Option<Bytes>, env: R.Env)
      ensures R.ServeRotateKey(R.MemoryDriver(), cfg, s, keyId, env.(entropy := entropy)) == Rotated(s, keyId, entropy, env)
    {
    }

    method RotateKey(keyId: string, env: R.Env) returns (reply: R.Reply)
      requires Valid()
      modifies store, reader
      ensures Valid() && fresh(store.Repr - old(store.Repr))
      ensures (store.state, reply) ==
              R.ServeRotateKey(R.MemoryDriver(), cfg, old(store.state), keyId, env.(entropy := old(Entropy())))
    {
      RotatedIsServed(store.state, keyId, Entropy(), env);
      reply := ReadAndRekey(keyId, env);
    }

    method ReadAndRekey(keyId: string, env: R.Env) returns (reply: R.Reply)
      requires Valid()
      modifies store, reader
      ensures Valid() && fresh(store.Repr - old(store.Repr))
      ensures (store.state, reply) == Rotated(old(store.state), keyId, old(Entropy()), env)
    {
      if keyId == "" {
        return R.ErrorReply(InvalidArgument);
      }
      var api := ReadOwningApi(keyId);
      reply := Rekey(keyId, api, env);
    }

    method Rekey(keyId: string, api: Result<Api>, env: R.Env) returns (reply: R.Reply)
      requires Valid()
      modifies store, reader
      ensures Valid() && fresh(store.Repr - old(store.Repr))
      ensures (store.state, reply) == Rekeyed(old(store.state), keyId, api, old(Entropy()), env)
    {
      if api.Err? {
        return R.ErrorReply(R.CodeOf(api.error));
      }
      var plaintext, hash, ok := NewKeyMaterial(api.value.keyPrefix);
      if !ok {
        return R.ErrorReply(Internal);
      }
      var rotated := ReplaceHash(keyId, hash, env);
      if rotated.Err? {
        return R.ErrorReply(R.CodeOf(rotated.error));
      }
      reply := R.KeyReply(rotated.value, plaintext);
    }

    ghost function Rekeyed(s: S.State, keyId: string, api: Result<Api>, entropy: Option<Bytes>, env: R.Env): (S.State, R.Reply) {
      if api.Err? then (s, R.ErrorReply(R.CodeOf(api.error)))
      else if entropy.None? then (s, R.ErrorReply(Internal))
      else
        var plaintext := Keymat.Plaintext(api.value.keyPrefix, entropy.value);
        var (s', r) := S.RotateKey(s, keyId, cfg.sha(plaintext), env.storeAt);
        (s', if r.Err? then R.ErrorReply(R.CodeOf(r.error)) else R.KeyReply(R.ToWire(r.value), plaintext))
    }

    method RevokeKey(keyId: string, env: R.Env) returns (reply: R.Reply)
      requires Valid()
      modifies store
      ensures Valid() && fresh(store.Repr - old(store.Repr))
      ensures (store.state, reply) == R.ServeRevokeKey(R.MemoryDriver(), old(store.state), keyId, env)
    {
      if keyId == "" {
        return R.ErrorReply(InvalidArgument);
      }
      var e := store.RevokeKey(keyId, env.storeAt);
      if e.Some? {
        return R.ErrorReply(R.CodeOf(e.value));
      }
      reply := R.RevokedReply;
    }

    method ListKeys(opts: ListOpts) returns (reply: R.Reply)
      requires Valid()
      ensures reply == R.ServeListKeys(R.MemoryDriver(), store.state, opts)
      ensures reply.ListReply? ==> forall k <- reply.keys :: k.keyHash == []
    {
      if opts.apiId == "" {
        return R.ErrorReply(InvalidArgument);
      }
      var res := store.ListKeys(opts);
      ghost var page := P.ListKeys(store.state, opts);
      var out: seq<Key> := [];
      for i := 0 to |res.keys|
        invariant |out| == i && forall j :: 0 <= j < i ==> out[j] == R.ToWire(page.keys[j])
      {
        out := out + [R.ToWire(res.keys[i].Value())];
      }
      reply := R.ListReply(out, res.nextToken);
    }
  }
}
