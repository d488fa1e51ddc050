/**
 The RPC handlers run one at a time, written once over any store driver. A
 driver is a record of functions: the store interface.
 */
module Rpc {
  import opened Domain
  import opened Verdict
  import Keymat
  import StoreSpec
  import Pagination

  datatype Driver<!S> = Driver(
    createWorkspace: (S, Workspace, string, Time) -> (S, Workspace),
    getWorkspace: (S, string) -> Result<Workspace>,
    createApi: (S, Api, string, Time) -> (S, Result<Api>),
    getApi: (S, string) -> Result<Api>,
    createKey: (S, Key, string, Time) -> (S, Result<Key>),
    getKeyById: (S, string) -> Result<Key>,
    getKeyByHash: (S, Bytes) -> Result<Key>,
    revokeKey: (S, string, Time) -> (S, Option<StoreError>),
    rotateKey: (S, string, Bytes, Time) -> (S, Result<Key>),
    listKeys: (S, ListOpts) -> Page,
    touch: (S, string, Time) -> (S, Option<StoreError>),
    decrement: (S, string, Time) -> (S, DecrementReply))

  ghost function MemoryDriver(): Driver<StoreSpec.State> {
    Driver(
      StoreSpec.CreateWorkspace, StoreSpec.GetWorkspace, StoreSpec.CreateApi, StoreSpec.GetApi,
      StoreSpec.CreateKey, StoreSpec.GetKeyById, StoreSpec.GetKeyByHash, StoreSpec.RevokeKey,
      StoreSpec.RotateKey, Pagination.ListKeys, StoreSpec.TouchLastVerified, StoreSpec.Decrement)
  }

  datatype CreateKeyRequest = CreateKeyRequest(
    apiId: string,
    ownerPrincipalId: string,
    name: string,
    permissions: seq<string>,
    limitRefs: seq<LimitRef>,
    expiresAt: Option<Time>,
    remainingUses: int,
    metadata: map<string, string>)

  datatype Request =
    | CreateWorkspace(name: string, ownerPrincipalId: string, metadata: map<string, string>)
    | GetWorkspace(workspaceId: string)
    | CreateApi(workspaceId: string, name: string, keyPrefix: string, metadata: map<string, string>)
    | GetApi(apiId: string)
    | CreateKey(create: CreateKeyRequest)
    | GetKey(keyId: string)
    | RevokeKey(keyId: string)
    | RotateKey(keyId: string)
    | ListKeys(opts: ListOpts)
    | VerifyKey(verify: VerifyRequest)

  datatype Reply =
    | WorkspaceReply(workspace: Workspace)
    | ApiReply(api: Api)
    | KeyReply(key: Key, plaintext: string)
    | RevokedReply
    | ListReply(keys: seq<Key>, nextToken: string)
    | VerifyReply(response: VerifyResponse)
    | ErrorReply(code: Code)

  // What one handler run draws from outside: clock readings of the server and
  // of the store, a new identifier, random bytes (None when the source fails),
  // and the rate limiter's answer.
  datatype Env = Env(
    checkAt: Time,
    storeAt: Time,
    touchAt: Time,
    freshId: string,
    entropy: Option<Bytes>,
    answer: Consumed)

  // Identifiers are generated non-empty and unused.
  predicate FreshEnv(s: StoreSpec.State, env: Env) {
    env.freshId != "" && env.freshId !in s.workspaces && env.freshId !in s.apis && env.freshId !in s.keys
  }

  function CodeOf(e: StoreError): Code {
    match e
    case NotFound => KeyNotFound
    case Conflict => AlreadyExists
    case Depleted => Internal
  }

  // The wire form of a key leaves the hash out.
  function ToWire(k: Key): Key {
    k.(keyHash := [])
  }

  // Zero and negative both mean unlimited at creation.
  function InitialUses(requested: int): int {
    if requested <= 0 then -1 else requested
  }

  function DraftKey(req: CreateKeyRequest, api: Api, hash: Bytes): Key {
    Key("", api.apiId, api.workspaceId, req.ownerPrincipalId, req.name, hash, req.permissions, req.limitRefs,
        req.expiresAt, InitialUses(req.remainingUses), true, 0, 0, None, req.metadata)
  }

  function DraftWorkspace(name: string, owner: string, metadata: map<string, string>): Workspace {
    Workspace("", name, owner, 0, 0, metadata)
  }

  function DraftApi(workspaceId: string, name: string, keyPrefix: string, metadata: map<string, string>): Api {
    Api("", workspaceId, name, keyPrefix, 0, 0, metadata)
  }

  ghost function ServeVerify<S>(d: Driver<S>, cfg: Config, s: S, req: VerifyRequest, env: Env): (S, VerifyOutcome) {
    if Keymat.Validate(req.plaintext, "").Some? then
      (s, RESPONSE_NOT_FOUND)
    else
      match d.getKeyByHash(s, cfg.sha(req.plaintext))
      case Err(NotFound) => (s, RESPONSE_NOT_FOUND)
      case Err(_) => (s, Failed(Internal))
      case Ok(k) =>
        match Screen(cfg.limiter, k, req, env.checkAt, env.answer)
        case Stop(outcome) => (s, outcome)
        case Proceed(ds) => Settle(d, s, k, ds, env)
  }

  // The writes of a verify call that passed every check.
  ghost function Settle<S>(d: Driver<S>, s: S, k: Key, ds: seq<LimitDecision>, env: Env): (S, VerifyOutcome) {
    var (s', r) := if k.remainingUses > 0 then d.decrement(s, k.keyId, env.storeAt) else (s, DecrementReply(-1, None));
    match r.error
    case Some(Depleted) => (s', Respond(k, DEPLETED, ds))
    case Some(_) => (s', Failed(Internal))
    case None => (d.touch(s', k.keyId, env.touchAt).0, Respond(k, VALID, ds))
  }

  ghost function ServeCreateKey<S>(d: Driver<S>, cfg: Config, s: S, req: CreateKeyRequest, env: Env): (S, Reply) {
    if req.apiId == "" || req.ownerPrincipalId == "" then
      (s, ErrorReply(InvalidArgument))
    else
      match d.getApi(s, req.apiId)
      case Err(e) => (s, ErrorReply(CodeOf(e)))
      case Ok(api) =>
        if env.entropy.None? then
          (s, ErrorReply(Internal))
        else
          var plaintext := Keymat.Plaintext(api.keyPrefix, env.entropy.value);
          var (s', r) := d.createKey(s, DraftKey(req, api, cfg.sha(plaintext)), env.freshId, env.storeAt);
          (s', if r.Err? then ErrorReply(CodeOf(r.error)) else KeyReply(ToWire(r.value), plaintext))
  }

  ghost function ServeRotateKey<S>(d: Driver<S>, cfg: Config, s: S, keyId: string, env: Env): (S, Reply) {
    if keyId == "" then
      (s, ErrorReply(InvalidArgument))
    else
      match d.getKeyById(s, keyId)
      case Err(e) => (s, ErrorReply(CodeOf(e)))
      case Ok(k) =>
        match d.getApi(s, k.apiId)
        case Err(e) => (s, ErrorReply(CodeOf(e)))
        case Ok(api) =>
          if env.entropy.None? then
            (s, ErrorReply(Internal))
          else
            var plaintext := Keymat.Plaintext(api.keyPrefix, env.entropy.value);
            var (s', r) := d.rotateKey(s, keyId, cfg.sha(plaintext), env.storeAt);
            (s', if r.Err? then ErrorReply(CodeOf(r.error)) else KeyReply(ToWire(r.value), plaintext))
  }

  ghost function ServeRevokeKey<S>(d: Driver<S>, s: S, keyId: string, env: Env): (S, Reply) {
    if keyId == "" then
      (s, ErrorReply(InvalidArgument))
    else
      var (s', e) := d.revokeKey(s, keyId, env.storeAt);
      (s', if e.Some? then ErrorReply(CodeOf(e.value)) else RevokedReply)
  }

  ghost function ServeListKeys<S>(d: Driver<S>, s: S, opts: ListOpts): Reply {
    if opts.apiId == "" then
      ErrorReply(InvalidArgument)
    else
      var page := d.listKeys(s, opts);
      ListReply(seq(|page.keys|, i requires 0 <= i < |page.keys| => ToWire(page.keys[i])), page.nextToken)
  }

  ghost function Serve<S>(d: Driver<S>, cfg: Config, s: S, req: Request, env: Env): (S, Reply) {
    match req
    case CreateWorkspace(name, owner, metadata) =>
      if name == "" || owner == "" then
        (s, ErrorReply(InvalidArgument))
      else
        var (s', w) := d.createWorkspace(s, DraftWorkspace(name, owner, metadata), env.freshId, env.storeAt);
        (s', WorkspaceReply(w))
    case GetWorkspace(id) =>
      (s, if id == "" then ErrorReply(InvalidArgument)
          else match d.getWorkspace(s, id) case Err(e) => ErrorReply(CodeOf(e)) case Ok(w) => WorkspaceReply(w))
    case CreateApi(workspaceId, name, prefix, metadata) =>
      if workspaceId == "" || name == "" then
        (s, ErrorReply(InvalidArgument))
      else
        var (s', r) := d.createApi(s, DraftApi(workspaceId, name, prefix, metadata), env.freshId, env.storeAt);
        (s', if r.Err? then ErrorReply(CodeOf(r.error)) else ApiReply(r.value))
    case GetApi(id) =>
      (s, if id == "" then ErrorReply(InvalidArgument)
          else match d.getApi(s, id) case Err(e) => ErrorReply(CodeOf(e)) case Ok(a) => ApiReply(a))
    case CreateKey(create) => ServeCreateKey(d, cfg, s, create, env)
    case GetKey(id) =>
      (s, if id == "" then ErrorReply(InvalidArgument)
          else match d.getKeyById(s, id) case Err(e) => ErrorReply(CodeOf(e)) case Ok(k) => KeyReply(ToWire(k), ""))
    case RevokeKey(id) => ServeRevokeKey(d, s, id, env)
    case RotateKey(id) => ServeRotateKey(d, cfg, s, id, env)
    case ListKeys(opts) => (s, ServeListKeys(d, s, opts))
    case VerifyKey(verify) =>
      var (s', outcome) := ServeVerify(d, cfg, s, verify, env);
      (s', if outcome.Failed? then ErrorReply(outcome.code) else VerifyReply(outcome.response))
  }

  // The last store call of a handler, once the ones before it have succeeded.
  lemma CreateServed<S>(d: Driver<S>, cfg: Config, s: S, req: CreateKeyRequest, env: Env, api: Api)
    requires req.apiId != "" && req.ownerPrincipalId != "" && env.entropy.Some? && d.getApi(s, req.apiId) == Ok(api)
    ensures var p := Keymat.Plaintext(api.keyPrefix, env.entropy.value);
            var (s', r) := d.createKey(s, DraftKey(req, api, cfg.sha(p)), env.freshId, env.storeAt);
            ServeCreateKey(d, cfg, s, req, env) == (s', if r.Err? then ErrorReply(CodeOf(r.error)) else KeyReply(ToWire(r.value), p))
  {
  }

  lemma RotateServed<S>(d: Driver<S>, cfg: Config, s: S, id: string, env: Env, k: Key, api: Api)
    requires id != "" && env.entropy.Some? && d.getKeyById(s, id) == Ok(k) && d.getApi(s, k.apiId) == Ok(api)
    ensures var p := Keymat.Plaintext(api.keyPrefix, env.entropy.value);
            var (s', r) := d.rotateKey(s, id, cfg.sha(p), env.storeAt);
            ServeRotateKey(d, cfg, s, id, env) == (s', if r.Err? then ErrorReply(CodeOf(r.error)) else KeyReply(ToWire(r.value), p))
  {
  }

  lemma RevokeServed<S>(d: Driver<S>, cfg: Config, s: S, req: Request, env: Env)
    requires req.RevokeKey? && req.keyId != ""
    ensures var (s', e) := d.revokeKey(s, req.keyId, env.storeAt);
            Serve(d, cfg, s, req, env) == (s', if e.Some? then ErrorReply(CodeOf(e.value)) else RevokedReply)
  {
  }

  // A verify of a plaintext that finds a key, over any driver.
  lemma VerifyFinds<S>(d: Driver<S>, cfg: Config, s: S, req: VerifyRequest, env: Env, k: Key)
    requires req.plaintext != "" && d.getKeyByHash(s, cfg.sha(req.plaintext)) == Ok(k)
    ensures ServeVerify(d, cfg, s, req, env) ==
              match Screen(cfg.limiter, k, req, env.checkAt, env.answer)
              case Stop(outcome) => (s, outcome)
              case Proceed(ds) => Settle(d, s, k, ds, env)
  {
  }

  lemma VerifyFindsNone<S>(d: Driver<S>, cfg: Config, s: S, req: VerifyRequest, env: Env)
    requires req.plaintext == "" || d.getKeyByHash(s, cfg.sha(req.plaintext)) == Err(NotFound)
    ensures ServeVerify(d, cfg, s, req, env) == (s, RESPONSE_NOT_FOUND)
  {
  }

  // What becomes of a verify after its decrement.
  function SettledAs(k: Key, ds: seq<LimitDecision>, error: Option<StoreError>): VerifyOutcome {
    match error
    case Some(Depleted) => Respond(k, DEPLETED, ds)
    case Some(_) => Failed(Internal)
    case None => Respond(k, VALID, ds)
  }

  lemma SettleCases<S>(d: Driver<S>, s: S, k: Key, ds: seq<LimitDecision>, env: Env, s': S, error: Option<StoreError>)
    requires if k.remainingUses <= 0 then s' == s && error.None?
             else s' == d.decrement(s, k.keyId, env.storeAt).0 && error == d.decrement(s, k.keyId, env.storeAt).1.error
    ensures Settle(d, s, k, ds, env) ==
              (if error.None? then d.touch(s', k.keyId, env.touchAt).0 else s', SettledAs(k, ds, error))
  {
  }
}
