/**
 The server as a step machine: any number of calls in flight over one in-memory
 store, each taking one atomic store operation (or one local step) at a time,
 interleaved freely.
 */
module Machine {
  import opened Domain
  import opened StoreSpec
  import opened Verdict
  import opened Rpc
  import Keymat

  // ------------------------------------------------------------------
  // Calls
  // ------------------------------------------------------------------

  // Each stage carries the snapshot looked up earlier, which may be stale.
  datatype VerifyStage =
    | Lookup
    | Check(key: Key)
    | Consult(key: Key)
    | Spend(key: Key, decisions: seq<LimitDecision>)
    | Touch(key: Key, decisions: seq<LimitDecision>)
    | Answered(outcome: VerifyOutcome, at: Time)

  datatype CreateStage =
    | ReadApi
    | Insert(api: Api, plaintext: string)
    | Created(reply: Reply)

  datatype RotateStage =
    | ReadKey
    | ReadKeyApi(key: Key)
    | Commit(plaintext: string)
    | Rotated(reply: Reply)

  datatype Call =
    | Verify(req: VerifyRequest, verify: VerifyStage)
    | Create(creq: CreateKeyRequest, create: CreateStage)
    | Rotate(keyId: string, rotate: RotateStage)
    | Revoke(keyId: string, revoked: Option<Reply>)
    | NewWorkspace(workspace: Workspace, made: Option<Reply>)
    | NewApi(api: Api, made: Option<Reply>)
    | Read(keyId: string, got: Option<Reply>)

  predicate Initial(call: Call) {
    match call
    case Verify(_, stage) => stage.Lookup?
    case Create(_, stage) => stage.ReadApi?
    case Rotate(_, stage) => stage.ReadKey?
    case Revoke(_, reply) => reply.None?
    case NewWorkspace(_, reply) => reply.None?
    case NewApi(_, reply) => reply.None?
    case Read(_, reply) => reply.None?
  }

  predicate Finished(call: Call) {
    match call
    case Verify(_, stage) => stage.Answered?
    case Create(_, stage) => stage.Created?
    case Rotate(_, stage) => stage.Rotated?
    case Revoke(_, reply) => reply.Some?
    case NewWorkspace(_, reply) => reply.Some?
    case NewApi(_, reply) => reply.Some?
    case Read(_, reply) => reply.Some?
  }

  // ------------------------------------------------------------------
  // One step of one call
  // ------------------------------------------------------------------

  // A plaintext handed out for a key, recorded when its hash is written.
  datatype Issue = Issue(keyId: string, plaintext: string)

  // What a step does: a store operation or none, the call's next stage, a
  // plaintext generated or none, a plaintext issued or none.
  datatype Effect = Effect(op: Option<Op>, call: Call, made: Option<string>, issue: Option<Issue>)

  function Local(call: Call): Effect {
    Effect(None, call, None, None)
  }

  function Writing(op: Op, call: Call): Effect {
    Effect(Some(op), call, None, None)
  }

  function AfterLimiter(k: Key, ds: seq<LimitDecision>): VerifyStage {
    if k.remainingUses > 0 then Spend(k, ds) else Touch(k, ds)
  }

  function StepVerify(cfg: Config, s: State, req: VerifyRequest, stage: VerifyStage, env: Env): (Option<Op>, VerifyStage)
    requires !stage.Answered?
  {
    match stage
    case Lookup =>
      if Keymat.Validate(req.plaintext, "").Some? then
        (None, Answered(RESPONSE_NOT_FOUND, env.checkAt))
      else
        (match GetKeyByHash(s, cfg.sha(req.plaintext))
         case Err(_) => (None, Answered(RESPONSE_NOT_FOUND, env.checkAt))
         case Ok(k) => (None, Check(k)))
    case Check(k) =>
      (match LocalVerdict(k, req, env.checkAt)
       case Some(v) => (None, Answered(Respond(k, v, []), env.checkAt))
       case None =>
         if !NeedsLimiter(k, req) then (None, AfterLimiter(k, []))
         else if cfg.limiter.NoLimiter? then (None, Answered(Failed(FailedPrecondition), env.checkAt))
         else (None, Consult(k)))
    case Consult(k) =>
      (match Consume(cfg.limiter, k.limitRefs, env.answer)
       case ConsumeFailed => (None, Answered(Failed(Unavailable), env.checkAt))
       case Decisions(ds) =>
         if AllAllowed(ds) then (None, AfterLimiter(k, ds))
         else (None, Answered(Respond(k, RATE_LIMITED, ds), env.checkAt)))
    case Spend(k, ds) =>
      (Some(OpDecrement(k.keyId, env.storeAt)),
       match Decrement(s, k.keyId, env.storeAt).1.error
       case None => Touch(k, ds)
       case Some(Depleted) => Answered(Respond(k, DEPLETED, ds), env.checkAt)
       case Some(_) => Answered(Failed(Internal), env.checkAt))
    case Touch(k, ds) =>
      (Some(OpTouch(k.keyId, env.touchAt)), Answered(Respond(k, VALID, ds), env.checkAt))
  }

  function StepCreate(cfg: Config, s: State, req: CreateKeyRequest, stage: CreateStage, env: Env): Effect
    requires !stage.Created?
  {
    match stage
    case ReadApi =>
      if req.apiId == "" || req.ownerPrincipalId == "" then
        Local(Create(req, Created(ErrorReply(InvalidArgument))))
      else
        (match StoreSpec.GetApi(s, req.apiId)
         case Err(e) => Local(Create(req, Created(ErrorReply(CodeOf(e)))))
         case Ok(api) =>
           if env.entropy.None? then
             Local(Create(req, Created(ErrorReply(Internal))))
           else
             var plaintext := Keymat.Plaintext(api.keyPrefix, env.entropy.value);
             Effect(None, Create(req, Insert(api, plaintext)), Some(plaintext), None))
    case Insert(api, plaintext) =>
      var op := OpCreateKey(DraftKey(req, api, cfg.sha(plaintext)), env.freshId, env.storeAt);
      match StoreSpec.CreateKey(s, op.k, op.id, op.now).1
      case Err(e) => Writing(op, Create(req, Created(ErrorReply(CodeOf(e)))))
      case Ok(k) =>
        Effect(Some(op), Create(req, Created(KeyReply(ToWire(k), plaintext))), None, Some(Issue(op.id, plaintext)))
  }

  function StepRotate(cfg: Config, s: State, id: string, stage: RotateStage, env: Env): Effect
    requires !stage.Rotated?
  {
    match stage
    case ReadKey =>
      if id == "" then
        Local(Rotate(id, Rotated(ErrorReply(InvalidArgument))))
      else
        (match GetKeyById(s, id)
         case Err(e) => Local(Rotate(id, Rotated(ErrorReply(CodeOf(e)))))
         case Ok(k) => Local(Rotate(id, ReadKeyApi(k))))
    case ReadKeyApi(k) =>
      (match StoreSpec.GetApi(s, k.apiId)
       case Err(e) => Local(Rotate(id, Rotated(ErrorReply(CodeOf(e)))))
       case Ok(api) =>
         if env.entropy.None? then
           Local(Rotate(id, Rotated(ErrorReply(Internal))))
         else
           var plaintext := Keymat.Plaintext(api.keyPrefix, env.entropy.value);
           Effect(None, Rotate(id, Commit(plaintext)), Some(plaintext), None))
    case Commit(plaintext) =>
      var op := OpRotate(id, cfg.sha(plaintext), env.storeAt);
      match StoreSpec.RotateKey(s, id, op.newHash, op.now).1
      case Err(e) => Writing(op, Rotate(id, Rotated(ErrorReply(CodeOf(e)))))
      case Ok(k) =>
        Effect(Some(op), Rotate(id, Rotated(KeyReply(ToWire(k), plaintext))), None, Some(Issue(id, plaintext)))
  }

  function StepRevoke(s: State, id: string, env: Env): Effect {
    if id == "" then
      Local(Revoke(id, Some(ErrorReply(InvalidArgument))))
    else
      var e := StoreSpec.RevokeKey(s, id, env.storeAt).1;
      Writing(OpRevoke(id, env.storeAt), Revoke(id, Some(if e.Some? then ErrorReply(CodeOf(e.value)) else RevokedReply)))
  }

  function ReadReply(s: State, id: string): Reply {
    if id == "" then ErrorReply(InvalidArgument)
    else match GetKeyById(s, id) case Err(e) => ErrorReply(CodeOf(e)) case Ok(k) => KeyReply(ToWire(k), "")
  }

  function Advance(cfg: Config, s: State, call: Call, env: Env): Effect
    requires !Finished(call)
  {
    match call
    case Verify(req, stage) =>
      var (op, stage') := StepVerify(cfg, s, req, stage, env);
      Effect(op, Verify(req, stage'), None, None)
    case Create(req, stage) => StepCreate(cfg, s, req, stage, env)
    case Rotate(id, stage) => StepRotate(cfg, s, id, stage, env)
    case Revoke(id, _) => StepRevoke(s, id, env)
    case NewWorkspace(w, _) =>
      if w.name == "" || w.ownerPrincipalId == "" then
        Local(NewWorkspace(w, Some(ErrorReply(InvalidArgument))))
      else
        var w' := StoreSpec.CreateWorkspace(s, w, env.freshId, env.storeAt).1;
        Writing(OpCreateWorkspace(w, env.freshId, env.storeAt), NewWorkspace(w, Some(WorkspaceReply(w'))))
    case NewApi(a, _) =>
      if a.workspaceId == "" || a.name == "" then
        Local(NewApi(a, Some(ErrorReply(InvalidArgument))))
      else
        var r := StoreSpec.CreateApi(s, a, env.freshId, env.storeAt).1;
        Writing(OpCreateApi(a, env.freshId, env.storeAt),
                NewApi(a, Some(if r.Err? then ErrorReply(CodeOf(r.error)) else ApiReply(r.value))))
    case Read(id, _) => Local(Read(id, Some(ReadReply(s, id))))
  }

  function StoreAfter(s: State, eff: Effect): State {
    if eff.op.Some? then Do(s, eff.op.value) else s
  }

  // ------------------------------------------------------------------
  // The world and its runs
  // ------------------------------------------------------------------

  // Besides the store and the calls, the world remembers history that no step
  // reads: which calls had finished when each call began, the random bytes
  // drawn, the plaintexts generated, those issued in commit order, and the uses
  // each key was created with.
  datatype World = World(
    store: State,
    calls: map<nat, Call>,
    before: map<nat, set<nat>>,
    drawn: set<Bytes>,
    generated: set<string>,
    issued: seq<Issue>,
    minted: map<string, int>)

  const START := World(EMPTY, map[], map[], {}, {}, [], map[])

  datatype Event = Begin(c: nat, call: Call) | Step(c: nat, env: Env)

  function FinishedCalls(w: World): set<nat> {
    set c | c in w.calls && Finished(w.calls[c])
  }

  // Identifiers are generated unused, and random bytes never repeat.
  predicate Enabled(w: World, e: Event) {
    match e
    case Begin(c, call) => c !in w.calls && Initial(call)
    case Step(c, env) =>
      && c in w.calls && !Finished(w.calls[c])
      && FreshEnv(w.store, env)
      && (env.entropy.Some? ==> |env.entropy.value| == Keymat.RANDOM_BYTES && env.entropy.value !in w.drawn)
  }

  function Apply(cfg: Config, w: World, e: Event): World
    requires Enabled(w, e)
  {
    match e
    case Begin(c, call) => w.(calls := w.calls[c := call], before := w.before[c := FinishedCalls(w)])
    case Step(c, env) =>
      var eff := Advance(cfg, w.store, w.calls[c], env);
      World(
        StoreAfter(w.store, eff),
        w.calls[c := eff.call],
        w.before,
        if env.entropy.Some? then w.drawn + {env.entropy.value} else w.drawn,
        if eff.made.Some? then w.generated + {eff.made.value} else w.generated,
        if eff.issue.Some? then w.issued + [eff.issue.value] else w.issued,
        if eff.issue.Some? && eff.op.Some? && eff.op.value.OpCreateKey?
        then w.minted[eff.op.value.id := eff.op.value.k.remainingUses] else w.minted)
  }

  predicate Legal(cfg: Config, w: World, es: seq<Event>)
    decreases |es|, 0
  {
    es == [] ||
    (Legal(cfg, w, es[..|es| - 1]) && Enabled(Exec(cfg, w, es[..|es| - 1]), es[|es| - 1]))
  }

  function Exec(cfg: Config, w: World, es: seq<Event>): World
    requires Legal(cfg, w, es)
    decreases |es|, 1
  {
    if es == [] then w else Apply(cfg, Exec(cfg, w, es[..|es| - 1]), es[|es| - 1])
  }

  ghost predicate Reachable(cfg: Config, w: World) {
    exists es :: Legal(cfg, START, es) && w == Exec(cfg, START, es)
  }
}
