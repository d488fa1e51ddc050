/**
 The step machine over Postgres, one SQL statement a step: a decrement and a
 rotate are two steps each, with the statements of other calls in between. Every
 run of it is matched by a run of the machine over the in-memory store, so what
 holds of all runs there holds here.
 */
module PostgresMachine {
  import opened Domain
  import opened StoreSpec
  import opened Verdict
  import opened Rpc
  import opened Machine
  import opened Invariants
  import Keymat
  import P = Postgres
  import DriverEquivalence

  // ------------------------------------------------------------------
  // The machine
  // ------------------------------------------------------------------

  // A call, or one between its decrement's or its rotate's two statements.
  datatype PgCall =
    | Between(call: Call)
    | SpendRead(req: VerifyRequest, key: Key, decisions: seq<LimitDecision>, at: Time)
    | CommitRead(keyId: string, plaintext: string)

  datatype PgWorld = PgWorld(
    table: P.Table,
    calls: map<nat, PgCall>,
    before: map<nat, set<nat>>,
    drawn: set<Bytes>,
    generated: set<string>,
    issued: seq<Issue>,
    minted: map<string, int>)

  const PG_START := PgWorld(P.Table(map[], map[], map[]), map[], map[], {}, {}, [], map[])

  predicate PgFinished(call: PgCall) {
    call.Between? && Finished(call.call)
  }

  ghost function PgFinishedCalls(w: PgWorld): set<nat> {
    set c | c in w.calls && PgFinished(w.calls[c])
  }

  ghost predicate PgEnabled(w: PgWorld, e: Event) {
    match e
    case Begin(c, call) => c !in w.calls && Initial(call)
    case Step(c, env) =>
      && c in w.calls && !PgFinished(w.calls[c])
      && FreshEnv(P.AsState(w.table), env)
      && (env.entropy.Some? ==> |env.entropy.value| == Keymat.RANDOM_BYTES && env.entropy.value !in w.drawn)
  }

  // A step of a call as one call to any driver, or none, answered by it.
  ghost function StepOver<S>(d: Driver<S>, cfg: Config, s: S, call: Call, env: Env): Effect
    requires !Finished(call)
  {
    match call
    case Verify(req, stage) => VerifyOver(d, cfg, s, req, stage, env)
    case Create(req, stage) => CreateOver(d, cfg, s, req, stage, env)
    case Rotate(id, stage) => RotateOver(d, cfg, s, id, stage, env)
    case Revoke(id, _) =>
      if id == "" then
        Local(Revoke(id, Some(ErrorReply(InvalidArgument))))
      else
        var e := d.revokeKey(s, id, env.storeAt).1;
        Writing(OpRevoke(id, env.storeAt), Revoke(id, Some(if e.Some? then ErrorReply(CodeOf(e.value)) else RevokedReply)))
    case NewWorkspace(w, _) =>
      if w.name == "" || w.ownerPrincipalId == "" then
        Local(NewWorkspace(w, Some(ErrorReply(InvalidArgument))))
      else
        var w' := d.createWorkspace(s, w, env.freshId, env.storeAt).1;
        Writing(OpCreateWorkspace(w, env.freshId, env.storeAt), NewWorkspace(w, Some(WorkspaceReply(w'))))
    case NewApi(a, _) =>
      if a.workspaceId == "" || a.name == "" then
        Local(NewApi(a, Some(ErrorReply(InvalidArgument))))
      else
        var r := d.createApi(s, a, env.freshId, env.storeAt).1;
        Writing(OpCreateApi(a, env.freshId, env.storeAt),
                NewApi(a, Some(if r.Err? then ErrorReply(CodeOf(r.error)) else ApiReply(r.value))))
    case Read(id, _) =>
      Local(Read(id, Some(if id == "" then ErrorReply(InvalidArgument)
                          else match d.getKeyById(s, id)
                               case Err(e) => ErrorReply(CodeOf(e))
                               case Ok(k) => KeyReply(ToWire(k), ""))))
  }

  ghost function VerifyOver<S>(d: Driver<S>, cfg: Config, s: S, req: VerifyRequest, stage: VerifyStage, env: Env): Effect
    requires !stage.Answered?
  {
    match stage
    case Lookup =>
      Local(Verify(req, if Keymat.Validate(req.plaintext, "").Some? then Answered(RESPONSE_NOT_FOUND, env.checkAt)
                        else match d.getKeyByHash(s, cfg.sha(req.plaintext))
                             case Err(NotFound) => Answered(RESPONSE_NOT_FOUND, env.checkAt)
                             case Err(_) => Answered(Failed(Internal), env.checkAt)
                             case Ok(k) => Check(k)))
    case Spend(k, ds) =>
      Writing(OpDecrement(k.keyId, env.storeAt),
              Verify(req, match d.decrement(s, k.keyId, env.storeAt).1.error
                          case None => Touch(k, ds)
                          case Some(Depleted) => Answered(Respond(k, DEPLETED, ds), env.checkAt)
                          case Some(_) => Answered(Failed(Internal), env.checkAt)))
    case Touch(k, ds) => Writing(OpTouch(k.keyId, env.touchAt), Verify(req, Answered(Respond(k, VALID, ds), env.checkAt)))
    // These read no store.
    case Check(_) => Advance(cfg, EMPTY, Verify(req, stage), env)
    case Consult(_) => Advance(cfg, EMPTY, Verify(req, stage), env)
  }

  ghost function CreateOver<S>(d: Driver<S>, cfg: Config, s: S, req: CreateKeyRequest, stage: CreateStage, env: Env): Effect
    requires !stage.Created?
  {
    match stage
    case ReadApi =>
      if req.apiId == "" || req.ownerPrincipalId == "" then
        Local(Create(req, Created(ErrorReply(InvalidArgument))))
      else
        (match d.getApi(s, req.apiId)
         case Err(e) => Local(Create(req, Created(ErrorReply(CodeOf(e)))))
         case Ok(api) =>
           if env.entropy.None? then
             Local(Create(req, Created(ErrorReply(Internal))))
           else
             var plaintext := Keymat.Plaintext(api.keyPrefix, env.entropy.value);
             Effect(None, Create(req, Insert(api, plaintext)), Some(plaintext), None))
    case Insert(api, plaintext) =>
      var op := OpCreateKey(DraftKey(req, api, cfg.sha(plaintext)), env.freshId, env.storeAt);
      match d.createKey(s, op.k, op.id, op.now).1
      case Err(e) => Writing(op, Create(req, Created(ErrorReply(CodeOf(e)))))
      case Ok(k) =>
        Effect(Some(op), Create(req, Created(KeyReply(ToWire(k), plaintext))), None, Some(Issue(op.id, plaintext)))
  }

  ghost function RotateOver<S>(d: Driver<S>, cfg: Config, s: S, id: string, stage: RotateStage, env: Env): Effect
    requires !stage.Rotated?
  {
    match stage
    case ReadKey =>
      if id == "" then
        Local(Rotate(id, Rotated(ErrorReply(InvalidArgument))))
      else
        (match d.getKeyById(s, id)
         case Err(e) => Local(Rotate(id, Rotated(ErrorReply(CodeOf(e)))))
         case Ok(k) => Local(Rotate(id, ReadKeyApi(k))))
    case ReadKeyApi(k) =>
      (match d.getApi(s, k.apiId)
       case Err(e) => Local(Rotate(id, Rotated(ErrorReply(CodeOf(e)))))
       case Ok(api) =>
         if env.entropy.None? then
           Local(Rotate(id, Rotated(ErrorReply(Internal))))
         else
           var plaintext := Keymat.Plaintext(api.keyPrefix, env.entropy.value);
           Effect(None, Rotate(id, Commit(plaintext)), Some(plaintext), None))
    case Commit(plaintext) =>
      var op := OpRotate(id, cfg.sha(plaintext), env.storeAt);
      match d.rotateKey(s, id, op.newHash, op.now).1
      case Err(e) => Writing(op, Rotate(id, Rotated(ErrorReply(CodeOf(e)))))
      case Ok(k) =>
        Effect(Some(op), Rotate(id, Rotated(KeyReply(ToWire(k), plaintext))), None, Some(Issue(id, plaintext)))
  }

  // A call's steps that are one statement, or none.
  ghost function OneStatement(cfg: Config, w: PgWorld, c: nat, call: Call, env: Env): PgWorld
    requires !Finished(call)
  {
    var eff := StepOver(DriverEquivalence.PostgresDriver(), cfg, w.table, call, env);
    PgWorld(
      if eff.op.Some? then P.Exec(w.table, eff.op.value) else w.table,
      w.calls[c := Between(eff.call)],
      w.before,
      Drawn(w.drawn, env),
      if eff.made.Some? then w.generated + {eff.made.value} else w.generated,
      if eff.issue.Some? then w.issued + [eff.issue.value] else w.issued,
      if eff.issue.Some? && eff.op.Some? && eff.op.value.OpCreateKey?
      then w.minted[eff.op.value.id := eff.op.value.k.remainingUses] else w.minted)
  }

  function Drawn(drawn: set<Bytes>, env: Env): set<Bytes> {
    if env.entropy.Some? then drawn + {env.entropy.value} else drawn
  }

  // The first statement of a decrement: with a row back the credit is spent,
  // without one the driver goes on to read.
  function SpendUpdate(w: PgWorld, c: nat, req: VerifyRequest, k: Key, ds: seq<LimitDecision>, env: Env): PgWorld {
    var (t', updated) := P.UpdateDecrement(w.table, k.keyId, env.storeAt);
    var call' := if updated.Some? then Between(Verify(req, Touch(k, ds))) else SpendRead(req, k, ds, env.checkAt);
    w.(table := t', calls := w.calls[c := call'], drawn := Drawn(w.drawn, env))
  }

  function AfterSpendRead(t: P.Table, req: VerifyRequest, k: Key, ds: seq<LimitDecision>, at: Time): Call {
    match P.DecrementAnswer(None, P.SelectRemaining(t, k.keyId)).error
    case None => Verify(req, Touch(k, ds))
    case Some(Depleted) => Verify(req, Answered(Respond(k, DEPLETED, ds), at))
    case Some(_) => Verify(req, Answered(Failed(Internal), at))
  }

  // The first statement of a rotate. It issues the plaintext if it matched.
  ghost function CommitUpdate(cfg: Config, w: PgWorld, c: nat, id: string, plaintext: string, env: Env): PgWorld {
    var (t', outcome) := P.UpdateHash(w.table, id, cfg.sha(plaintext), env.storeAt);
    var w' := w.(table := t', drawn := Drawn(w.drawn, env));
    if outcome.UniqueViolation? then w'.(calls := w.calls[c := Between(Rotate(id, Rotated(ErrorReply(AlreadyExists))))])
    else w'.(calls := w.calls[c := CommitRead(id, plaintext)],
             issued := if id in w.table.rows then w.issued + [Issue(id, plaintext)] else w.issued)
  }

  function AfterCommitRead(t: P.Table, id: string, plaintext: string): Call {
    match P.SelectById(t, id)
    case Err(e) => Rotate(id, Rotated(ErrorReply(CodeOf(e))))
    case Ok(k) => Rotate(id, Rotated(KeyReply(ToWire(k), plaintext)))
  }

  ghost function PgApply(cfg: Config, w: PgWorld, e: Event): PgWorld
    requires PgEnabled(w, e)
  {
    match e
    case Begin(c, call) => w.(calls := w.calls[c := Between(call)], before := w.before[c := PgFinishedCalls(w)])
    case Step(c, env) =>
      match w.calls[c]
      case SpendRead(req, k, ds, at) => w.(calls := w.calls[c := Between(AfterSpendRead(w.table, req, k, ds, at))])
      case CommitRead(id, plaintext) => w.(calls := w.calls[c := Between(AfterCommitRead(w.table, id, plaintext))])
      case Between(call) =>
        if call.Verify? && call.verify.Spend? then
          SpendUpdate(w, c, call.req, call.verify.key, call.verify.decisions, env)
        else if call.Rotate? && call.rotate.Commit? then
          CommitUpdate(cfg, w, c, call.keyId, call.rotate.plaintext, env)
        else
          OneStatement(cfg, w, c, call, env)
  }

  ghost predicate PgLegal(cfg: Config, w: PgWorld, es: seq<Event>)
    decreases |es|, 0
  {
    es == [] ||
    (PgLegal(cfg, w, es[..|es| - 1]) && PgEnabled(PgExec(cfg, w, es[..|es| - 1]), es[|es| - 1]))
  }

  ghost function PgExec(cfg: Config, w: PgWorld, es: seq<Event>): PgWorld
    requires PgLegal(cfg, w, es)
    decreases |es|, 1
  {
    if es == [] then w else PgApply(cfg, PgExec(cfg, w, es[..|es| - 1]), es[|es| - 1])
  }

  ghost predicate PgReachable(cfg: Config, w: PgWorld) {
    exists es :: PgLegal(cfg, PG_START, es) && w == PgExec(cfg, PG_START, es)
  }

  // ------------------------------------------------------------------
  // Matching the two machines
  // ------------------------------------------------------------------

  ghost predicate SameTables(t: P.Table, s: State) {
    && t.workspaces == s.workspaces && t.apis == s.apis && t.rows.Keys == s.keys.Keys
    && forall id <- t.rows :: SameKey(t.rows[id], s.keys[id])
  }

  predicate SameVerify(a: VerifyStage, b: VerifyStage) {
    match a
    case Lookup => b.Lookup?
    case Check(k) => b.Check? && SameKey(k, b.key)
    case Consult(k) => b.Consult? && SameKey(k, b.key)
    case Spend(k, ds) => b.Spend? && SameKey(k, b.key) && ds == b.decisions
    case Touch(k, ds) => b.Touch? && SameKey(k, b.key) && ds == b.decisions
    case Answered(_, _) => a == b
  }

  // A rotate's reply shows the key as it was read, which may have moved on since
  // it was written.
  predicate SameIssue(a: Reply, b: Reply) {
    if a.KeyReply? && b.KeyReply? then a.plaintext == b.plaintext && KeyEvolves(b.key, a.key) else a == b
  }

  predicate SameRead(a: Reply, b: Reply) {
    if a.KeyReply? && b.KeyReply? then SameKey(a.key, b.key) && a.plaintext == b.plaintext else a == b
  }

  // The same call at the same stage, up to update stamps.
  predicate SameStage(a: Call, b: Call) {
    match a
    case Verify(req, stage) => b.Verify? && b.req == req && SameVerify(stage, b.verify)
    case Rotate(id, stage) =>
      b.Rotate? && b.keyId == id &&
      (match stage
       case ReadKeyApi(k) => b.rotate.ReadKeyApi? && SameKey(k, b.rotate.key)
       case Rotated(reply) => b.rotate.Rotated? && SameIssue(reply, b.rotate.reply)
       case _ => stage == b.rotate)
    case Read(id, got) =>
      b.Read? && b.keyId == id && got.Some? == b.got.Some? && (got.Some? ==> SameRead(got.value, b.got.value))
    case _ => a == b
  }

  // Between its two statements a call has already done, and been answered, what
  // its match in memory has.
  predicate SameCall(t: P.Table, a: PgCall, b: Call) {
    match a
    case Between(call) => SameStage(call, b)
    case SpendRead(req, k, ds, at) => b == Verify(req, Answered(Respond(k, DEPLETED, ds), at))
    case CommitRead(id, plaintext) =>
      && b.Rotate? && b.keyId == id && b.rotate.Rotated? && b.rotate.reply.KeyReply?
      && b.rotate.reply.plaintext == plaintext && id in t.rows && KeyEvolves(b.rotate.reply.key, t.rows[id])
  }

  // A call that has ended here has ended there, where it may end sooner.
  ghost predicate SameBefore(p: PgWorld, w: World) {
    p.before.Keys == w.before.Keys == p.calls.Keys && forall c <- p.before :: p.before[c] <= w.before[c]
  }

  ghost predicate Match(p: PgWorld, w: World) {
    && SameTables(p.table, w.store) && SameBefore(p, w)
    && p.calls.Keys == w.calls.Keys && (forall c <- p.calls :: SameCall(p.table, p.calls[c], w.calls[c]))
    && p.drawn == w.drawn && p.generated == w.generated && p.issued == w.issued && p.minted == w.minted
  }

  // ------------------------------------------------------------------
  // Statements and operations
  // ------------------------------------------------------------------

  lemma TakenInStore(t: P.Table, s: State, hash: Bytes, id: string)
    requires SameTables(t, s) && IndexAgrees(s)
    ensures P.HashTaken(t, hash, id) <==> hash in s.hashIndex && s.hashIndex[hash] != id
  {
    if P.HashTaken(t, hash, id) {
      var other :| other in t.rows && other != id && t.rows[other].keyHash == hash;
      assert SameKey(t.rows[other], s.keys[other]);
    }
    if hash in s.hashIndex && s.hashIndex[hash] != id {
      assert SameKey(t.rows[s.hashIndex[hash]], s.keys[s.hashIndex[hash]]);
    }
  }

  lemma PutSame(t: P.Table, s: State, t': P.Table, s': State, id: string)
    requires SameTables(t, s) && t'.workspaces == s'.workspaces && t'.apis == s'.apis
    requires id in t'.rows && t'.rows == t.rows[id := t'.rows[id]]
    requires id in s'.keys && s'.keys == s.keys[id := s'.keys[id]] && SameKey(t'.rows[id], s'.keys[id])
    ensures SameTables(t', s')
  {
  }

  // A writing statement and its operation leave the tables matched.
  lemma OpMatches(t: P.Table, s: State, op: Op)
    requires SameTables(t, s) && StoreOk(s) && OpOk(s, op)
    ensures SameTables(P.Exec(t, op), Do(s, op))
  {
    match op
    case OpCreateWorkspace(_, _, _) =>
    case OpCreateApi(_, _, _) =>
    case OpCreateKey(k, id, now) => InsertMatches(t, s, k, id, now);
    case OpRevoke(id, now) => RevokeMatches(t, s, id, now);
    case OpRotate(id, hash, now) => UpdateHashMatches(t, s, id, hash, now);
    case OpTouch(id, at) => TouchMatches(t, s, id, at);
    case OpDecrement(id, now) => DecrementMatches(t, s, id, now);
  }

  lemma InsertMatches(t: P.Table, s: State, k: Key, id: string, now: Time)
    requires SameTables(t, s) && IndexAgrees(s) && Tenancy(s) && id !in s.keys && InTenant(s, OpCreateKey(k, id, now))
    ensures SameTables(P.CreateKey(t, k, id, now).0, StoreSpec.CreateKey(s, k, id, now).0)
  {
    TakenInStore(t, s, k.keyHash, id);
    var k' := k.(keyId := id, createdAt := now, updatedAt := now);
    if k.apiId in s.apis && k.keyHash !in s.hashIndex {
      assert P.InsertKey(t, k') == (t.(rows := t.rows[id := k']), P.Success);
      PutSame(t, s, t.(rows := t.rows[id := k']), StoreSpec.CreateKey(s, k, id, now).0, id);
    } else {
      assert P.CreateKey(t, k, id, now).0 == t && StoreSpec.CreateKey(s, k, id, now).0 == s;
    }
  }

  lemma RevokeMatches(t: P.Table, s: State, id: string, now: Time)
    requires SameTables(t, s)
    ensures SameTables(P.UpdateRevoke(t, id, now).0, StoreSpec.RevokeKey(s, id, now).0)
  {
    if id in s.keys {
      assert SameKey(t.rows[id], s.keys[id]) && s.keys[id := s.keys[id]] == s.keys;
      PutSame(t, s, P.UpdateRevoke(t, id, now).0, StoreSpec.RevokeKey(s, id, now).0, id);
    }
  }

  lemma UpdateHashMatches(t: P.Table, s: State, id: string, hash: Bytes, now: Time)
    requires SameTables(t, s) && IndexAgrees(s)
    ensures SameTables(P.UpdateHash(t, id, hash, now).0, StoreSpec.RotateKey(s, id, hash, now).0)
  {
    TakenInStore(t, s, hash, id);
    if id in s.keys && !P.HashTaken(t, hash, id) {
      assert SameKey(t.rows[id], s.keys[id]);
      PutSame(t, s, P.UpdateHash(t, id, hash, now).0, StoreSpec.RotateKey(s, id, hash, now).0, id);
    }
  }

  lemma TouchMatches(t: P.Table, s: State, id: string, at: Time)
    requires SameTables(t, s)
    ensures SameTables(P.UpdateTouch(t, id, at).0, StoreSpec.TouchLastVerified(s, id, at).0)
  {
    if id in s.keys {
      assert SameKey(t.rows[id], s.keys[id]);
      PutSame(t, s, P.UpdateTouch(t, id, at).0, StoreSpec.TouchLastVerified(s, id, at).0, id);
    }
  }

  lemma DecrementMatches(t: P.Table, s: State, id: string, now: Time)
    requires SameTables(t, s)
    ensures SameTables(P.UpdateDecrement(t, id, now).0, StoreSpec.Decrement(s, id, now).0)
    ensures id in s.keys && s.keys[id].remainingUses >= 0 ==>
              var updated, r := P.UpdateDecrement(t, id, now).1, StoreSpec.Decrement(s, id, now).1;
              if updated.Some? then r.error.None? else r.error == Some(Depleted)
  {
    if id in s.keys {
      assert SameKey(t.rows[id], s.keys[id]);
      if s.keys[id].remainingUses > 0 {
        PutSame(t, s, P.UpdateDecrement(t, id, now).0, StoreSpec.Decrement(s, id, now).0, id);
      }
    }
  }

  // ------------------------------------------------------------------
  // Steps
  // ------------------------------------------------------------------

  // Two effects that do the same, on calls the same up to update stamps.
  predicate SameEffect(a: Effect, b: Effect) {
    a.op == b.op && a.made == b.made && a.issue == b.issue && SameStage(a.call, b.call)
  }

  lemma SameScreen(cfg: Config, a: Key, b: Key, req: VerifyRequest, env: Env)
    requires SameKey(a, b)
    ensures LocalVerdict(a, req, env.checkAt) == LocalVerdict(b, req, env.checkAt)
    ensures NeedsLimiter(a, req) == NeedsLimiter(b, req)
    ensures forall v, ds :: Respond(a, v, ds) == Respond(b, v, ds)
  {
  }

  lemma LookupMatches(t: P.Table, s: State, hash: Bytes)
    requires SameTables(t, s) && IndexAgrees(s)
    ensures var found := GetKeyByHash(s, hash);
            if found.Ok? then found.value.keyId in t.rows && P.SelectByHash(t, hash) == Ok(t.rows[found.value.keyId])
            else P.SelectByHash(t, hash) == Err(NotFound)
  {
    if hash in s.hashIndex {
      var id := s.hashIndex[hash];
      assert SameKey(t.rows[id], s.keys[id]) && t.rows[id] in t.rows.Values;
      var k := P.SelectByHash(t, hash).value;
      var other :| other in t.rows && t.rows[other] == k;
      assert SameKey(t.rows[other], s.keys[other]);
    } else {
      forall k | k in t.rows.Values ensures k.keyHash != hash {
        var other :| other in t.rows && t.rows[other] == k;
        assert SameKey(t.rows[other], s.keys[other]);
      }
    }
  }

  lemma VerifyStepMatches(cfg: Config, t: P.Table, s: State, a: Call, b: Call, env: Env)
    requires SameTables(t, s) && IndexAgrees(s) && SameStage(a, b) && a.Verify? && !Finished(a) && !a.verify.Spend?
    ensures SameEffect(StepOver(DriverEquivalence.PostgresDriver(), cfg, t, a, env), Advance(cfg, s, b, env))
  {
    match a.verify
    case Lookup => LookupMatches(t, s, cfg.sha(a.req.plaintext));
    case Check(k) => SameScreen(cfg, k, b.verify.key, a.req, env);
    case Consult(k) => SameScreen(cfg, k, b.verify.key, a.req, env);
    case Touch(k, ds) => SameScreen(cfg, k, b.verify.key, a.req, env);
  }

  lemma CreateStepMatches(cfg: Config, t: P.Table, s: State, a: Call, b: Call, env: Env)
    requires SameTables(t, s) && StoreOk(s) && SameStage(a, b) && a.Create? && !Finished(a) && CallOk(cfg, s, b)
    requires FreshEnv(s, env)
    ensures SameEffect(StepOver(DriverEquivalence.PostgresDriver(), cfg, t, a, env), Advance(cfg, s, b, env))
  {
    if a.create.Insert? {
      InsertAnswers(t, s, DraftKey(a.creq, a.create.api, cfg.sha(a.create.plaintext)), env.freshId, env.storeAt);
    }
  }

  lemma InsertAnswers(t: P.Table, s: State, k: Key, id: string, now: Time)
    requires SameTables(t, s) && IndexAgrees(s) && Tenancy(s) && id !in s.keys
    requires k.apiId in s.apis && s.apis[k.apiId].workspaceId == k.workspaceId
    ensures P.CreateKey(t, k, id, now).1 == StoreSpec.CreateKey(s, k, id, now).1
  {
    TakenInStore(t, s, k.keyHash, id);
  }

  lemma RotateStepMatches(cfg: Config, t: P.Table, s: State, a: Call, b: Call, env: Env)
    requires SameTables(t, s) && SameStage(a, b) && a.Rotate? && !a.rotate.Commit? && !Finished(a)
    ensures SameEffect(StepOver(DriverEquivalence.PostgresDriver(), cfg, t, a, env), Advance(cfg, s, b, env))
  {
    if a.keyId in s.keys {
      assert SameKey(t.rows[a.keyId], s.keys[a.keyId]);
    }
  }

  lemma OtherStepMatches(cfg: Config, t: P.Table, s: State, a: Call, b: Call, env: Env)
    requires SameTables(t, s) && SameStage(a, b) && !a.Verify? && !a.Create? && !a.Rotate? && !Finished(a)
    ensures SameEffect(StepOver(DriverEquivalence.PostgresDriver(), cfg, t, a, env), Advance(cfg, s, b, env))
  {
    if (a.Revoke? || a.Read?) && a.keyId in s.keys {
      assert SameKey(t.rows[a.keyId], s.keys[a.keyId]);
    }
  }

  predicate TwoStatements(call: Call) {
    (call.Verify? && call.verify.Spend?) || (call.Rotate? && call.rotate.Commit?)
  }

  // A step that is one statement is answered by Postgres as by memory.
  lemma StatementMatches(cfg: Config, t: P.Table, s: State, a: Call, b: Call, env: Env)
    requires SameTables(t, s) && StoreOk(s) && SameStage(a, b) && !Finished(a) && !TwoStatements(a)
    requires CallOk(cfg, s, b) && FreshEnv(s, env)
    ensures SameEffect(StepOver(DriverEquivalence.PostgresDriver(), cfg, t, a, env), Advance(cfg, s, b, env))
  {
    if a.Verify? {
      VerifyStepMatches(cfg, t, s, a, b, env);
    } else if a.Create? {
      CreateStepMatches(cfg, t, s, a, b, env);
    } else if a.Rotate? {
      RotateStepMatches(cfg, t, s, a, b, env);
    } else {
      OtherStepMatches(cfg, t, s, a, b, env);
    }
  }

  // Over memory such a step is the step of the machine there.
  lemma StepOverMemory(cfg: Config, s: State, call: Call, env: Env)
    requires !Finished(call)
    ensures StepOver(MemoryDriver(), cfg, s, call, env) == Advance(cfg, s, call, env)
  {
  }

  lemma RowEvolves(t: P.Table, s: State, t': P.Table, s': State, id: string)
    requires SameTables(t, s) && SameTables(t', s') && Evolves(s, s') && id in t.rows
    ensures id in t'.rows && KeyEvolves(t.rows[id], t'.rows[id])
  {
    assert SameKey(t.rows[id], s.keys[id]) && SameKey(t'.rows[id], s'.keys[id]) && KeyEvolves(s.keys[id], s'.keys[id]);
  }

  // A call that does not move stays matched while the tables do.
  lemma SameCallStable(t: P.Table, s: State, t': P.Table, s': State, a: PgCall, b: Call)
    requires SameTables(t, s) && SameTables(t', s') && Evolves(s, s') && SameCall(t, a, b)
    ensures SameCall(t', a, b)
  {
    if a.CommitRead? {
      RowEvolves(t, s, t', s', a.keyId);
    }
  }

  // Moving one call in both worlds, and the tables with it.
  lemma MatchMoves(p: PgWorld, w: World, p': PgWorld, w': World, c: nat)
    requires Match(p, w) && c in p.calls && Evolves(w.store, w'.store) && SameTables(p'.table, w'.store)
    requires c in p'.calls && p'.calls == p.calls[c := p'.calls[c]] && p'.before == p.before && w'.before == w.before
    requires c in w'.calls && w'.calls == w.calls[c := w'.calls[c]] && SameCall(p'.table, p'.calls[c], w'.calls[c])
    requires p'.drawn == w'.drawn && p'.generated == w'.generated && p'.issued == w'.issued && p'.minted == w'.minted
    ensures Match(p', w')
  {
    forall d | d in p.calls && d != c ensures SameCall(p'.table, p'.calls[d], w'.calls[d]) {
      SameCallStable(p.table, w.store, p'.table, w'.store, p.calls[d], w.calls[d]);
    }
  }

  lemma EnabledMatches(cfg: Config, p: PgWorld, w: World, c: nat, env: Env)
    requires Match(p, w) && PgEnabled(p, Step(c, env)) && p.calls[c].Between?
    ensures Enabled(w, Step(c, env))
  {
    assert SameStage(p.calls[c].call, w.calls[c]);
  }

  lemma OneStatementMatches(cfg: Config, p: PgWorld, w: World, c: nat, env: Env)
    requires Match(p, w) && CallsOk(cfg, w) && PgEnabled(p, Step(c, env))
    requires p.calls[c].Between? && !TwoStatements(p.calls[c].call)
    ensures Enabled(w, Step(c, env)) && Match(PgApply(cfg, p, Step(c, env)), Apply(cfg, w, Step(c, env)))
  {
    EnabledMatches(cfg, p, w, c, env);
    var a, b := p.calls[c].call, w.calls[c];
    StatementMatches(cfg, p.table, w.store, a, b, env);
    ApplyKeepsCalls(cfg, w, Step(c, env));
    var eff := Advance(cfg, w.store, b, env);
    StepOpOk(cfg, w.store, b, env);
    if eff.op.Some? {
      OpMatches(p.table, w.store, eff.op.value);
    }
    MatchMoves(p, w, PgApply(cfg, p, Step(c, env)), Apply(cfg, w, Step(c, env)), c);
  }

  lemma StepOpOk(cfg: Config, s: State, call: Call, env: Env)
    requires StoreOk(s) && !Finished(call) && CallOk(cfg, s, call) && FreshEnv(s, env)
    ensures var eff := Advance(cfg, s, call, env); eff.op.Some? ==> OpOk(s, eff.op.value)
  {
    if call.Verify? {
      VerifyStepOk(cfg, s, call.req, call.verify, env);
    } else {
      IssueStepOk(cfg, s, call, env);
    }
  }

  lemma SpendInMemory(cfg: Config, w: World, c: nat, env: Env, req: VerifyRequest, k: Key, ds: seq<LimitDecision>)
    requires Enabled(w, Step(c, env)) && w.calls[c] == Verify(req, Spend(k, ds))
    requires k.keyId in w.store.keys && w.store.keys[k.keyId].remainingUses >= 0
    ensures var (s', r) := Decrement(w.store, k.keyId, env.storeAt);
            var stage := if r.error.None? then Touch(k, ds) else Answered(Respond(k, DEPLETED, ds), env.checkAt);
            Apply(cfg, w, Step(c, env)) ==
              w.(store := s', calls := w.calls[c := Verify(req, stage)], drawn := Drawn(w.drawn, env))
  {
  }

  lemma CommitInMemory(cfg: Config, w: World, c: nat, env: Env, id: string, plaintext: string)
    requires Enabled(w, Step(c, env)) && w.calls[c] == Rotate(id, Commit(plaintext)) && id in w.store.keys
    ensures var (s', r) := StoreSpec.RotateKey(w.store, id, cfg.sha(plaintext), env.storeAt);
            var reply := if r.Err? then ErrorReply(CodeOf(r.error)) else KeyReply(ToWire(r.value), plaintext);
            Apply(cfg, w, Step(c, env)) ==
              w.(store := s', calls := w.calls[c := Rotate(id, Rotated(reply))], drawn := Drawn(w.drawn, env),
                 issued := if r.Ok? then w.issued + [Issue(id, plaintext)] else w.issued)
  {
  }

  // A decrement does at its first statement what it does in memory in one step.
  lemma SpendUpdateMatches(cfg: Config, p: PgWorld, w: World, c: nat, env: Env)
    requires Match(p, w) && CallsOk(cfg, w) && PgEnabled(p, Step(c, env))
    requires p.calls[c].Between? && p.calls[c].call.Verify? && p.calls[c].call.verify.Spend?
    ensures Enabled(w, Step(c, env)) && Match(PgApply(cfg, p, Step(c, env)), Apply(cfg, w, Step(c, env)))
  {
    EnabledMatches(cfg, p, w, c, env);
    ApplyKeepsCalls(cfg, w, Step(c, env));
    var a, b := p.calls[c].call, w.calls[c];
    assert SameStage(a, b) by { assert SameCall(p.table, p.calls[c], b); }
    var id := b.verify.key.keyId;
    CreditKeyThere(cfg, w, c);
    SpendInMemory(cfg, w, c, env, b.req, b.verify.key, b.verify.decisions);
    DecrementMatches(p.table, w.store, id, env.storeAt);
    SameScreen(cfg, a.verify.key, b.verify.key, a.req, env);
    MatchMoves(p, w, SpendUpdate(p, c, a.req, a.verify.key, a.verify.decisions, env), Apply(cfg, w, Step(c, env)), c);
  }

  lemma CreditKeyThere(cfg: Config, w: World, c: nat)
    requires CallsOk(cfg, w) && c in w.calls && w.calls[c].Verify? && w.calls[c].verify.Spend?
    ensures var id := w.calls[c].verify.key.keyId; id in w.store.keys && w.store.keys[id].remainingUses >= 0
  {
    assert CallOk(cfg, w.store, w.calls[c]);
  }

  // So does a rotate.
  lemma CommitUpdateMatches(cfg: Config, p: PgWorld, w: World, c: nat, env: Env)
    requires Match(p, w) && CallsOk(cfg, w) && PgEnabled(p, Step(c, env))
    requires p.calls[c].Between? && p.calls[c].call.Rotate? && p.calls[c].call.rotate.Commit?
    ensures Enabled(w, Step(c, env)) && Match(PgApply(cfg, p, Step(c, env)), Apply(cfg, w, Step(c, env)))
  {
    EnabledMatches(cfg, p, w, c, env);
    ApplyKeepsCalls(cfg, w, Step(c, env));
    var a := p.calls[c].call;
    assert SameStage(a, w.calls[c]) by { assert SameCall(p.table, p.calls[c], w.calls[c]); }
    var id, plaintext := a.keyId, a.rotate.plaintext;
    RotatedKeyThere(cfg, w, c);
    CommitInMemory(cfg, w, c, env, id, plaintext);
    CommitOutcomes(cfg, p, w.store, c, env, id, plaintext);
    MatchMoves(p, w, CommitUpdate(cfg, p, c, id, plaintext, env), Apply(cfg, w, Step(c, env)), c);
  }

  lemma HashUpdated(t: P.Table, s: State, id: string, hash: Bytes, now: Time)
    requires SameTables(t, s) && IndexAgrees(s) && id in s.keys
    ensures var (t', outcome) := P.UpdateHash(t, id, hash, now);
            var r := StoreSpec.RotateKey(s, id, hash, now).1;
            if outcome.UniqueViolation? then r == Err(Conflict)
            else r.Ok? && id in t'.rows && KeyEvolves(ToWire(r.value), t'.rows[id])
  {
    TakenInStore(t, s, hash, id);
    assert SameKey(t.rows[id], s.keys[id]);
  }

  lemma CommitOutcomes(cfg: Config, p: PgWorld, s: State, c: nat, env: Env, id: string, plaintext: string)
    requires SameTables(p.table, s) && IndexAgrees(s) && id in s.keys
    ensures var p' := CommitUpdate(cfg, p, c, id, plaintext, env);
            var (s', r) := StoreSpec.RotateKey(s, id, cfg.sha(plaintext), env.storeAt);
            var reply := if r.Err? then ErrorReply(CodeOf(r.error)) else KeyReply(ToWire(r.value), plaintext);
            && SameTables(p'.table, s') && c in p'.calls && p'.calls == p.calls[c := p'.calls[c]]
            && SameCall(p'.table, p'.calls[c], Rotate(id, Rotated(reply)))
            && p'.issued == (if r.Ok? then p.issued + [Issue(id, plaintext)] else p.issued)
            && p'.drawn == Drawn(p.drawn, env) && p'.generated == p.generated && p'.minted == p.minted
            && p'.before == p.before
  {
    UpdateHashMatches(p.table, s, id, cfg.sha(plaintext), env.storeAt);
    HashUpdated(p.table, s, id, cfg.sha(plaintext), env.storeAt);
  }

  lemma RotatedKeyThere(cfg: Config, w: World, c: nat)
    requires CallsOk(cfg, w) && c in w.calls && w.calls[c].Rotate? && w.calls[c].rotate.Commit?
    ensures w.calls[c].keyId in w.store.keys && w.store.keys[w.calls[c].keyId].keyId == w.calls[c].keyId
  {
    assert CallOk(cfg, w.store, w.calls[c]);
  }

  lemma SpendReadTells(cfg: Config, p: PgWorld, w: World, c: nat)
    requires Match(p, w) && CallsOk(cfg, w) && c in p.calls && p.calls[c].SpendRead?
    ensures AfterSpendRead(p.table, p.calls[c].req, p.calls[c].key, p.calls[c].decisions, p.calls[c].at) == w.calls[c]
  {
    assert CallOk(cfg, w.store, w.calls[c]) && SameCall(p.table, p.calls[c], w.calls[c]);
    var id := p.calls[c].key.keyId;
    assert id in w.store.keys && w.store.keys[id].remainingUses == 0;
    assert SameKey(p.table.rows[id], w.store.keys[id]);
  }

  lemma CommitReadTells(cfg: Config, p: PgWorld, w: World, c: nat)
    requires Match(p, w) && IndexAgrees(w.store) && c in p.calls && p.calls[c].CommitRead?
    ensures SameStage(AfterCommitRead(p.table, p.calls[c].keyId, p.calls[c].plaintext), w.calls[c])
  {
    assert SameCall(p.table, p.calls[c], w.calls[c]);
    var id := p.calls[c].keyId;
    assert SameKey(p.table.rows[id], w.store.keys[id]) && w.store.keys[id].keyId == id;
  }

  lemma StageSame(call: Call)
    ensures SameStage(call, call)
  {
  }

  lemma EvolvesSelf(s: State)
    requires IndexAgrees(s) && StoreOk(s)
    ensures Evolves(s, s)
  {
  }

  lemma ToldMatches(p: PgWorld, w: World, c: nat, call: Call)
    requires Match(p, w) && IndexAgrees(w.store) && StoreOk(w.store) && c in p.calls && SameStage(call, w.calls[c])
    ensures Match(p.(calls := p.calls[c := Between(call)]), w)
  {
    assert w.calls == w.calls[c := w.calls[c]];
    EvolvesSelf(w.store);
    MatchMoves(p, w, p.(calls := p.calls[c := Between(call)]), w, c);
  }

  // The read that follows only tells the call what has been settled already.
  lemma ReadMatches(cfg: Config, p: PgWorld, w: World, c: nat, env: Env)
    requires Match(p, w) && CallsOk(cfg, w) && PgEnabled(p, Step(c, env)) && !p.calls[c].Between?
    ensures Match(PgApply(cfg, p, Step(c, env)), w)
  {
    match p.calls[c]
    case SpendRead(req, k, ds, at) =>
      SpendReadTells(cfg, p, w, c);
      StageSame(w.calls[c]);
      ToldMatches(p, w, c, AfterSpendRead(p.table, req, k, ds, at));
    case CommitRead(id, plaintext) =>
      CommitReadTells(cfg, p, w, c);
      ToldMatches(p, w, c, AfterCommitRead(p.table, id, plaintext));
  }

  // ------------------------------------------------------------------
  // Runs
  // ------------------------------------------------------------------

  // What a run does in memory: all its events but the second statements.
  ghost function InMemory(cfg: Config, p: PgWorld, ps: seq<Event>): seq<Event>
    requires PgLegal(cfg, p, ps)
  {
    if ps == [] then []
    else
      var front, e := ps[..|ps| - 1], ps[|ps| - 1];
      InMemory(cfg, p, front) + if ReadsAgain(PgExec(cfg, p, front), e) then [] else [e]
  }

  predicate ReadsAgain(p: PgWorld, e: Event) {
    e.Step? && e.c in p.calls && !p.calls[e.c].Between?
  }

  // Every run from matched worlds is matched by what it does in memory.
  lemma {:induction false} RunMatches(cfg: Config, p: PgWorld, w: World, ps: seq<Event>)
    requires Match(p, w) && CallsOk(cfg, w) && PgLegal(cfg, p, ps)
    ensures var es := InMemory(cfg, p, ps); Legal(cfg, w, es) && Match(PgExec(cfg, p, ps), Exec(cfg, w, es))
    ensures forall e <- InMemory(cfg, p, ps) :: e in ps
  {
    if ps != [] {
      var front, e := ps[..|ps| - 1], ps[|ps| - 1];
      RunMatches(cfg, p, w, front);
      var es := InMemory(cfg, p, front);
      var mp, mw := PgExec(cfg, p, front), Exec(cfg, w, es);
      RunKeepsCalls(cfg, w, es);
      StepMatches(cfg, mp, mw, e);
      if ReadsAgain(mp, e) {
        assert InMemory(cfg, p, ps) == es;
      } else {
        assert (es + [e])[..|es + [e]| - 1] == es;
      }
    }
  }

  lemma StepMatches(cfg: Config, p: PgWorld, w: World, e: Event)
    requires Match(p, w) && CallsOk(cfg, w) && PgEnabled(p, e)
    ensures if ReadsAgain(p, e) then Match(PgApply(cfg, p, e), w)
            else Enabled(w, e) && Match(PgApply(cfg, p, e), Apply(cfg, w, e))
  {
    if ReadsAgain(p, e) {
      ReadMatches(cfg, p, w, e.c, e.env);
    } else {
      EventMatches(cfg, p, w, e);
    }
  }

  lemma EventMatches(cfg: Config, p: PgWorld, w: World, e: Event)
    requires Match(p, w) && CallsOk(cfg, w) && PgEnabled(p, e) && (e.Step? ==> p.calls[e.c].Between?)
    ensures Enabled(w, e) && Match(PgApply(cfg, p, e), Apply(cfg, w, e))
  {
    if e.Begin? {
      BeginMatches(cfg, p, w, e.c, e.call);
    } else if p.calls[e.c].call.Verify? && p.calls[e.c].call.verify.Spend? {
      SpendUpdateMatches(cfg, p, w, e.c, e.env);
    } else if p.calls[e.c].call.Rotate? && p.calls[e.c].call.rotate.Commit? {
      CommitUpdateMatches(cfg, p, w, e.c, e.env);
    } else {
      OneStatementMatches(cfg, p, w, e.c, e.env);
    }
  }

  lemma BeginMatches(cfg: Config, p: PgWorld, w: World, c: nat, call: Call)
    requires Match(p, w) && PgEnabled(p, Begin(c, call))
    ensures Enabled(w, Begin(c, call)) && Match(PgApply(cfg, p, Begin(c, call)), Apply(cfg, w, Begin(c, call)))
  {
    var p', w' := PgApply(cfg, p, Begin(c, call)), Apply(cfg, w, Begin(c, call));
    forall d | d in p.calls && PgFinished(p.calls[d]) ensures d in w.calls && Finished(w.calls[d]) {
      assert SameCall(p.table, p.calls[d], w.calls[d]);
    }
    forall d | d in p'.calls ensures SameCall(p'.table, p'.calls[d], w'.calls[d]) {
      StageSame(call);
    }
  }

  // Every reachable world over Postgres matches a reachable one over memory.
  lemma ReachableMatches(cfg: Config, p: PgWorld) returns (w: World)
    requires PgReachable(cfg, p)
    ensures Reachable(cfg, w) && Match(p, w)
  {
    var ps :| PgLegal(cfg, PG_START, ps) && p == PgExec(cfg, PG_START, ps);
    StartOk(cfg);
    RunMatches(cfg, PG_START, START, ps);
    w := Exec(cfg, START, InMemory(cfg, PG_START, ps));
  }

  lemma StartOk(cfg: Config)
    ensures CallsOk(cfg, START) && Match(PG_START, START)
  {
  }
}
