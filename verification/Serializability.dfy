/**
 Runs that spend no credit: whatever calls run, and on however many keys, they
 look as if each ran at one instant between its beginning and its end. A verify
 has that instant at its lookup, any other call at the step that answers it.
 */
module Serializability {
  import opened Domain
  import opened StoreSpec
  import opened Verdict
  import opened Rpc
  import opened Machine
  import opened Invariants
  import opened Replay
  import Keymat

  // ------------------------------------------------------------------
  // Serial orders
  // ------------------------------------------------------------------

  // Touches may land in another order than the calls they belong to, so stores
  // and records are compared up to the last-verified stamp.
  function Untouched(k: Key): Key {
    k.(lastVerifiedAt := None)
  }

  ghost predicate SameStore(s: State, t: State) {
    && s.workspaces == t.workspaces && s.apis == t.apis && s.hashIndex == t.hashIndex && s.keys.Keys == t.keys.Keys
    && forall id <- s.keys :: Untouched(s.keys[id]) == Untouched(t.keys[id])
  }

  predicate SameAnswer(a: Reply, b: Reply) {
    if a.KeyReply? && b.KeyReply? then Untouched(a.key) == Untouched(b.key) && a.plaintext == b.plaintext else a == b
  }

  // `order` lists the calls begun since w0, each once; no call comes before one
  // that had finished when it began; and run alone in that order by the
  // sequential server, each gets the reply it got, and the store ends as it did.
  ghost predicate SerialOrder(x: Setting, w: World, order: seq<nat>) {
    && (forall c :: c in order <==> c in w.calls && c !in x.w0.calls)
    && (forall i, j :: 0 <= i < j < |order| ==> order[i] != order[j])
    && InOrder(w, order)
    && (forall i :: 0 <= i < |order| ==>
          Finished(w.calls[order[i]]) && SameAnswer(SerialReply(x, Requests(w), order, i), Given(w.calls[order[i]])))
    && SameStore(Serial(x, Requests(w), order), w.store)
  }

  // ------------------------------------------------------------------
  // Calls that spend no credit
  // ------------------------------------------------------------------

  predicate HasCredit(k: Key) {
    k.enabled && k.remainingUses > 0
  }

  // The call neither makes a key with credit nor meets one that has credit in
  // s, other than to read or revoke it.
  predicate SpendsNothing(cfg: Config, s: State, call: Call) {
    match call
    case Verify(req, _) =>
      var h := cfg.sha(req.plaintext);
      h in s.hashIndex && s.hashIndex[h] in s.keys ==> !HasCredit(s.keys[s.hashIndex[h]])
    case Rotate(id, _) => id in s.keys ==> !HasCredit(s.keys[id])
    case Create(creq, _) => creq.remainingUses <= 0
    case _ => true
  }

  // The keys that had credit at the start keep their hash, and no other key has
  // credit.
  ghost predicate CreditAside(s0: State, s: State) {
    forall id <- s.keys ::
      if id in s0.keys && HasCredit(s0.keys[id]) then s.keys[id].keyHash == s0.keys[id].keyHash
      else !HasCredit(s.keys[id])
  }

  // So what a harmless plaintext looks up has no credit.
  lemma LookupWithoutCredit(cfg: Config, s0: State, s: State, req: VerifyRequest, stage: VerifyStage)
    requires IndexAgrees(s0) && IndexAgrees(s) && CreditAside(s0, s) && SpendsNothing(cfg, s0, Verify(req, stage))
    ensures var h := cfg.sha(req.plaintext); h in s.hashIndex ==> !HasCredit(s.keys[s.hashIndex[h]])
  {
  }

  // ------------------------------------------------------------------
  // The answer a call is bound to give
  // ------------------------------------------------------------------

  function VerdictOn(cfg: Config, k: Key, req: VerifyRequest, own: Env): VerifyOutcome {
    var screen := Screen(cfg.limiter, k, req, own.checkAt, own.answer);
    if screen.Stop? then screen.outcome else Respond(k, VALID, screen.decisions)
  }

  // Known from its lookup on for a verify, from its answer on for other calls.
  function Bound(cfg: Config, call: Call, own: Env): Option<Reply> {
    match call
    case Verify(req, stage) =>
      (match stage
       case Lookup => None
       case Check(k) => Some(Wire(VerdictOn(cfg, k, req, own)))
       case Consult(k) => Some(Wire(VerdictOn(cfg, k, req, own)))
       case Spend(k, ds) => None
       case Touch(k, ds) => Some(Wire(Respond(k, VALID, ds)))
       case Answered(o, _) => Some(Wire(o)))
    case _ => if Finished(call) then Some(Given(call)) else None
  }

  // What a call's stage carries, in terms of what it read and of the store.
  predicate Carries(cfg: Config, s: State, call: Call, own: Env) {
    match call
    case Verify(req, stage) =>
      (match stage
       case Check(k) => !HasCredit(k)
       case Consult(k) =>
         && !HasCredit(k) && LocalVerdict(k, req, own.checkAt) == None && NeedsLimiter(k, req) && !cfg.limiter.NoLimiter?
       case Spend(_, _) => false
       case _ => true)
    case Create(creq, stage) =>
      stage.Insert? ==>
        && creq.apiId != "" && creq.ownerPrincipalId != "" && creq.apiId in s.apis && s.apis[creq.apiId] == stage.api
        && own.entropy.Some? && stage.plaintext == Keymat.Plaintext(stage.api.keyPrefix, own.entropy.value)
    case Rotate(id, stage) =>
      && (stage.ReadKeyApi? ==> id in s.keys && stage.key.apiId == s.keys[id].apiId)
      && (stage.Commit? ==>
            && id in s.keys && s.keys[id].apiId in s.apis && own.entropy.Some?
            && stage.plaintext == Keymat.Plaintext(s.apis[s.keys[id].apiId].keyPrefix, own.entropy.value))
      && (!stage.ReadKey? && !stage.Rotated? ==> id != "")
    case _ => true
  }

  // One step: it keeps the answer if that is known, and touches at most; it does
  // nothing if it leaves the answer open; and when it settles the answer, the
  // call run alone on any such store gives that answer and does the same.
  ghost predicate StepSerial(cfg: Config, s: State, call: Call, env: Env, own: Env)
    requires !Finished(call)
  {
    var eff := Advance(cfg, s, call, env);
    var was, now := Bound(cfg, call, own), Bound(cfg, eff.call, own);
    && (was.Some? ==> now == was && SameStore(StoreAfter(s, eff), s))
    && (was.None? && now.None? ==> StoreAfter(s, eff) == s)
    && (was.None? && now.Some? ==> RunAlone(cfg, s, RequestOf(call), own, now.value, StoreAfter(s, eff)))
  }

  ghost predicate AloneOn(cfg: Config, t: State, req: Request, own: Env, reply: Reply, after: State) {
    var (t', r) := Serve(MemoryDriver(), cfg, t, req, own);
    SameStore(t', after) && SameAnswer(r, reply)
  }

  ghost predicate RunAlone(cfg: Config, s: State, req: Request, own: Env, reply: Reply, after: State) {
    forall t :: SameStore(t, s) ==> AloneOn(cfg, t, req, own, reply, after)
  }

  // ------------------------------------------------------------------
  // One step of each kind of call
  // ------------------------------------------------------------------

  lemma SameScreen(limiter: Limiter, a: Key, b: Key, req: VerifyRequest, own: Env)
    requires Untouched(a) == Untouched(b)
    ensures Screen(limiter, a, req, own.checkAt, own.answer) == Screen(limiter, b, req, own.checkAt, own.answer)
    ensures forall v, ds :: Respond(a, v, ds) == Respond(b, v, ds)
  {
    SameFields(a, b);
  }

  lemma SameFields(a: Key, b: Key)
    requires Untouched(a) == Untouched(b)
    ensures && a.keyId == b.keyId && a.apiId == b.apiId && a.workspaceId == b.workspaceId
            && a.ownerPrincipalId == b.ownerPrincipalId && a.keyHash == b.keyHash && a.permissions == b.permissions
            && a.limitRefs == b.limitRefs && a.expiresAt == b.expiresAt && a.remainingUses == b.remainingUses
            && a.enabled == b.enabled
  {
    assert Untouched(a).keyId == a.keyId && Untouched(b).keyId == b.keyId;
  }

  lemma PutSame(s: State, t: State, id: string, a: Key, b: Key)
    requires SameStore(s, t) && Untouched(a) == Untouched(b)
    ensures SameStore(s.(keys := s.keys[id := a]), t.(keys := t.keys[id := b]))
  {
  }

  lemma TouchSame(s: State, id: string, at: Time)
    ensures SameStore(TouchLastVerified(s, id, at).0, s)
  {
  }

  // A verify of a key without credit, run alone, only touches.
  lemma SettleOn(s: State, k: Key, ds: seq<LimitDecision>, own: Env)
    requires k.remainingUses <= 0
    ensures var (s', r) := Settle(MemoryDriver(), s, k, ds, own); SameStore(s', s) && r == Respond(k, VALID, ds)
  {
    TouchSame(s, k.keyId, own.touchAt);
  }

  lemma VerifyOn(cfg: Config, s: State, t: State, req: VerifyRequest, own: Env)
    requires SameStore(t, s) && IndexAgrees(s) && req.plaintext != "" && cfg.sha(req.plaintext) in s.hashIndex
    requires !HasCredit(s.keys[s.hashIndex[cfg.sha(req.plaintext)]])
    ensures var (t', o) := ServeVerify(MemoryDriver(), cfg, t, req, own);
            SameStore(t', s) && o == VerdictOn(cfg, s.keys[s.hashIndex[cfg.sha(req.plaintext)]], req, own)
  {
    var id := s.hashIndex[cfg.sha(req.plaintext)];
    SameScreen(cfg.limiter, t.keys[id], s.keys[id], req, own);
    SameFields(t.keys[id], s.keys[id]);
    VerifyFinds(MemoryDriver(), cfg, t, req, own, t.keys[id]);
    var screen := Screen(cfg.limiter, t.keys[id], req, own.checkAt, own.answer);
    if screen.Proceed? {
      SettleOn(t, t.keys[id], screen.decisions, own);
    }
  }

  lemma LookupSerial(cfg: Config, s: State, call: Call, env: Env, own: Env)
    requires IndexAgrees(s) && call.Verify? && call.verify.Lookup?
    requires var h := cfg.sha(call.req.plaintext); h in s.hashIndex ==> !HasCredit(s.keys[s.hashIndex[h]])
    ensures StepSerial(cfg, s, call, env, own) && Carries(cfg, s, Advance(cfg, s, call, env).call, own)
  {
    var req, now := call.req, Bound(cfg, Advance(cfg, s, call, env).call, own);
    forall t | SameStore(t, s) ensures AloneOn(cfg, t, VerifyKey(req), own, now.value, s) {
      LookupOn(cfg, s, t, call, env, own);
    }
  }

  lemma LookupOn(cfg: Config, s: State, t: State, call: Call, env: Env, own: Env)
    requires IndexAgrees(s) && SameStore(t, s) && call.Verify? && call.verify.Lookup?
    requires var h := cfg.sha(call.req.plaintext); h in s.hashIndex ==> !HasCredit(s.keys[s.hashIndex[h]])
    ensures var now := Bound(cfg, Advance(cfg, s, call, env).call, own);
            now.Some? && AloneOn(cfg, t, VerifyKey(call.req), own, now.value, s)
  {
    LookupSteps(cfg, s, call, env);
    if call.req.plaintext != "" && cfg.sha(call.req.plaintext) in s.hashIndex {
      VerifyOn(cfg, s, t, call.req, own);
    } else {
      VerifyFindsNone(MemoryDriver(), cfg, t, call.req, own);
    }
  }

  lemma LookupSteps(cfg: Config, s: State, call: Call, env: Env)
    requires IndexAgrees(s) && call.Verify? && call.verify.Lookup?
    ensures var h := cfg.sha(call.req.plaintext);
            Advance(cfg, s, call, env).call ==
              Verify(call.req, if call.req.plaintext != "" && h in s.hashIndex then Check(s.keys[s.hashIndex[h]])
                               else Answered(RESPONSE_NOT_FOUND, env.checkAt))
  {
  }

  lemma CheckSerial(cfg: Config, s: State, call: Call, env: Env, own: Env)
    requires call.Verify? && (call.verify.Check? || call.verify.Consult?) && Carries(cfg, s, call, own) && Reads(call, env, own)
    ensures StepSerial(cfg, s, call, env, own) && Carries(cfg, s, Advance(cfg, s, call, env).call, own)
  {
  }

  lemma TouchSerial(cfg: Config, s: State, call: Call, env: Env, own: Env)
    requires call.Verify? && call.verify.Touch?
    ensures StepSerial(cfg, s, call, env, own)
  {
    TouchSame(s, call.verify.key.keyId, env.touchAt);
  }

  lemma ReadApiSerial(cfg: Config, s: State, call: Call, env: Env, own: Env)
    requires call.Create? && call.create.ReadApi? && Reads(call, env, own) && Tenancy(s)
    ensures StepSerial(cfg, s, call, env, own) && Carries(cfg, s, Advance(cfg, s, call, env).call, own)
  {
  }

  lemma InsertOn(s: State, t: State, k: Key, id: string, now: Time)
    requires SameStore(t, s)
    ensures SameStore(StoreSpec.CreateKey(t, k, id, now).0, StoreSpec.CreateKey(s, k, id, now).0)
    ensures StoreSpec.CreateKey(t, k, id, now).1 == StoreSpec.CreateKey(s, k, id, now).1
  {
  }

  lemma InsertSerial(cfg: Config, s: State, call: Call, env: Env, own: Env)
    requires call.Create? && call.create.Insert? && Carries(cfg, s, call, own) && Reads(call, env, own)
    ensures StepSerial(cfg, s, call, env, own)
  {
    var eff := Advance(cfg, s, call, env);
    forall t | SameStore(t, s) ensures AloneOn(cfg, t, Request.CreateKey(call.creq), own, Given(eff.call), StoreAfter(s, eff)) {
      InsertOn(s, t, DraftKey(call.creq, call.create.api, cfg.sha(call.create.plaintext)), own.freshId, own.storeAt);
      CreateServed(MemoryDriver(), cfg, t, call.creq, own, call.create.api);
    }
  }

  lemma ReadKeySerial(cfg: Config, s: State, call: Call, env: Env, own: Env)
    requires call.Rotate? && call.rotate.ReadKey?
    ensures StepSerial(cfg, s, call, env, own) && Carries(cfg, s, Advance(cfg, s, call, env).call, own)
  {
  }

  lemma ReadKeyApiSerial(cfg: Config, s: State, call: Call, env: Env, own: Env)
    requires call.Rotate? && call.rotate.ReadKeyApi? && Carries(cfg, s, call, own) && Reads(call, env, own) && Tenancy(s)
    ensures StepSerial(cfg, s, call, env, own) && Carries(cfg, s, Advance(cfg, s, call, env).call, own)
  {
    if own.entropy.None? {
      forall t | SameStore(t, s) ensures AloneOn(cfg, t, Request.RotateKey(call.keyId), own, ErrorReply(Internal), s) {
        DryRotateOn(cfg, s, t, call.keyId, own);
      }
    }
  }

  lemma DryRotateOn(cfg: Config, s: State, t: State, id: string, own: Env)
    requires SameStore(t, s) && Tenancy(s) && id != "" && id in s.keys && own.entropy.None?
    ensures AloneOn(cfg, t, Request.RotateKey(id), own, ErrorReply(Internal), s)
  {
    SameFields(t.keys[id], s.keys[id]);
  }

  lemma RotateOn(s: State, t: State, id: string, hash: Bytes, now: Time)
    requires SameStore(t, s)
    ensures SameStore(StoreSpec.RotateKey(t, id, hash, now).0, StoreSpec.RotateKey(s, id, hash, now).0)
    ensures var a, b := StoreSpec.RotateKey(t, id, hash, now).1, StoreSpec.RotateKey(s, id, hash, now).1;
            if a.Ok? then b.Ok? && Untouched(a.value) == Untouched(b.value) else a == b
  {
    if id in s.keys {
      SameFields(t.keys[id], s.keys[id]);
      assert Untouched(t.keys[id].(keyHash := hash, updatedAt := now)) == Untouched(t.keys[id]).(keyHash := hash, updatedAt := now);
      assert Untouched(s.keys[id].(keyHash := hash, updatedAt := now)) == Untouched(s.keys[id]).(keyHash := hash, updatedAt := now);
    }
  }

  lemma CommitSerial(cfg: Config, s: State, call: Call, env: Env, own: Env)
    requires call.Rotate? && call.rotate.Commit? && Carries(cfg, s, call, own) && Reads(call, env, own)
    ensures StepSerial(cfg, s, call, env, own)
  {
    var eff := Advance(cfg, s, call, env);
    forall t | SameStore(t, s) ensures AloneOn(cfg, t, Request.RotateKey(call.keyId), own, Given(eff.call), StoreAfter(s, eff)) {
      CommitOn(cfg, s, t, call, env, own);
    }
  }

  lemma CommitOn(cfg: Config, s: State, t: State, call: Call, env: Env, own: Env)
    requires call.Rotate? && call.rotate.Commit? && Carries(cfg, s, call, own) && Reads(call, env, own) && SameStore(t, s)
    ensures var eff := Advance(cfg, s, call, env);
            AloneOn(cfg, t, Request.RotateKey(call.keyId), own, Given(eff.call), StoreAfter(s, eff))
  {
    var id := call.keyId;
    SameFields(t.keys[id], s.keys[id]);
    RotateOn(s, t, id, cfg.sha(call.rotate.plaintext), own.storeAt);
    RotateServed(MemoryDriver(), cfg, t, id, own, t.keys[id], s.apis[s.keys[id].apiId]);
    RotateSteps(cfg, s, call, env);
    WireSame(StoreSpec.RotateKey(t, id, cfg.sha(call.rotate.plaintext), own.storeAt).1,
             StoreSpec.RotateKey(s, id, cfg.sha(call.rotate.plaintext), own.storeAt).1, call.rotate.plaintext);
  }

  function Rewritten(r: Result<Key>, plaintext: string): Reply {
    if r.Err? then ErrorReply(CodeOf(r.error)) else KeyReply(ToWire(r.value), plaintext)
  }

  lemma WireSame(a: Result<Key>, b: Result<Key>, plaintext: string)
    requires if a.Ok? then b.Ok? && Untouched(a.value) == Untouched(b.value) else a == b
    ensures SameAnswer(Rewritten(a, plaintext), Rewritten(b, plaintext))
  {
    if a.Ok? {
      assert Untouched(ToWire(a.value)) == ToWire(Untouched(a.value)) && Untouched(ToWire(b.value)) == ToWire(Untouched(b.value));
    }
  }

  lemma RotateSteps(cfg: Config, s: State, call: Call, env: Env)
    requires call.Rotate? && call.rotate.Commit?
    ensures var eff, p := Advance(cfg, s, call, env), call.rotate.plaintext;
            var (s', r) := StoreSpec.RotateKey(s, call.keyId, cfg.sha(p), env.storeAt);
            && StoreAfter(s, eff) == s' && eff.call.Rotate? && eff.call.rotate.Rotated?
            && eff.call.rotate.reply == if r.Err? then ErrorReply(CodeOf(r.error)) else KeyReply(ToWire(r.value), p)
  {
  }

  lemma RevokeSerial(cfg: Config, s: State, call: Call, env: Env, own: Env)
    requires call.Revoke? && !Finished(call) && Reads(call, env, own)
    ensures StepSerial(cfg, s, call, env, own)
  {
    var eff := Advance(cfg, s, call, env);
    forall t | SameStore(t, s) ensures AloneOn(cfg, t, Request.RevokeKey(call.keyId), own, Given(eff.call), StoreAfter(s, eff)) {
      RevokeOn(s, t, call.keyId, own.storeAt);
    }
  }

  lemma RevokeOn(s: State, t: State, id: string, now: Time)
    requires SameStore(t, s)
    ensures SameStore(StoreSpec.RevokeKey(t, id, now).0, StoreSpec.RevokeKey(s, id, now).0)
    ensures StoreSpec.RevokeKey(t, id, now).1 == StoreSpec.RevokeKey(s, id, now).1
  {
    if id in s.keys {
      SameFields(t.keys[id], s.keys[id]);
      assert Untouched(t.keys[id].(enabled := false, updatedAt := now)) == Untouched(t.keys[id]).(enabled := false, updatedAt := now);
      assert Untouched(s.keys[id].(enabled := false, updatedAt := now)) == Untouched(s.keys[id]).(enabled := false, updatedAt := now);
    }
  }

  lemma TenantSerial(cfg: Config, s: State, call: Call, env: Env, own: Env)
    requires (call.NewWorkspace? || call.NewApi?) && !Finished(call) && Reads(call, env, own)
    ensures StepSerial(cfg, s, call, env, own)
  {
    var eff := Advance(cfg, s, call, env);
    forall t | SameStore(t, s) ensures AloneOn(cfg, t, RequestOf(call), own, Given(eff.call), StoreAfter(s, eff)) {
      if call.NewWorkspace? {
        WorkspaceOn(cfg, s, t, call, env, own);
      } else {
        ApiOn(cfg, s, t, call, env, own);
      }
    }
  }

  lemma WorkspaceOn(cfg: Config, s: State, t: State, call: Call, env: Env, own: Env)
    requires call.NewWorkspace? && !Finished(call) && Reads(call, env, own) && SameStore(t, s)
    ensures var eff := Advance(cfg, s, call, env); AloneOn(cfg, t, RequestOf(call), own, Given(eff.call), StoreAfter(s, eff))
  {
  }

  lemma ApiOn(cfg: Config, s: State, t: State, call: Call, env: Env, own: Env)
    requires call.NewApi? && !Finished(call) && Reads(call, env, own) && SameStore(t, s)
    ensures var eff := Advance(cfg, s, call, env); AloneOn(cfg, t, RequestOf(call), own, Given(eff.call), StoreAfter(s, eff))
  {
  }

  lemma ReadSerial(cfg: Config, s: State, call: Call, env: Env, own: Env)
    requires call.Read? && !Finished(call)
    ensures StepSerial(cfg, s, call, env, own)
  {
    forall t | SameStore(t, s) && call.keyId in s.keys ensures Untouched(ToWire(t.keys[call.keyId])) == Untouched(ToWire(s.keys[call.keyId])) {
      assert Untouched(ToWire(t.keys[call.keyId])) == ToWire(Untouched(t.keys[call.keyId]));
      assert Untouched(ToWire(s.keys[call.keyId])) == ToWire(Untouched(s.keys[call.keyId]));
    }
  }

  // ------------------------------------------------------------------
  // Every step keeps it
  // ------------------------------------------------------------------

  lemma StepIsSerial(cfg: Config, s0: State, s: State, call: Call, env: Env, own: Env)
    requires IndexAgrees(s0) && StoreOk(s) && CreditAside(s0, s) && SpendsNothing(cfg, s0, call)
    requires !Finished(call) && Carries(cfg, s, call, own) && Reads(call, env, own)
    ensures StepSerial(cfg, s, call, env, own)
  {
    match call
    case Verify(req, stage) =>
      if stage.Lookup? {
        LookupWithoutCredit(cfg, s0, s, req, stage);
        LookupSerial(cfg, s, call, env, own);
      } else if stage.Touch? {
        TouchSerial(cfg, s, call, env, own);
      } else {
        CheckSerial(cfg, s, call, env, own);
      }
    case Create(_, stage) =>
      if stage.ReadApi? { ReadApiSerial(cfg, s, call, env, own); } else { InsertSerial(cfg, s, call, env, own); }
    case Rotate(_, stage) =>
      if stage.ReadKey? { ReadKeySerial(cfg, s, call, env, own); }
      else if stage.Commit? { CommitSerial(cfg, s, call, env, own); }
      else { ReadKeyApiSerial(cfg, s, call, env, own); }
    case Revoke(_, _) => RevokeSerial(cfg, s, call, env, own);
    case NewWorkspace(_, _) => TenantSerial(cfg, s, call, env, own);
    case NewApi(_, _) => TenantSerial(cfg, s, call, env, own);
    case Read(_, _) => ReadSerial(cfg, s, call, env, own);
  }

  lemma SpendingIsAsked(cfg: Config, s: State, a: Call, b: Call)
    requires RequestOf(a) == RequestOf(b)
    ensures SpendsNothing(cfg, s, a) == SpendsNothing(cfg, s, b)
  {
  }

  // A step that writes leaves a call that carries no more than before.
  lemma WritingCarries(cfg: Config, s: State, call: Call, env: Env, own: Env)
    requires !Finished(call) && (call.Verify? ==> call.verify.Touch?)
    requires (call.Create? ==> call.create.Insert?) && (call.Rotate? ==> call.rotate.Commit?)
    ensures Finished(Advance(cfg, s, call, env).call) && Carries(cfg, s, Advance(cfg, s, call, env).call, own)
  {
  }

  // What the stage carries next is true where it is read; where the step writes,
  // the call is past carrying anything.
  lemma StepCarries(cfg: Config, s0: State, s: State, call: Call, env: Env, own: Env)
    requires IndexAgrees(s0) && StoreOk(s) && CreditAside(s0, s) && SpendsNothing(cfg, s0, call)
    requires !Finished(call) && Carries(cfg, s, call, own) && Reads(call, env, own)
    ensures var eff := Advance(cfg, s, call, env); Carries(cfg, s, eff.call, own) && SpendsNothing(cfg, s0, eff.call)
  {
    StillAsked(cfg, s, call, env);
    SpendingIsAsked(cfg, s0, call, Advance(cfg, s, call, env).call);
    if call.Verify? && call.verify.Lookup? {
      LookupWithoutCredit(cfg, s0, s, call.req, call.verify);
      LookupSerial(cfg, s, call, env, own);
    } else if call.Verify? && !call.verify.Touch? {
      CheckSerial(cfg, s, call, env, own);
    } else if call.Create? && call.create.ReadApi? {
      ReadApiSerial(cfg, s, call, env, own);
    } else if call.Rotate? && call.rotate.ReadKey? {
      ReadKeySerial(cfg, s, call, env, own);
    } else if call.Rotate? && call.rotate.ReadKeyApi? {
      ReadKeyApiSerial(cfg, s, call, env, own);
    } else {
      WritingCarries(cfg, s, call, env, own);
    }
  }

  lemma CarriesStable(cfg: Config, s: State, s': State, call: Call, own: Env)
    requires Evolves(s, s') && Tenancy(s) && Carries(cfg, s, call, own)
    ensures Carries(cfg, s', call, own)
  {
    if call.Rotate? && call.keyId in s.keys {
      assert Frozen(s.keys[call.keyId]).apiId == Frozen(s'.keys[call.keyId]).apiId;
    }
  }

  lemma HarmlessVerifyOp(cfg: Config, s: State, call: Call, env: Env)
    requires !Finished(call) && call.Verify?
    ensures var eff := Advance(cfg, s, call, env);
            eff.op.Some? ==> Fresh(s, eff.op.value) && !eff.op.value.OpCreateKey? && !eff.op.value.OpRotate?
  {
    VerifyEffect(cfg, s, call, env);
  }

  lemma HarmlessOtherOp(cfg: Config, s0: State, s: State, call: Call, env: Env)
    requires !Finished(call) && !call.Verify? && FreshEnv(s, env) && SpendsNothing(cfg, s0, call)
    ensures var eff := Advance(cfg, s, call, env);
            eff.op.Some? ==>
              && Fresh(s, eff.op.value) && (eff.op.value.OpCreateKey? ==> eff.op.value.k.remainingUses <= 0)
              && (eff.op.value.OpRotate? && eff.op.value.id in s0.keys ==> !HasCredit(s0.keys[eff.op.value.id]))
  {
  }

  // No step gives credit to a key without, or moves the hash of one with.
  lemma StepLeavesAside(cfg: Config, s0: State, s: State, call: Call, env: Env, own: Env)
    requires StoreOk(s) && CreditAside(s0, s) && SpendsNothing(cfg, s0, call) && Evolves(s0, s)
    requires !Finished(call) && CallOk(cfg, s, call) && FreshEnv(s, env) && Carries(cfg, s, call, own)
    ensures CreditAside(s0, StoreAfter(s, Advance(cfg, s, call, env)))
  {
    var eff := Advance(cfg, s, call, env);
    StepOk(cfg, s, call, env);
    if call.Verify? {
      HarmlessVerifyOp(cfg, s, call, env);
    } else {
      HarmlessOtherOp(cfg, s0, s, call, env);
    }
    if eff.op.Some? {
      OpLeavesAside(cfg, s0, s, call, eff.op.value);
    }
  }

  lemma OpLeavesAside(cfg: Config, s0: State, s: State, call: Call, op: Op)
    requires CreditAside(s0, s) && Evolves(s0, s) && Fresh(s, op) && Evolves(s, Do(s, op))
    requires op.OpCreateKey? ==> op.k.remainingUses <= 0
    requires op.OpRotate? && op.id in s0.keys ==> !HasCredit(s0.keys[op.id])
    ensures CreditAside(s0, Do(s, op))
  {
    var s' := Do(s, op);
    OnlyCreateAddsKeys(s, op);
    forall id | id in s'.keys
      ensures if id in s0.keys && HasCredit(s0.keys[id]) then s'.keys[id].keyHash == s0.keys[id].keyHash else !HasCredit(s'.keys[id])
    {
      if id in s.keys {
        FieldsKept(s, op, id);
      }
    }
  }

  // ------------------------------------------------------------------
  // The order of a run
  // ------------------------------------------------------------------

  ghost predicate Calm(x: Setting, w: World) {
    && CallsOk(x.cfg, w) && BeforeOk(w) && Evolves(x.w0.store, w.store) && CreditAside(x.w0.store, w.store)
    && (forall c <- x.w0.calls :: c in w.calls && w.calls[c] == x.w0.calls[c] && Finished(w.calls[c]))
    && (forall c <- w.calls :: c !in x.w0.calls ==>
          SpendsNothing(x.cfg, x.w0.store, w.calls[c]) && Carries(x.cfg, w.store, w.calls[c], x.envs(c)))
  }

  predicate BoundIn(x: Setting, w: World, c: nat) {
    c in w.calls && c !in x.w0.calls && Bound(x.cfg, w.calls[c], x.envs(c)).Some?
  }

  predicate ReqsOk(w: World, reqs: map<nat, Request>) {
    forall c <- w.calls :: c in reqs && reqs[c] == RequestOf(w.calls[c])
  }

  // Replayed in this order the store is the machine's, and the call in position
  // i gets the answer it is bound to give.
  ghost predicate Replayed(x: Setting, w: World, reqs: map<nat, Request>, order: seq<nat>) {
    && (forall c <- order :: c in reqs)
    && SameStore(Serial(x, reqs, order), w.store)
    && (forall i :: 0 <= i < |order| ==>
          BoundIn(x, w, order[i]) &&
          SameAnswer(SerialReply(x, reqs, order, i), Bound(x.cfg, w.calls[order[i]], x.envs(order[i])).value))
  }

  ghost predicate Lists(x: Setting, w: World, order: seq<nat>) {
    && (forall c :: c in order <==> BoundIn(x, w, c))
    && (forall i, j :: 0 <= i < j < |order| ==> order[i] != order[j])
    && InOrder(w, order)
  }

  lemma CalmStep(x: Setting, w: World, c: nat, env: Env)
    requires IndexAgrees(x.w0.store) && Calm(x, w) && Enabled(w, Step(c, env)) && ReadsAt(x, w, Step(c, env))
    ensures c !in x.w0.calls && Calm(x, Apply(x.cfg, w, Step(c, env)))
    ensures StepSerial(x.cfg, w.store, w.calls[c], env, x.envs(c))
  {
    var w', own := Apply(x.cfg, w, Step(c, env)), x.envs(c);
    ApplyKeepsCalls(x.cfg, w, Step(c, env));
    ApplyKeepsBefore(x.cfg, w, Step(c, env));
    EvolvesTransitive(x.w0.store, w.store, w'.store);
    assert CallOk(x.cfg, w.store, w.calls[c]);
    StepIsSerial(x.cfg, x.w0.store, w.store, w.calls[c], env, own);
    StepCarries(x.cfg, x.w0.store, w.store, w.calls[c], env, own);
    StepLeavesAside(x.cfg, x.w0.store, w.store, w.calls[c], env, own);
    AllCarry(x, w, w', c);
  }

  lemma AllCarry(x: Setting, w: World, w': World, c: nat)
    requires Evolves(w.store, w'.store) && Tenancy(w.store) && c in w'.calls && w'.calls == w.calls[c := w'.calls[c]]
    requires SpendsNothing(x.cfg, x.w0.store, w'.calls[c]) && Carries(x.cfg, w.store, w'.calls[c], x.envs(c))
    requires forall d <- w.calls :: d !in x.w0.calls ==>
               SpendsNothing(x.cfg, x.w0.store, w.calls[d]) && Carries(x.cfg, w.store, w.calls[d], x.envs(d))
    ensures forall d <- w'.calls :: d !in x.w0.calls ==>
              SpendsNothing(x.cfg, x.w0.store, w'.calls[d]) && Carries(x.cfg, w'.store, w'.calls[d], x.envs(d))
  {
    forall d | d in w'.calls && d !in x.w0.calls ensures Carries(x.cfg, w'.store, w'.calls[d], x.envs(d)) {
      CarriesStable(x.cfg, w.store, w'.store, w'.calls[d], x.envs(d));
    }
  }

  lemma CalmBegin(x: Setting, w: World, c: nat, call: Call)
    requires Calm(x, w) && Enabled(w, Begin(c, call)) && SpendsNothing(x.cfg, x.w0.store, call)
    ensures Calm(x, Apply(x.cfg, w, Begin(c, call)))
  {
    ApplyKeepsCalls(x.cfg, w, Begin(c, call));
    ApplyKeepsBefore(x.cfg, w, Begin(c, call));
  }

  lemma BoundStays(x: Setting, w: World, w': World, c: nat, d: nat)
    requires c in w'.calls && w'.calls == w.calls[c := w'.calls[c]]
    requires c !in x.w0.calls ==>
               Bound(x.cfg, w'.calls[c], x.envs(c)) == if c in w.calls then Bound(x.cfg, w.calls[c], x.envs(c)) else None
    ensures BoundIn(x, w, d) == BoundIn(x, w', d)
    ensures BoundIn(x, w, d) ==> Bound(x.cfg, w'.calls[d], x.envs(d)) == Bound(x.cfg, w.calls[d], x.envs(d))
  {
  }

  // A step that leaves the answers known as they are leaves the order as it is.
  lemma {:induction false} Stays(x: Setting, w: World, w': World, c: nat, reqs: map<nat, Request>, order: seq<nat>)
    requires Replayed(x, w, reqs, order) && Lists(x, w, order)
    requires c in w'.calls && w'.calls == w.calls[c := w'.calls[c]] && SameStore(w'.store, w.store)
    requires forall d <- w.before :: d in w'.before && w'.before[d] == w.before[d]
    requires c !in x.w0.calls ==>
               Bound(x.cfg, w'.calls[c], x.envs(c)) == if c in w.calls then Bound(x.cfg, w.calls[c], x.envs(c)) else None
    ensures Replayed(x, w', reqs, order) && Lists(x, w', order)
  {
    StaysInOrder(w, w', order);
    forall d: nat ensures d in order <==> BoundIn(x, w', d) {
      BoundStays(x, w, w', c, d);
    }
    forall i | 0 <= i < |order|
      ensures BoundIn(x, w', order[i]) &&
              SameAnswer(SerialReply(x, reqs, order, i), Bound(x.cfg, w'.calls[order[i]], x.envs(order[i])).value)
    {
      BoundStays(x, w, w', c, order[i]);
    }
  }

  // The call whose answer a step settles goes to the end of the order.
  lemma {:induction false} Extends(x: Setting, w: World, w': World, c: nat, env: Env, reqs: map<nat, Request>, order: seq<nat>)
    requires Replayed(x, w, reqs, order) && c in w.calls && c in reqs && reqs[c] == RequestOf(w.calls[c])
    requires c !in x.w0.calls && !Finished(w.calls[c]) && StepSerial(x.cfg, w.store, w.calls[c], env, x.envs(c))
    requires var eff := Advance(x.cfg, w.store, w.calls[c], env);
             w'.store == StoreAfter(w.store, eff) && w'.calls == w.calls[c := eff.call]
    requires !BoundIn(x, w, c) && BoundIn(x, w', c)
    ensures Replayed(x, w', reqs, order + [c])
  {
    SerialExtends(x, reqs, order, c);
    assert AloneOn(x.cfg, Serial(x, reqs, order), reqs[c], x.envs(c), Bound(x.cfg, w'.calls[c], x.envs(c)).value, w'.store);
    forall i | 0 <= i < |order| + 1
      ensures BoundIn(x, w', (order + [c])[i])
      ensures SameAnswer(SerialReply(x, reqs, order + [c], i), Bound(x.cfg, w'.calls[(order + [c])[i]], x.envs((order + [c])[i])).value)
    {
      if i < |order| {
        assert (order + [c])[i] == order[i] && BoundIn(x, w, order[i]) && order[i] != c;
      }
    }
  }

  lemma ListsMore(x: Setting, w: World, w': World, c: nat, order: seq<nat>)
    requires Lists(x, w, order) && BeforeOk(w) && c in w.calls && !Finished(w.calls[c]) && !BoundIn(x, w, c) && BoundIn(x, w', c)
    requires w'.calls == w.calls[c := w'.calls[c]] && w'.before == w.before
    ensures Lists(x, w', order + [c])
  {
    UnfinishedUnrecorded(w, c);
    forall i, j | 0 <= i < j < |order + [c]|
      ensures (order + [c])[i] != (order + [c])[j] && MayPrecede(w', (order + [c])[i], (order + [c])[j])
    {
      assert order[i] in order && BoundIn(x, w, order[i]);
      if j < |order| {
        assert MayPrecede(w, order[i], order[j]);
      }
    }
  }

  lemma OrderStep(x: Setting, w: World, e: Event, reqs: map<nat, Request>, order: seq<nat>) returns (order': seq<nat>)
    requires IndexAgrees(x.w0.store) && Calm(x, w) && Replayed(x, w, reqs, order) && Lists(x, w, order) && ReqsOk(w, reqs)
    requires Enabled(w, e) && ReadsAt(x, w, e) && (e.Begin? ==> SpendsNothing(x.cfg, x.w0.store, e.call))
    ensures Calm(x, Apply(x.cfg, w, e)) && Replayed(x, Apply(x.cfg, w, e), reqs, order') && Lists(x, Apply(x.cfg, w, e), order')
  {
    var w' := Apply(x.cfg, w, e);
    order' := order;
    match e
    case Begin(c, call) =>
      CalmBegin(x, w, c, call);
      Stays(x, w, w', c, reqs, order);
    case Step(c, env) =>
      CalmStep(x, w, c, env);
      if !BoundIn(x, w, c) && BoundIn(x, w', c) {
        order' := order + [c];
        Extends(x, w, w', c, env, reqs, order);
        ListsMore(x, w, w', c, order);
      } else {
        Stays(x, w, w', c, reqs, order);
      }
  }

  ghost predicate OnlySpendNothing(x: Setting, es: seq<Event>) {
    forall e <- es :: e.Begin? ==> SpendsNothing(x.cfg, x.w0.store, e.call)
  }

  ghost predicate Quiet(x: Setting) {
    forall c <- x.w0.calls :: Finished(x.w0.calls[c])
  }

  // No key has changed hands yet, so none that had no credit has any.
  lemma CalmStart(x: Setting)
    requires Inv(x.cfg, x.w0) && Quiet(x)
    ensures Calm(x, x.w0)
  {
  }

  lemma {:induction false} NothingListed(x: Setting)
    ensures Replayed(x, x.w0, map[], []) && Lists(x, x.w0, [])
  {
  }

  lemma ReqsBefore(cfg: Config, w: World, e: Event, reqs: map<nat, Request>)
    requires Enabled(w, e) && ReqsOk(Apply(cfg, w, e), reqs)
    ensures ReqsOk(w, reqs)
  {
    var w' := Apply(cfg, w, e);
    if e.Step? {
      StillAsked(cfg, w.store, w.calls[e.c], e.env);
    }
    forall c | c in w.calls ensures c in reqs && reqs[c] == RequestOf(w.calls[c]) {
      assert c in w'.calls && RequestOf(w'.calls[c]) == RequestOf(w.calls[c]);
    }
  }

  lemma {:induction false} OrderExists(x: Setting, es: seq<Event>, reqs: map<nat, Request>) returns (order: seq<nat>)
    requires Inv(x.cfg, x.w0) && Quiet(x) && Legal(x.cfg, x.w0, es) && ReadsRun(x, es) && OnlySpendNothing(x, es)
    requires ReqsOk(Exec(x.cfg, x.w0, es), reqs)
    ensures var w := Exec(x.cfg, x.w0, es); Calm(x, w) && Replayed(x, w, reqs, order) && Lists(x, w, order)
  {
    order := [];
    if es == [] {
      CalmStart(x);
      NothingListed(x);
    } else {
      var front, e := es[..|es| - 1], es[|es| - 1];
      assert forall d <- front :: d in es;
      assert e in es;
      var mid := Exec(x.cfg, x.w0, front);
      ReqsBefore(x.cfg, mid, e, reqs);
      order := OrderExists(x, front, reqs);
      order := OrderStep(x, mid, e, reqs, order);
    }
  }

  lemma FinishedIsBound(cfg: Config, call: Call, own: Env)
    requires Finished(call)
    ensures Bound(cfg, call, own) == Some(Given(call))
  {
  }

  lemma {:induction false} CompleteOrder(x: Setting, w: World, order: seq<nat>)
    requires Replayed(x, w, Requests(w), order) && Lists(x, w, order) && forall c <- w.calls :: Finished(w.calls[c])
    ensures SerialOrder(x, w, order)
  {
    forall c ensures c in order <==> c in w.calls && c !in x.w0.calls {
      assert c in order <==> BoundIn(x, w, c);
      if c in w.calls {
        FinishedIsBound(x.cfg, w.calls[c], x.envs(c));
      }
    }
    forall i | 0 <= i < |order|
      ensures Finished(w.calls[order[i]]) && SameAnswer(SerialReply(x, Requests(w), order, i), Given(w.calls[order[i]]))
    {
      assert BoundIn(x, w, order[i]);
      FinishedIsBound(x.cfg, w.calls[order[i]], x.envs(order[i]));
    }
  }

  // For every complete run of calls of any kind, on any number of keys, begun
  // when nothing was in flight, that neither verify, rotate nor make a key with
  // credit: some sequential order of atomic calls respects real time, gives every
  // call the reply it got, with the readings it took, and ends in the same store.
  lemma {:induction false} NoCreditSerializable(x: Setting, es: seq<Event>)
    requires Reachable(x.cfg, x.w0) && Quiet(x) && Legal(x.cfg, x.w0, es) && OnlySpendNothing(x, es)
    requires forall c <- Exec(x.cfg, x.w0, es).calls :: Finished(Exec(x.cfg, x.w0, es).calls[c])
    ensures exists y: Setting, order ::
              y == x.(envs := y.envs) && ReadsRun(y, es) && SerialOrder(y, Exec(x.cfg, x.w0, es), order)
  {
    ReachableInv(x.cfg, x.w0);
    var y := ReadingsExist(x, es);
    var w := Exec(x.cfg, x.w0, es);
    var order := OrderExists(y, es, Requests(w));
    CompleteOrder(y, w, order);
  }
}
