/**
 Concurrent verify and revoke calls on one key look as if each ran at one instant
 between its beginning and its end, checking the clock and hearing from the rate
 limiter as it did in the run.

 The order is built while the run goes on, in two parts. Calls placed before the
 first revoke are in `pre`, the first revoke and all calls placed after it are in
 `post`. A call joins the order as soon as its answer is settled: at its lookup
 when no credit is to be spent, otherwise at its decrement. A call that looked
 the key up before the revoke and decrements after it still goes to the end of
 `pre`, that is, just before the revoke.
 */
module Linearizability {
  import opened Domain
  import opened StoreSpec
  import opened Verdict
  import opened Rpc
  import opened Machine
  import opened Invariants
  import opened Replay
  import Keymat

  // ------------------------------------------------------------------
  // The setting
  // ------------------------------------------------------------------

  // Nothing is in flight.
  ghost predicate Ready(x: Setting) {
    && x.id in x.w0.store.keys && x.w0.store.keys[x.id].keyId == x.id && x.id != ""
    && (forall c <- x.w0.calls :: Finished(x.w0.calls[c]))
  }

  ghost predicate Scenario(x: Setting) {
    Inv(x.cfg, x.w0) && Ready(x)
  }

  predicate Resolves(x: Setting, req: VerifyRequest) {
    req.plaintext != "" && x.cfg.sha(req.plaintext) in x.w0.store.hashIndex &&
    x.w0.store.hashIndex[x.cfg.sha(req.plaintext)] == x.id
  }

  // A revoke of the key, or a verify whose plaintext looks up the key or nothing.
  predicate OnTheKey(x: Setting, call: Call) {
    match call
    case Verify(req, _) => Resolves(x, req) || req.plaintext == "" || x.cfg.sha(req.plaintext) !in x.w0.store.hashIndex
    case Revoke(keyId, _) => keyId == x.id
    case _ => false
  }

  ghost predicate OnlyOnTheKey(x: Setting, es: seq<Event>) {
    forall e <- es :: e.Begin? ==> OnTheKey(x, e.call)
  }

  // Only calls on the key begin, and each reads what envs gives it.
  predicate Confined(x: Setting, w: World, e: Event) {
    match e
    case Begin(_, call) => OnTheKey(x, call)
    case Step(c, env) => c in w.calls && Reads(w.calls[c], env, x.envs(c))
  }

  // ------------------------------------------------------------------
  // One call at one instant
  // ------------------------------------------------------------------

  // Run alone, a call is only ever turned down as depleted at its lookup, so a
  // reply that carries decisions with DEPLETED has no sequential counterpart.
  lemma AloneDepletedIsBare(cfg: Config, s: State, req: VerifyRequest, env: Env)
    requires IndexAgrees(s)
    ensures var o := ServeVerify(MemoryDriver(), cfg, s, req, env).1;
            o.Replied? && o.response.result.DEPLETED? ==> o.response.limitDecisions == []
  {
  }

  function Answer(o: VerifyOutcome): Reply {
    Plain(Wire(o))
  }

  function AtomicAnswer(cfg: Config, k: Key, req: VerifyRequest, own: Env): Reply {
    var screen := Screen(cfg.limiter, k, req, own.checkAt, own.answer);
    Answer(if screen.Stop? then screen.outcome else Respond(k, VALID, screen.decisions))
  }

  predicate WouldSpend(cfg: Config, k: Key, req: VerifyRequest, own: Env) {
    Screen(cfg.limiter, k, req, own.checkAt, own.answer).Proceed? && k.remainingUses > 0
  }

  // The answer a call is bound to give, once that is settled.
  function Settled(cfg: Config, call: Call, own: Env): Option<Reply> {
    match call
    case Verify(req, stage) =>
      (match stage
       case Lookup => None
       case Check(k) => if WouldSpend(cfg, k, req, own) then None else Some(AtomicAnswer(cfg, k, req, own))
       case Consult(k) => if WouldSpend(cfg, k, req, own) then None else Some(AtomicAnswer(cfg, k, req, own))
       case Spend(_, _) => None
       case Touch(k, ds) => Some(Answer(Respond(k, VALID, ds)))
       case Answered(o, _) => Some(Answer(o)))
    case Revoke(_, reply) => reply
    case _ => None
  }

  // ------------------------------------------------------------------
  // What such a run leaves alone
  // ------------------------------------------------------------------

  predicate KeyLike(k0: Key, k: Key) {
    Frozen(k) == Frozen(k0) && k.keyHash == k0.keyHash && (k.enabled ==> k0.enabled)
  }

  // The index is as at the start and so is the key, up to its status.
  predicate Like(x: Setting, s: State)
    requires x.id in x.w0.store.keys
  {
    s.hashIndex == x.w0.store.hashIndex && x.id in s.keys && KeyLike(x.w0.store.keys[x.id], s.keys[x.id])
  }

  lemma SameAnswer(x: Setting, k: Key, k': Key, req: VerifyRequest, own: Env)
    requires x.id in x.w0.store.keys && KeyLike(x.w0.store.keys[x.id], k) && KeyLike(x.w0.store.keys[x.id], k')
    requires k.enabled == k'.enabled && k.remainingUses == k'.remainingUses
    ensures AtomicAnswer(x.cfg, k, req, own) == AtomicAnswer(x.cfg, k', req, own)
    ensures WouldSpend(x.cfg, k, req, own) == WouldSpend(x.cfg, k', req, own)
  {
    SameFields(k, k');
  }

  lemma SameFields(k: Key, k': Key)
    requires Frozen(k) == Frozen(k')
    ensures && k.keyId == k'.keyId && k.apiId == k'.apiId && k.workspaceId == k'.workspaceId
            && k.ownerPrincipalId == k'.ownerPrincipalId && k.permissions == k'.permissions
            && k.limitRefs == k'.limitRefs && k.expiresAt == k'.expiresAt
  {
    assert Frozen(k).keyId == k.keyId && Frozen(k').keyId == k'.keyId;
  }

  lemma SerialSettle(x: Setting, s: State, ds: seq<LimitDecision>, env: Env)
    requires Ready(x) && Like(x, s) && s.keys[x.id].remainingUses != 0
    ensures var k := s.keys[x.id];
            var (s', r) := Settle(MemoryDriver(), s, k, ds, env);
            && Like(x, s') && r == Respond(k, VALID, ds)
            && s'.keys[x.id].enabled == k.enabled
            && s'.keys[x.id].remainingUses == (if k.remainingUses > 0 then k.remainingUses - 1 else k.remainingUses)
  {
    SameFields(s.keys[x.id], x.w0.store.keys[x.id]);
    assert s.keys[x.id].keyId == x.id;
  }

  // The sequential server's verify, on any store like the first one.
  lemma {:induction false} SerialVerify(x: Setting, s: State, req: VerifyRequest, env: Env)
    requires Ready(x) && Like(x, s) && OnTheKey(x, Verify(req, Lookup))
    ensures var (s', r) := ServeVerify(MemoryDriver(), x.cfg, s, req, env);
            && Like(x, s')
            && s'.keys[x.id].enabled == s.keys[x.id].enabled
            && (if Resolves(x, req) then
                  && Wire(r) == AtomicAnswer(x.cfg, s.keys[x.id], req, env)
                  && s'.keys[x.id].remainingUses ==
                       s.keys[x.id].remainingUses - (if WouldSpend(x.cfg, s.keys[x.id], req, env) then 1 else 0)
                else
                  s' == s && r == RESPONSE_NOT_FOUND)
  {
    if Resolves(x, req) {
      var k := s.keys[x.id];
      assert GetKeyByHash(s, x.cfg.sha(req.plaintext)) == Ok(k);
      SameFields(k, x.w0.store.keys[x.id]);
      var screen := Screen(x.cfg.limiter, k, req, env.checkAt, env.answer);
      if screen.Proceed? {
        SerialSettle(x, s, screen.decisions, env);
      }
    }
  }

  lemma SerialRevoke(x: Setting, s: State, env: Env)
    requires Ready(x) && Like(x, s)
    ensures var (s', r) := Serve(MemoryDriver(), x.cfg, s, RevokeKey(x.id), env);
            Like(x, s') && !s'.keys[x.id].enabled && s'.keys[x.id].remainingUses == s.keys[x.id].remainingUses && r == RevokedReply
  {
  }

  // ------------------------------------------------------------------
  // One step of the machine
  // ------------------------------------------------------------------

  // How far a call in flight has come: what its stage carries was true of the
  // key when it was read.
  predicate Tracked(x: Setting, call: Call, own: Env)
    requires x.id in x.w0.store.keys
  {
    var k0 := x.w0.store.keys[x.id];
    match call
    case Revoke(_, reply) => reply.Some? ==> reply.value == RevokedReply
    case Verify(req, stage) =>
      (match stage
       case Lookup => true
       case Check(k) => Resolves(x, req) && KeyLike(k0, k)
       case Consult(k) =>
         && Resolves(x, req) && KeyLike(k0, k) && LocalVerdict(k, req, own.checkAt) == None
         && NeedsLimiter(k, req) && !x.cfg.limiter.NoLimiter?
       case Spend(k, ds) =>
         && Resolves(x, req) && KeyLike(k0, k) && Screen(x.cfg.limiter, k, req, own.checkAt, own.answer) == Proceed(ds)
         && k.remainingUses > 0
       case Touch(k, _) => Resolves(x, req) && KeyLike(k0, k)
       case Answered(_, _) => true)
    case _ => true
  }

  predicate Status(s: State, id: string, enabled: bool, uses: int) {
    id in s.keys && s.keys[id].enabled == enabled && s.keys[id].remainingUses == uses
  }

  // A verify whose answer this step settles gets the answer, and spends the
  // credit, of an atomic verify on the key as it is now; if it is at its
  // decrement, on the key as it would be had it not been revoked.
  ghost predicate SettlingVerify(x: Setting, s: State, call: Call, env: Env, own: Env)
    requires call.Verify? && !Finished(call) && x.id in s.keys && x.id in x.w0.store.keys
  {
    var eff := Advance(x.cfg, s, call, env);
    var k := if call.verify.Spend? then s.keys[x.id].(enabled := true) else s.keys[x.id];
    && (call.verify.Spend? || call.verify.Lookup?)
    && (call.verify.Spend? ==> x.w0.store.keys[x.id].enabled && Resolves(x, call.req))
    && Settled(x.cfg, eff.call, own) ==
         Some(if Resolves(x, call.req) then AtomicAnswer(x.cfg, k, call.req, own) else Answer(RESPONSE_NOT_FOUND))
    && Status(StoreAfter(s, eff), x.id, s.keys[x.id].enabled,
              s.keys[x.id].remainingUses - (if Resolves(x, call.req) && WouldSpend(x.cfg, k, call.req, own) then 1 else 0))
  }

  lemma LookupStep(x: Setting, s: State, call: Call, env: Env, own: Env)
    requires Ready(x) && StoreOk(s) && Like(x, s) && OnTheKey(x, call) && call.Verify? && call.verify.Lookup?
    ensures var eff := Advance(x.cfg, s, call, env);
            && eff.op.None? && eff.call.Verify? && eff.call.req == call.req && Tracked(x, eff.call, own)
            && (Settled(x.cfg, eff.call, own).Some? ==> SettlingVerify(x, s, call, env, own))
            && (Settled(x.cfg, eff.call, own).None? ==> s.keys[x.id].enabled)
  {
    var k := s.keys[x.id];
    if Resolves(x, call.req) {
      assert Advance(x.cfg, s, call, env).call.verify == Check(k);
    } else {
      assert Advance(x.cfg, s, call, env).call.verify == Answered(RESPONSE_NOT_FOUND, env.checkAt);
    }
  }

  lemma CheckStep(x: Setting, s: State, call: Call, env: Env, own: Env)
    requires Ready(x) && Tracked(x, call, own) && Reads(call, env, own)
    requires call.Verify? && (call.verify.Check? || call.verify.Consult?)
    ensures var eff := Advance(x.cfg, s, call, env);
            && eff.op.None? && eff.call.Verify? && eff.call.req == call.req && Tracked(x, eff.call, own)
            && Settled(x.cfg, eff.call, own) == Settled(x.cfg, call, own)
  {
    SameFields(call.verify.key, x.w0.store.keys[x.id]);
  }

  // A key that passed every check before, and still has credit, passes again;
  // without credit it is depleted.
  lemma RecheckAtSpend(x: Setting, k: Key, now: Key, req: VerifyRequest, ds: seq<LimitDecision>, own: Env)
    requires Frozen(k) == Frozen(now) && now.enabled && k.remainingUses > 0
    requires Screen(x.cfg.limiter, k, req, own.checkAt, own.answer) == Proceed(ds)
    ensures now.remainingUses > 0 ==>
              WouldSpend(x.cfg, now, req, own) && AtomicAnswer(x.cfg, now, req, own) == Answer(Respond(k, VALID, ds))
    ensures now.remainingUses == 0 ==>
              !WouldSpend(x.cfg, now, req, own) && AtomicAnswer(x.cfg, now, req, own) == Answer(Respond(k, DEPLETED, ds))
  {
    SameFields(k, now);
    assert LocalVerdict(k, req, own.checkAt) == None;
    if now.remainingUses > 0 {
      assert LocalVerdict(now, req, own.checkAt) == None;
      assert Screen(x.cfg.limiter, now, req, own.checkAt, own.answer) == Proceed(ds);
    }
  }

  lemma SpendStep(x: Setting, s: State, call: Call, env: Env, own: Env)
    requires Ready(x) && StoreOk(s) && CallOk(x.cfg, s, call) && Like(x, s) && Tracked(x, call, own)
    requires call.Verify? && call.verify.Spend?
    ensures var eff := Advance(x.cfg, s, call, env);
            && eff.call.Verify? && eff.call.req == call.req && Tracked(x, eff.call, own)
            && Like(x, StoreAfter(s, eff)) && SettlingVerify(x, s, call, env, own)
  {
    var k, ds := call.verify.key, call.verify.decisions;
    SameFields(k, x.w0.store.keys[x.id]);
    assert k.keyId == x.id && k.enabled && s.keys[x.id].remainingUses >= 0;
    RecheckAtSpend(x, k, s.keys[x.id].(enabled := true), call.req, ds, own);
    assert Decrement(s, k.keyId, env.storeAt).1.error == if s.keys[x.id].remainingUses == 0 then Some(Depleted) else None;
  }

  lemma TouchStep(x: Setting, s: State, call: Call, env: Env, own: Env)
    requires Ready(x) && Like(x, s) && Tracked(x, call, own) && call.Verify? && call.verify.Touch?
    ensures var eff := Advance(x.cfg, s, call, env);
            && eff.call.Verify? && eff.call.req == call.req
            && Settled(x.cfg, eff.call, own) == Settled(x.cfg, call, own)
            && Like(x, StoreAfter(s, eff))
            && Status(StoreAfter(s, eff), x.id, s.keys[x.id].enabled, s.keys[x.id].remainingUses)
  {
    SameFields(call.verify.key, x.w0.store.keys[x.id]);
    assert call.verify.key.keyId == x.id;
  }

  lemma RevokeStep(x: Setting, s: State, call: Call, env: Env, own: Env)
    requires Ready(x) && Like(x, s) && OnTheKey(x, call) && call.Revoke? && !Finished(call)
    ensures var eff := Advance(x.cfg, s, call, env);
            && eff.call == Revoke(x.id, Some(RevokedReply))
            && Like(x, StoreAfter(s, eff))
            && Status(StoreAfter(s, eff), x.id, false, s.keys[x.id].remainingUses)
  {
  }

  // ------------------------------------------------------------------
  // The invariant of a confined run
  // ------------------------------------------------------------------

  ghost predicate CallsConfined(x: Setting, w: World)
    requires x.id in x.w0.store.keys
  {
    && Like(x, w.store)
    && (forall c <- x.w0.calls :: c in w.calls && w.calls[c] == x.w0.calls[c])
    && (forall c <- w.calls :: c !in x.w0.calls ==> OnTheKey(x, w.calls[c]) && Tracked(x, w.calls[c], x.envs(c)))
  }

  ghost predicate WorldOk(x: Setting, w: World)
    requires x.id in x.w0.store.keys
  {
    CallsOk(x.cfg, w) && BeforeOk(w) && CallsConfined(x, w)
  }

  predicate SettledIn(x: Setting, w: World, c: nat) {
    c in w.calls && c !in x.w0.calls && Settled(x.cfg, w.calls[c], x.envs(c)).Some?
  }

  function SettledAs(x: Setting, w: World, c: nat): Reply
    requires SettledIn(x, w, c)
  {
    Settled(x.cfg, w.calls[c], x.envs(c)).value
  }

  // The order holds each call whose answer is settled, once.
  ghost predicate Members(x: Setting, w: World, pre: seq<nat>, post: seq<nat>) {
    && (forall c :: c in pre || c in post <==> SettledIn(x, w, c))
    && (forall i, j :: 0 <= i < j < |pre + post| ==> (pre + post)[i] != (pre + post)[j])
  }

  // Replayed alone, `pre` gives each of its calls its answer and ends with the
  // machine's credit on an enabled key.
  ghost predicate PreOk(x: Setting, w: World, pre: seq<nat>)
    requires x.id in x.w0.store.keys && x.id in w.store.keys
  {
    && (forall c <- pre :: c in w.calls)
    && Like(x, Serial(x, Requests(w), pre))
    && Status(Serial(x, Requests(w), pre), x.id, x.w0.store.keys[x.id].enabled, w.store.keys[x.id].remainingUses)
    && (forall i :: 0 <= i < |pre| ==>
          SettledIn(x, w, pre[i]) && SerialReply(x, Requests(w), pre, i) == SettledAs(x, w, pre[i]))
  }

  // What a call placed after the first revoke answers.
  function RevokedAnswer(x: Setting, call: Call, own: Env): Reply
    requires x.id in x.w0.store.keys
  {
    if !call.Verify? then RevokedReply
    else if Resolves(x, call.req) then AtomicAnswer(x.cfg, x.w0.store.keys[x.id].(enabled := false), call.req, own)
    else Answer(RESPONSE_NOT_FOUND)
  }

  // `post` starts with a revoke, unless the key was revoked all along, and the
  // key is enabled exactly while `post` is empty.
  ghost predicate PostOk(x: Setting, w: World, post: seq<nat>)
    requires x.id in x.w0.store.keys && x.id in w.store.keys
  {
    var k0 := x.w0.store.keys[x.id];
    && w.store.keys[x.id].enabled == (k0.enabled && post == [])
    && (forall c <- post :: SettledIn(x, w, c) && SettledAs(x, w, c) == RevokedAnswer(x, w.calls[c], x.envs(c)))
    && (post != [] && k0.enabled ==> post[0] in w.calls && w.calls[post[0]].Revoke?)
  }

  // Past its lookup with its answer still open: it has yet to spend.
  predicate Undecided(x: Setting, w: World, c: nat) {
    c in w.calls && c !in x.w0.calls && w.calls[c].Verify? && !w.calls[c].verify.Lookup? && !SettledIn(x, w, c)
  }

  // So it is in the order built; and none that finished before an undecided
  // call began is in `post`.
  ghost predicate RealTime(x: Setting, w: World, pre: seq<nat>, post: seq<nat>) {
    && InOrder(w, pre + post)
    && (forall c, d :: Undecided(x, w, c) && d in post ==> c in w.before && d !in w.before[c])
  }

  ghost predicate OrderOk(x: Setting, w: World, pre: seq<nat>, post: seq<nat>)
    requires x.id in x.w0.store.keys
  {
    WorldOk(x, w) && Members(x, w, pre, post) && PreOk(x, w, pre) && PostOk(x, w, post) && RealTime(x, w, pre, post)
  }

  // ------------------------------------------------------------------
  // Every step keeps it
  // ------------------------------------------------------------------

  // What one step of one call does, in terms of settled answers.
  ghost predicate StepSummary(x: Setting, s: State, call: Call, env: Env, own: Env)
    requires !Finished(call) && x.id in x.w0.store.keys && x.id in s.keys
  {
    var eff := Advance(x.cfg, s, call, env);
    var was := Settled(x.cfg, call, own);
    var now := Settled(x.cfg, eff.call, own);
    && Like(x, StoreAfter(s, eff)) && OnTheKey(x, eff.call) && Tracked(x, eff.call, own)
    && RequestOf(eff.call) == RequestOf(call)
    && (was.Some? ==> now == was)
    && (now == was ==> Status(StoreAfter(s, eff), x.id, s.keys[x.id].enabled, s.keys[x.id].remainingUses))
    && (now != was && call.Verify? ==> SettlingVerify(x, s, call, env, own))
    && (now != was && !call.Verify? ==>
          now == Some(RevokedReply) && Status(StoreAfter(s, eff), x.id, false, s.keys[x.id].remainingUses))
    && (eff.call.Verify? && now.None? ==> call.Verify? && (call.verify.Lookup? ==> s.keys[x.id].enabled))
  }

  lemma StepSummarised(x: Setting, s: State, call: Call, env: Env, own: Env)
    requires Ready(x) && StoreOk(s) && CallOk(x.cfg, s, call) && Like(x, s) && !Finished(call)
    requires OnTheKey(x, call) && Tracked(x, call, own) && Reads(call, env, own)
    ensures StepSummary(x, s, call, env, own)
  {
    if call.Revoke? {
      RevokeStep(x, s, call, env, own);
    } else {
      match call.verify
      case Lookup => LookupStep(x, s, call, env, own);
      case Check(_) => CheckStep(x, s, call, env, own);
      case Consult(_) => CheckStep(x, s, call, env, own);
      case Spend(_, _) => SpendStep(x, s, call, env, own);
      case Touch(_, _) => TouchStep(x, s, call, env, own);
    }
  }

  lemma StepSummarisedIn(x: Setting, w: World, c: nat, env: Env)
    requires Ready(x) && WorldOk(x, w) && Enabled(w, Step(c, env)) && Confined(x, w, Step(c, env)) && c !in x.w0.calls
    ensures StepSummary(x, w.store, w.calls[c], env, x.envs(c))
  {
    assert Tracked(x, w.calls[c], x.envs(c));
    assert CallOk(x.cfg, w.store, w.calls[c]);
    StepSummarised(x, w.store, w.calls[c], env, x.envs(c));
  }

  lemma ConfinedMoves(x: Setting, w: World, w': World, c: nat, call: Call)
    requires x.id in x.w0.store.keys && CallsConfined(x, w) && c !in x.w0.calls
    requires w'.calls == w.calls[c := call] && Like(x, w'.store)
    requires OnTheKey(x, call) && Tracked(x, call, x.envs(c))
    ensures CallsConfined(x, w')
  {
  }

  lemma SameRequests(w: World, w': World, c: nat)
    requires c in w.calls && c in w'.calls && w'.calls == w.calls[c := w'.calls[c]]
    requires RequestOf(w'.calls[c]) == RequestOf(w.calls[c])
    ensures Requests(w') == Requests(w)
  {
  }

  lemma OldCallsFinished(x: Setting, w: World)
    requires Ready(x) && CallsConfined(x, w)
    ensures forall c <- x.w0.calls :: c in w.calls && Finished(w.calls[c])
  {
  }

  lemma WorldBegin(x: Setting, w: World, c: nat, call: Call)
    requires Ready(x) && WorldOk(x, w) && Enabled(w, Begin(c, call)) && OnTheKey(x, call)
    ensures WorldOk(x, Apply(x.cfg, w, Begin(c, call)))
  {
    ApplyKeepsCalls(x.cfg, w, Begin(c, call));
    ApplyKeepsBefore(x.cfg, w, Begin(c, call));
    ConfinedMoves(x, w, Apply(x.cfg, w, Begin(c, call)), c, call);
  }

  lemma WorldStep(x: Setting, w: World, c: nat, env: Env)
    requires Ready(x) && WorldOk(x, w) && Enabled(w, Step(c, env)) && Confined(x, w, Step(c, env))
    ensures c !in x.w0.calls && StepSummary(x, w.store, w.calls[c], env, x.envs(c))
    ensures WorldOk(x, Apply(x.cfg, w, Step(c, env)))
    ensures Requests(Apply(x.cfg, w, Step(c, env))) == Requests(w)
  {
    OldCallsFinished(x, w);
    StepSummarisedIn(x, w, c, env);
    var w' := Apply(x.cfg, w, Step(c, env));
    ApplyKeepsCalls(x.cfg, w, Step(c, env));
    ApplyKeepsBefore(x.cfg, w, Step(c, env));
    ConfinedMoves(x, w, w', c, w'.calls[c]);
    SameRequests(w, w', c);
  }

  // Nothing that is settled, nor the key's status, has moved from w to w'.
  ghost predicate Undisturbed(x: Setting, w: World, w': World)
    requires x.id in w.store.keys
  {
    && (forall c <- w.calls :: c in w'.calls && RequestOf(w'.calls[c]) == RequestOf(w.calls[c]) && w.calls[c].Verify? == w'.calls[c].Verify?)
    && (forall c :: SettledIn(x, w', c) <==> SettledIn(x, w, c))
    && (forall c :: SettledIn(x, w, c) ==> SettledAs(x, w', c) == SettledAs(x, w, c))
    && (forall c <- w.before :: c in w'.before && w'.before[c] == w.before[c])
    && Status(w'.store, x.id, w.store.keys[x.id].enabled, w.store.keys[x.id].remainingUses)
    && (forall c :: Undecided(x, w', c) ==> c in w.calls && (Undecided(x, w, c) || w.store.keys[x.id].enabled))
  }

  lemma UndisturbedPre(x: Setting, w: World, w': World, pre: seq<nat>)
    requires x.id in x.w0.store.keys && x.id in w.store.keys && PreOk(x, w, pre) && Undisturbed(x, w, w')
    ensures PreOk(x, w', pre)
  {
    var reqs, reqs' := Requests(w), Requests(w');
    SerialSameRequests(x, reqs, reqs', pre);
    forall i | 0 <= i < |pre| ensures SerialReply(x, reqs', pre, i) == SerialReply(x, reqs, pre, i) {
      assert forall c <- pre[..i] :: c in pre;
      SerialSameRequests(x, reqs, reqs', pre[..i]);
      assert pre[i] in pre;
    }
  }

  lemma UndisturbedPost(x: Setting, w: World, w': World, post: seq<nat>)
    requires x.id in x.w0.store.keys && x.id in w.store.keys && PostOk(x, w, post) && CallsConfined(x, w') && Undisturbed(x, w, w')
    ensures PostOk(x, w', post)
  {
    forall c | c in post
      ensures SettledIn(x, w', c) && SettledAs(x, w', c) == RevokedAnswer(x, w'.calls[c], x.envs(c))
    {
      assert SettledIn(x, w, c);
      assert RequestOf(w'.calls[c]) == RequestOf(w.calls[c]);
    }
    if post != [] {
      assert post[0] in post && SettledIn(x, w, post[0]) && SettledIn(x, w', post[0]);
      assert OnTheKey(x, w'.calls[post[0]]);
    }
  }

  lemma UndisturbedRealTime(x: Setting, w: World, w': World, pre: seq<nat>, post: seq<nat>)
    requires x.id in w.store.keys && RealTime(x, w, pre, post) && Undisturbed(x, w, w')
    requires w.store.keys[x.id].enabled ==> post == []
    ensures RealTime(x, w', pre, post)
  {
    StaysInOrder(w, w', pre + post);
    forall c, d | Undecided(x, w', c) && d in post ensures c in w'.before && d !in w'.before[c] {
      assert post != [];
      assert Undecided(x, w, c);
      assert c in w.before && d !in w.before[c];
    }
  }

  lemma UndisturbedOrder(x: Setting, w: World, w': World, pre: seq<nat>, post: seq<nat>)
    requires x.id in x.w0.store.keys && OrderOk(x, w, pre, post) && WorldOk(x, w') && Undisturbed(x, w, w')
    ensures OrderOk(x, w', pre, post)
  {
    UndisturbedPre(x, w, w', pre);
    UndisturbedPost(x, w, w', post);
    UndisturbedRealTime(x, w, w', pre, post);
  }

  // From w to w' only call c has moved, and its answer is now settled.
  ghost predicate OnlySettles(x: Setting, w: World, w': World, c: nat) {
    && c in w.calls && !Finished(w.calls[c]) && !SettledIn(x, w, c) && SettledIn(x, w', c)
    && w'.calls == w.calls[c := w'.calls[c]] && w'.before == w.before
    && Requests(w') == Requests(w)
  }

  lemma SettlesElsewhere(x: Setting, w: World, w': World, c: nat)
    requires OnlySettles(x, w, w', c)
    ensures forall d :: SettledIn(x, w', d) <==> SettledIn(x, w, d) || d == c
    ensures forall d :: SettledIn(x, w, d) ==> SettledAs(x, w', d) == SettledAs(x, w, d)
    ensures forall d :: Undecided(x, w', d) ==> Undecided(x, w, d)
  {
  }

  lemma MembersGrow(x: Setting, w: World, w': World, c: nat, pre: seq<nat>, post: seq<nat>)
    requires Members(x, w, pre, post) && OnlySettles(x, w, w', c)
    ensures Members(x, w', pre + [c], post) && Members(x, w', pre, post + [c])
  {
    SettlesElsewhere(x, w, w', c);
    assert c !in pre && c !in post;
    var order, order1, order2 := pre + post, pre + [c] + post, pre + (post + [c]);
    forall i, j | 0 <= i < j < |order1| ensures order1[i] != order1[j] {
      var i', j' := if i < |pre| then i else i - 1, if j < |pre| then j else j - 1;
      assert i != |pre| ==> order1[i] == order[i'];
      assert j != |pre| ==> order1[j] == order[j'];
      assert order1[|pre|] == c;
      assert forall k :: 0 <= k < |order| ==> order[k] in pre || order[k] in post;
    }
    forall i, j | 0 <= i < j < |order2| ensures order2[i] != order2[j] {
      assert order2[i] == order[i];
      assert j < |order| ==> order2[j] == order[j];
      assert order[i] in pre || order[i] in post;
    }
  }

  lemma RealTimeGrowsPre(x: Setting, w: World, w': World, c: nat, pre: seq<nat>, post: seq<nat>)
    requires BeforeOk(w) && RealTime(x, w, pre, post) && OnlySettles(x, w, w', c)
    requires post == [] || Undecided(x, w, c)
    requires forall d :: d in pre || d in post ==> d in w.calls
    ensures RealTime(x, w', pre + [c], post)
  {
    SettlesElsewhere(x, w, w', c);
    UnfinishedUnrecorded(w, c);
    var order, order' := pre + post, pre + [c] + post;
    forall i, j | 0 <= i < j < |order'| ensures order'[i] in w.before && order'[j] !in w.before[order'[i]] {
      var i', j' := if i < |pre| then i else i - 1, if j < |pre| then j else j - 1;
      assert order'[|pre|] == c;
      assert i != |pre| ==> order'[i] == order[i'];
      assert j != |pre| ==> order'[j] == order[j'];
      assert i < |pre| ==> order'[i] in pre;
      assert j > |pre| ==> order'[j] in post;
    }
  }

  lemma RealTimeGrowsPost(x: Setting, w: World, w': World, c: nat, pre: seq<nat>, post: seq<nat>)
    requires BeforeOk(w) && RealTime(x, w, pre, post) && OnlySettles(x, w, w', c)
    requires forall d :: d in pre || d in post ==> d in w.calls
    ensures RealTime(x, w', pre, post + [c])
  {
    SettlesElsewhere(x, w, w', c);
    UnfinishedUnrecorded(w, c);
    var order, order' := pre + post, pre + (post + [c]);
    forall i, j | 0 <= i < j < |order'| ensures order'[i] in w.before && order'[j] !in w.before[order'[i]] {
      assert order'[i] == order[i];
      assert order[i] in pre || order[i] in post;
      assert j < |order| ==> order'[j] == order[j];
    }
  }

  // A verify placed at the end of `pre`, replayed there, gives its answer and
  // spends what the machine spent.
  lemma {:induction false} PreGrows(x: Setting, w: World, w': World, c: nat, pre: seq<nat>)
    requires Ready(x) && x.id in w.store.keys && PreOk(x, w, pre) && OnlySettles(x, w, w', c)
    requires w.calls[c].Verify? && OnTheKey(x, w.calls[c])
    requires x.w0.store.keys[x.id].enabled && KeyLike(x.w0.store.keys[x.id], w.store.keys[x.id])
    requires var k, req, own := w.store.keys[x.id].(enabled := true), w.calls[c].req, x.envs(c);
             && SettledAs(x, w', c) == (if Resolves(x, req) then AtomicAnswer(x.cfg, k, req, own) else Answer(RESPONSE_NOT_FOUND))
             && x.id in w'.store.keys
             && w'.store.keys[x.id].remainingUses ==
                  k.remainingUses - (if Resolves(x, req) && WouldSpend(x.cfg, k, req, own) then 1 else 0)
    ensures PreOk(x, w', pre + [c])
  {
    var reqs, req := Requests(w), w.calls[c].req;
    var s := Serial(x, reqs, pre);
    SettlesElsewhere(x, w, w', c);
    SerialExtends(x, reqs, pre, c);
    SerialVerify(x, s, req, x.envs(c));
    SameAnswer(x, s.keys[x.id], w.store.keys[x.id].(enabled := true), req, x.envs(c));
    assert reqs[c] == VerifyKey(req);
    forall i | 0 <= i < |pre| + 1
      ensures var d := (pre + [c])[i];
              SettledIn(x, w', d) && SerialReply(x, reqs, pre + [c], i) == SettledAs(x, w', d)
    {
      if i < |pre| { assert SettledIn(x, w, pre[i]); }
    }
  }

  lemma PreUnmoved(x: Setting, w: World, w': World, c: nat, pre: seq<nat>)
    requires x.id in x.w0.store.keys && x.id in w.store.keys && PreOk(x, w, pre) && OnlySettles(x, w, w', c)
    requires x.id in w'.store.keys && w'.store.keys[x.id].remainingUses == w.store.keys[x.id].remainingUses
    ensures PreOk(x, w', pre)
  {
    SettlesElsewhere(x, w, w', c);
  }

  lemma PostUnmoved(x: Setting, w: World, w': World, c: nat, post: seq<nat>)
    requires x.id in x.w0.store.keys && x.id in w.store.keys && PostOk(x, w, post) && OnlySettles(x, w, w', c)
    requires x.id in w'.store.keys && w'.store.keys[x.id].enabled == w.store.keys[x.id].enabled
    ensures PostOk(x, w', post)
  {
    SettlesElsewhere(x, w, w', c);
    forall d | d in post ensures d != c {
      assert SettledIn(x, w, d);
    }
    assert post != [] ==> post[0] in post;
  }

  lemma PostGrows(x: Setting, w: World, w': World, c: nat, post: seq<nat>)
    requires x.id in x.w0.store.keys && x.id in w.store.keys && PostOk(x, w, post) && OnlySettles(x, w, w', c)
    requires x.id in w'.store.keys && !w'.store.keys[x.id].enabled
    requires SettledAs(x, w', c) == RevokedAnswer(x, w'.calls[c], x.envs(c))
    requires post == [] && x.w0.store.keys[x.id].enabled ==> w'.calls[c].Revoke?
    ensures PostOk(x, w', post + [c])
  {
    SettlesElsewhere(x, w, w', c);
    forall d | d in post ensures d != c {
      assert SettledIn(x, w, d);
    }
    assert post != [] ==> post[0] in post && (post + [c])[0] == post[0];
  }

  // A revoked key answers REVOKED and spends nothing, whatever its credit.
  lemma AnswerWhenRevoked(x: Setting, k: Key, req: VerifyRequest, own: Env)
    requires x.id in x.w0.store.keys && KeyLike(x.w0.store.keys[x.id], k) && !k.enabled
    ensures AtomicAnswer(x.cfg, k, req, own) == AtomicAnswer(x.cfg, x.w0.store.keys[x.id].(enabled := false), req, own)
    ensures !WouldSpend(x.cfg, k, req, own)
  {
    SameFields(k, x.w0.store.keys[x.id].(enabled := false));
  }

  // A verify that settles while the key is enabled, or at its decrement, goes
  // to the end of `pre`.
  lemma SettlesBefore(x: Setting, w: World, w': World, c: nat, env: Env, pre: seq<nat>, post: seq<nat>)
    requires Ready(x) && CallsConfined(x, w) && BeforeOk(w) && OnlySettles(x, w, w', c)
    requires Members(x, w, pre, post) && PreOk(x, w, pre) && PostOk(x, w, post) && RealTime(x, w, pre, post)
    requires c !in x.w0.calls && w.calls[c].Verify?
    requires StepSummary(x, w.store, w.calls[c], env, x.envs(c))
    requires var eff := Advance(x.cfg, w.store, w.calls[c], env); w'.store == StoreAfter(w.store, eff) && w'.calls[c] == eff.call
    requires w.calls[c].verify.Spend? || w.store.keys[x.id].enabled
    ensures Members(x, w', pre + [c], post) && PreOk(x, w', pre + [c]) && PostOk(x, w', post) && RealTime(x, w', pre + [c], post)
  {
    assert Settled(x.cfg, w.calls[c], x.envs(c)).None?;
    assert SettlingVerify(x, w.store, w.calls[c], env, x.envs(c));
    MembersGrow(x, w, w', c, pre, post);
    PreGrows(x, w, w', c, pre);
    PostUnmoved(x, w, w', c, post);
    assert forall d :: d in pre || d in post ==> SettledIn(x, w, d);
    RealTimeGrowsPre(x, w, w', c, pre, post);
  }

  // A revoke, or a verify that looks up a revoked key, goes to the end of `post`.
  lemma SettlesAfter(x: Setting, w: World, w': World, c: nat, env: Env, pre: seq<nat>, post: seq<nat>)
    requires Ready(x) && CallsConfined(x, w) && BeforeOk(w) && OnlySettles(x, w, w', c)
    requires Members(x, w, pre, post) && PreOk(x, w, pre) && PostOk(x, w, post) && RealTime(x, w, pre, post)
    requires c !in x.w0.calls
    requires StepSummary(x, w.store, w.calls[c], env, x.envs(c))
    requires var eff := Advance(x.cfg, w.store, w.calls[c], env); w'.store == StoreAfter(w.store, eff) && w'.calls[c] == eff.call
    requires w.calls[c].Verify? ==> !w.calls[c].verify.Spend? && !w.store.keys[x.id].enabled
    ensures Members(x, w', pre, post + [c]) && PreOk(x, w', pre) && PostOk(x, w', post + [c]) && RealTime(x, w', pre, post + [c])
  {
    assert Settled(x.cfg, w.calls[c], x.envs(c)).None? && OnTheKey(x, w.calls[c]);
    if w.calls[c].Verify? {
      assert SettlingVerify(x, w.store, w.calls[c], env, x.envs(c));
      AnswerWhenRevoked(x, w.store.keys[x.id], w.calls[c].req, x.envs(c));
    }
    assert RequestOf(w'.calls[c]) == RequestOf(w.calls[c]);
    MembersGrow(x, w, w', c, pre, post);
    PreUnmoved(x, w, w', c, pre);
    PostGrows(x, w, w', c, post);
    assert forall d :: d in pre || d in post ==> SettledIn(x, w, d);
    RealTimeGrowsPost(x, w, w', c, pre, post);
  }

  lemma SettlingStep(x: Setting, w: World, c: nat, env: Env, pre: seq<nat>, post: seq<nat>)
    returns (pre': seq<nat>, post': seq<nat>)
    requires Ready(x) && OrderOk(x, w, pre, post) && Enabled(w, Step(c, env)) && Confined(x, w, Step(c, env))
    requires OnlySettles(x, w, Apply(x.cfg, w, Step(c, env)), c)
    ensures OrderOk(x, Apply(x.cfg, w, Step(c, env)), pre', post')
  {
    var w' := Apply(x.cfg, w, Step(c, env));
    WorldStep(x, w, c, env);
    if w.calls[c].Verify? && (w.calls[c].verify.Spend? || w.store.keys[x.id].enabled) {
      SettlesBefore(x, w, w', c, env, pre, post);
      pre', post' := pre + [c], post;
    } else {
      SettlesAfter(x, w, w', c, env, pre, post);
      pre', post' := pre, post + [c];
    }
  }

  lemma BeginUndisturbed(x: Setting, w: World, w': World, c: nat, call: Call)
    requires x.id in w.store.keys && w.before.Keys == w.calls.Keys && c !in w.calls && Initial(call)
    requires w'.store == w.store && w'.calls == w.calls[c := call]
    requires c in w'.before && w'.before == w.before[c := w'.before[c]]
    ensures Undisturbed(x, w, w')
  {
  }

  lemma StepUndisturbed(x: Setting, w: World, w': World, c: nat, env: Env)
    requires x.id in x.w0.store.keys && x.id in w.store.keys && c in w.calls && !Finished(w.calls[c])
    requires c !in x.w0.calls
    requires StepSummary(x, w.store, w.calls[c], env, x.envs(c)) && OnTheKey(x, w.calls[c])
    requires var eff := Advance(x.cfg, w.store, w.calls[c], env); w'.store == StoreAfter(w.store, eff) && w'.calls == w.calls[c := eff.call]
    requires w'.before == w.before && Requests(w') == Requests(w)
    requires !OnlySettles(x, w, w', c)
    ensures Undisturbed(x, w, w')
  {
    var now := Settled(x.cfg, w'.calls[c], x.envs(c));
    assert w'.calls == w.calls[c := w'.calls[c]];
    assert Settled(x.cfg, w.calls[c], x.envs(c)) == now;
    assert forall d <- w.calls :: d in Requests(w') && Requests(w')[d] == RequestOf(w'.calls[d]);
  }

  lemma OrderStep(x: Setting, w: World, e: Event, pre: seq<nat>, post: seq<nat>)
    returns (pre': seq<nat>, post': seq<nat>)
    requires Ready(x) && OrderOk(x, w, pre, post) && Enabled(w, e) && Confined(x, w, e)
    ensures OrderOk(x, Apply(x.cfg, w, e), pre', post')
  {
    pre', post' := pre, post;
    var w' := Apply(x.cfg, w, e);
    match e
    case Begin(c, call) =>
      WorldBegin(x, w, c, call);
      BeginUndisturbed(x, w, w', c, call);
      UndisturbedOrder(x, w, w', pre, post);
    case Step(c, env) =>
      if OnlySettles(x, w, w', c) {
        pre', post' := SettlingStep(x, w, c, env, pre, post);
      } else {
        WorldStep(x, w, c, env);
        StepUndisturbed(x, w, w', c, env);
        UndisturbedOrder(x, w, w', pre, post);
      }
  }

  // Any confined run from the start has such an order.
  lemma {:induction false} OrderExists(x: Setting, es: seq<Event>) returns (pre: seq<nat>, post: seq<nat>)
    requires Scenario(x) && Legal(x.cfg, x.w0, es) && ReadsRun(x, es) && OnlyOnTheKey(x, es)
    ensures OrderOk(x, Exec(x.cfg, x.w0, es), pre, post)
  {
    if es == [] {
      pre, post := [], [];
      EmptyOrder(x);
    } else {
      var front, e := es[..|es| - 1], es[|es| - 1];
      pre, post := OrderExists(x, front);
      pre, post := OrderStep(x, Exec(x.cfg, x.w0, front), e, pre, post);
    }
  }

  lemma EmptyOrder(x: Setting)
    requires Scenario(x)
    ensures OrderOk(x, x.w0, [], [])
  {
  }

  // ------------------------------------------------------------------
  // The theorem
  // ------------------------------------------------------------------

  // The reply that the call in position i gave is the one it gets replayed,
  // except that one depleted late carries the limiter's decisions.
  ghost predicate RepliesMatch(x: Setting, w: World, order: seq<nat>, i: int) {
    && 0 <= i < |order| && (forall c <- order :: c in w.calls)
    && Finished(w.calls[order[i]]) && (w.calls[order[i]].Verify? || w.calls[order[i]].Revoke?)
    && var given, replayed := Given(w.calls[order[i]]), SerialReply(x, Requests(w), order, i);
       replayed == Plain(given) && (replayed == given <==> !DepletedLate(given))
  }

  // `order` lists the calls begun since w0, each once; no call comes before one
  // that had finished when it began; and run alone in that order by the
  // sequential server, each gets the reply it got, and the key ends with the
  // uses and the enablement it ended with in the run.
  ghost predicate Linearizes(x: Setting, w: World, order: seq<nat>) {
    && (forall c :: c in order <==> c in w.calls && c !in x.w0.calls)
    && (forall i, j :: 0 <= i < j < |order| ==> order[i] != order[j])
    && InOrder(w, order)
    && (forall i :: 0 <= i < |order| ==> RepliesMatch(x, w, order, i))
    && x.id in w.store.keys
    && Status(Serial(x, Requests(w), order), x.id, w.store.keys[x.id].enabled, w.store.keys[x.id].remainingUses)
  }

  ghost predicate ReplaysTo(x: Setting, w: World, order: seq<nat>, enabled: bool, uses: int)
    requires x.id in x.w0.store.keys
  {
    && (forall c <- order :: c in w.calls)
    && Like(x, Serial(x, Requests(w), order))
    && Status(Serial(x, Requests(w), order), x.id, enabled, uses)
  }

  // From the first revoke on, the replayed key is revoked.
  lemma {:induction false} SerialAfterRevoke(x: Setting, w: World, pre: seq<nat>, post: seq<nat>, n: nat, uses: int)
    requires Ready(x) && CallsConfined(x, w) && n <= |post|
    requires forall i :: 0 <= i < |post| ==> post[i] in w.calls && post[i] !in x.w0.calls
    requires ReplaysTo(x, w, pre, x.w0.store.keys[x.id].enabled, uses)
    requires n > 0 && x.w0.store.keys[x.id].enabled ==> post[0] in w.calls && w.calls[post[0]].Revoke?
    ensures ReplaysTo(x, w, pre + post[..n], n == 0 && x.w0.store.keys[x.id].enabled, uses)
    decreases n
  {
    if n == 0 {
      assert pre + post[..0] == pre;
    } else {
      var front, c := pre + post[..n - 1], post[n - 1];
      SerialAfterRevoke(x, w, pre, post, n - 1, uses);
      assert pre + post[..n] == front + [c];
      SerialStepRevoked(x, w, front, c, n - 1 == 0 && x.w0.store.keys[x.id].enabled, uses);
    }
  }

  lemma SerialStepRevoked(x: Setting, w: World, front: seq<nat>, c: nat, enabled: bool, uses: int)
    requires Ready(x) && CallsConfined(x, w) && c in w.calls && c !in x.w0.calls
    requires ReplaysTo(x, w, front, enabled, uses) && (enabled ==> w.calls[c].Revoke?)
    ensures ReplaysTo(x, w, front + [c], false, uses)
  {
    SerialExtends(x, Requests(w), front, c);
    SerialOnKey(x, w, Serial(x, Requests(w), front), c);
  }

  // One call replayed on a store like the first one; on a revoked key it gives
  // what a call placed after the first revoke answers.
  lemma SerialOnKey(x: Setting, w: World, s: State, c: nat)
    requires Ready(x) && CallsConfined(x, w) && Like(x, s) && c in w.calls && c !in x.w0.calls
    ensures var (s', r) := Serve(MemoryDriver(), x.cfg, s, RequestOf(w.calls[c]), x.envs(c));
            && Like(x, s')
            && (!s.keys[x.id].enabled || w.calls[c].Revoke? ==>
                  !s'.keys[x.id].enabled && s'.keys[x.id].remainingUses == s.keys[x.id].remainingUses
                  && r == RevokedAnswer(x, w.calls[c], x.envs(c)))
  {
    assert OnTheKey(x, w.calls[c]);
    if w.calls[c].Verify? {
      SerialVerify(x, s, w.calls[c].req, x.envs(c));
      if !s.keys[x.id].enabled {
        AnswerWhenRevoked(x, s.keys[x.id], w.calls[c].req, x.envs(c));
      }
    } else {
      SerialRevoke(x, s, x.envs(c));
    }
  }

  lemma PostInPlay(x: Setting, w: World, pre: seq<nat>, post: seq<nat>)
    requires forall c <- pre + post :: c in w.calls && c !in x.w0.calls
    ensures forall i :: 0 <= i < |post| ==> post[i] in w.calls && post[i] !in x.w0.calls
  {
    forall i | 0 <= i < |post| ensures post[i] in w.calls && post[i] !in x.w0.calls {
      assert (pre + post)[|pre| + i] == post[i] && post[i] in pre + post;
    }
  }

  lemma PostReplay(x: Setting, w: World, pre: seq<nat>, post: seq<nat>, i: nat, uses: int)
    requires Ready(x) && CallsConfined(x, w) && |pre| <= i < |pre| + |post|
    requires forall c <- pre + post :: c in w.calls && c !in x.w0.calls
    requires ReplaysTo(x, w, pre, x.w0.store.keys[x.id].enabled, uses)
    requires x.w0.store.keys[x.id].enabled ==> post[0] in w.calls && w.calls[post[0]].Revoke?
    ensures var c := (pre + post)[i];
            c in w.calls && SerialReply(x, Requests(w), pre + post, i) == RevokedAnswer(x, w.calls[c], x.envs(c))
  {
    var n := i - |pre|;
    assert (pre + post)[..i] == pre + post[..n];
    assert (pre + post)[i] == post[n];
    PostInPlay(x, w, pre, post);
    SerialAfterRevoke(x, w, pre, post, n, uses);
    SerialOnKey(x, w, Serial(x, Requests(w), pre + post[..n]), post[n]);
  }

  lemma PreReplay(x: Setting, w: World, pre: seq<nat>, post: seq<nat>, i: nat)
    requires i < |pre| && forall c <- pre + post :: c in w.calls
    ensures forall c <- pre :: c in w.calls
    ensures SerialReply(x, Requests(w), pre + post, i) == SerialReply(x, Requests(w), pre, i)
  {
    assert (pre + post)[..i] == pre[..i];
    assert forall c <- pre :: c in pre + post;
  }

  lemma OrderInPlay(x: Setting, w: World, pre: seq<nat>, post: seq<nat>)
    requires Members(x, w, pre, post)
    ensures forall c <- pre + post :: SettledIn(x, w, c)
  {
    forall c | c in pre + post ensures SettledIn(x, w, c) {
      assert c in pre || c in post;
    }
  }

  lemma PreReplaysTo(x: Setting, w: World, pre: seq<nat>, uses: int)
    requires x.id in x.w0.store.keys && x.id in w.store.keys && PreOk(x, w, pre) && uses == w.store.keys[x.id].remainingUses
    ensures ReplaysTo(x, w, pre, x.w0.store.keys[x.id].enabled, uses)
  {
  }

  lemma PostAnswers(x: Setting, w: World, post: seq<nat>, n: nat)
    requires x.id in x.w0.store.keys && x.id in w.store.keys && PostOk(x, w, post) && n < |post|
    ensures x.w0.store.keys[x.id].enabled ==> post[0] in w.calls && w.calls[post[0]].Revoke?
    ensures SettledIn(x, w, post[n]) && SettledAs(x, w, post[n]) == RevokedAnswer(x, w.calls[post[n]], x.envs(post[n]))
  {
    assert post[n] in post;
  }

  lemma PreAnswers(x: Setting, w: World, pre: seq<nat>, i: nat)
    requires x.id in x.w0.store.keys && x.id in w.store.keys && PreOk(x, w, pre) && i < |pre|
    ensures SettledIn(x, w, pre[i]) && SerialReply(x, Requests(w), pre, i) == SettledAs(x, w, pre[i])
  {
  }

  // Replayed in this order, the call in position i gets its answer.
  ghost predicate Replayed(x: Setting, w: World, order: seq<nat>, i: int) {
    && 0 <= i < |order| && (forall c <- order :: c in w.calls)
    && SettledIn(x, w, order[i])
    && SerialReply(x, Requests(w), order, i) == SettledAs(x, w, order[i])
  }

  lemma PreCase(x: Setting, w: World, pre: seq<nat>, post: seq<nat>, i: nat)
    requires x.id in x.w0.store.keys && x.id in w.store.keys && PreOk(x, w, pre) && i < |pre|
    requires forall c <- pre + post :: c in w.calls
    ensures Replayed(x, w, pre + post, i)
  {
    PreAnswers(x, w, pre, i);
    PreReplay(x, w, pre, post, i);
  }

  lemma PostCase(x: Setting, w: World, pre: seq<nat>, post: seq<nat>, i: nat)
    requires Ready(x) && CallsConfined(x, w) && PreOk(x, w, pre) && PostOk(x, w, post) && |pre| <= i < |pre| + |post|
    requires forall c <- pre + post :: c in w.calls && c !in x.w0.calls
    ensures Replayed(x, w, pre + post, i)
  {
    assert (pre + post)[i] == post[i - |pre|];
    PostAnswers(x, w, post, i - |pre|);
    PreReplaysTo(x, w, pre, w.store.keys[x.id].remainingUses);
    PostReplay(x, w, pre, post, i, w.store.keys[x.id].remainingUses);
  }

  lemma OrderListsAll(x: Setting, w: World, pre: seq<nat>, post: seq<nat>)
    requires x.id in x.w0.store.keys && CallsConfined(x, w) && Members(x, w, pre, post)
    requires forall c <- w.calls :: Finished(w.calls[c])
    ensures forall c :: c in pre + post <==> c in w.calls && c !in x.w0.calls
  {
    OrderInPlay(x, w, pre, post);
    forall c | c in w.calls && c !in x.w0.calls ensures c in pre + post {
      FinishedIsSettled(x, w, c);
      assert c in pre || c in post;
    }
  }

  lemma PreMatches(x: Setting, w: World, pre: seq<nat>, post: seq<nat>, i: nat)
    requires x.id in x.w0.store.keys && x.id in w.store.keys && CallsConfined(x, w) && PreOk(x, w, pre) && i < |pre|
    requires forall c <- pre + post :: c in w.calls && Finished(w.calls[c])
    ensures RepliesMatch(x, w, pre + post, i)
  {
    PreCase(x, w, pre, post, i);
    assert (pre + post)[i] in pre + post;
    ReplayedGiven(x, w, pre + post, i);
  }

  lemma PostMatches(x: Setting, w: World, pre: seq<nat>, post: seq<nat>, i: nat)
    requires Ready(x) && CallsConfined(x, w) && PreOk(x, w, pre) && PostOk(x, w, post) && |pre| <= i < |pre| + |post|
    requires forall c <- pre + post :: c in w.calls && c !in x.w0.calls && Finished(w.calls[c])
    ensures RepliesMatch(x, w, pre + post, i)
  {
    PostCase(x, w, pre, post, i);
    assert (pre + post)[i] in pre + post;
    ReplayedGiven(x, w, pre + post, i);
  }

  lemma PreAllMatch(x: Setting, w: World, pre: seq<nat>, post: seq<nat>)
    requires x.id in x.w0.store.keys && x.id in w.store.keys && CallsConfined(x, w) && PreOk(x, w, pre)
    requires forall c <- pre + post :: c in w.calls && Finished(w.calls[c])
    ensures forall i :: 0 <= i < |pre| ==> RepliesMatch(x, w, pre + post, i)
  {
    forall i | 0 <= i < |pre| ensures RepliesMatch(x, w, pre + post, i) {
      PreMatches(x, w, pre, post, i);
    }
  }

  lemma PostAllMatch(x: Setting, w: World, pre: seq<nat>, post: seq<nat>)
    requires Ready(x) && CallsConfined(x, w) && PreOk(x, w, pre) && PostOk(x, w, post)
    requires forall c <- pre + post :: c in w.calls && c !in x.w0.calls && Finished(w.calls[c])
    ensures forall i :: |pre| <= i < |pre| + |post| ==> RepliesMatch(x, w, pre + post, i)
  {
    forall i | |pre| <= i < |pre| + |post| ensures RepliesMatch(x, w, pre + post, i) {
      PostMatches(x, w, pre, post, i);
    }
  }

  lemma ReplayEnds(x: Setting, w: World, pre: seq<nat>, post: seq<nat>)
    requires Ready(x) && CallsConfined(x, w) && PreOk(x, w, pre) && PostOk(x, w, post)
    requires forall c <- pre + post :: c in w.calls && c !in x.w0.calls
    ensures Status(Serial(x, Requests(w), pre + post), x.id, w.store.keys[x.id].enabled, w.store.keys[x.id].remainingUses)
  {
    PreReplaysTo(x, w, pre, w.store.keys[x.id].remainingUses);
    PostInPlay(x, w, pre, post);
    SerialAfterRevoke(x, w, pre, post, |post|, w.store.keys[x.id].remainingUses);
    assert post[..|post|] == post;
  }

  lemma OrderLinearizes(x: Setting, w: World, pre: seq<nat>, post: seq<nat>)
    requires Ready(x) && CallsConfined(x, w)
    requires Members(x, w, pre, post) && PreOk(x, w, pre) && PostOk(x, w, post) && RealTime(x, w, pre, post)
    requires forall c <- w.calls :: Finished(w.calls[c])
    ensures Linearizes(x, w, pre + post)
  {
    OrderListsAll(x, w, pre, post);
    PreAllMatch(x, w, pre, post);
    PostAllMatch(x, w, pre, post);
    ReplayEnds(x, w, pre, post);
  }

  lemma ReplayedGiven(x: Setting, w: World, order: seq<nat>, i: nat)
    requires x.id in x.w0.store.keys && CallsConfined(x, w) && Replayed(x, w, order, i) && Finished(w.calls[order[i]])
    ensures w.calls[order[i]].Verify? || w.calls[order[i]].Revoke?
    ensures SerialReply(x, Requests(w), order, i) == Plain(Given(w.calls[order[i]]))
  {
    FinishedIsSettled(x, w, order[i]);
  }

  lemma FinishedIsSettled(x: Setting, w: World, c: nat)
    requires x.id in x.w0.store.keys && CallsConfined(x, w) && c in w.calls && c !in x.w0.calls && Finished(w.calls[c])
    ensures (w.calls[c].Verify? || w.calls[c].Revoke?) && SettledIn(x, w, c)
    ensures Plain(Given(w.calls[c])) == SettledAs(x, w, c)
  {
    assert OnTheKey(x, w.calls[c]);
  }

  // With the readings of each call given, some order linearizes a complete run.
  lemma {:induction false} ConfinedLinearizable(x: Setting, es: seq<Event>)
    requires Reachable(x.cfg, x.w0) && Ready(x) && Legal(x.cfg, x.w0, es) && ReadsRun(x, es) && OnlyOnTheKey(x, es)
    requires forall c <- Exec(x.cfg, x.w0, es).calls :: Finished(Exec(x.cfg, x.w0, es).calls[c])
    ensures exists order :: Linearizes(x, Exec(x.cfg, x.w0, es), order)
  {
    ReadyScenario(x);
    var w := Exec(x.cfg, x.w0, es);
    var pre, post := OrderExists(x, es);
    OrderOkLinearizes(x, w, pre, post);
    assert Linearizes(x, w, pre + post);
  }

  lemma ReadyScenario(x: Setting)
    requires Reachable(x.cfg, x.w0) && Ready(x)
    ensures Scenario(x)
  {
    ReachableInv(x.cfg, x.w0);
  }

  lemma OrderOkLinearizes(x: Setting, w: World, pre: seq<nat>, post: seq<nat>)
    requires Ready(x) && OrderOk(x, w, pre, post) && forall c <- w.calls :: Finished(w.calls[c])
    ensures Linearizes(x, w, pre + post)
  {
    OrderLinearizes(x, w, pre, post);
  }

  // For every complete run of verify and revoke calls on one key, begun when
  // nothing was in flight, some sequential order of atomic calls respects real
  // time and gives every call the reply it got, each call checking the clock and
  // hearing from the limiter as it did in the run.
  lemma {:induction false} VerifyRevokeLinearizable(x: Setting, es: seq<Event>)
    requires Reachable(x.cfg, x.w0) && Ready(x) && Legal(x.cfg, x.w0, es) && OnlyOnTheKey(x, es)
    requires forall c <- Exec(x.cfg, x.w0, es).calls :: Finished(Exec(x.cfg, x.w0, es).calls[c])
    ensures exists y: Setting, order ::
              y == x.(envs := y.envs) && ReadsRun(y, es) && Linearizes(y, Exec(x.cfg, x.w0, es), order)
  {
    var y := ReadingsExist(x, es);
    ConfinedLinearizable(y, es);
  }
}
