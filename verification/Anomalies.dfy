/**
 Runs of the step machine from its start that show what the protocol does not
 promise: a DEPLETED reply may carry the limiter's decisions, and last-verified
 stamps may go back.
 */
module Anomalies {
  import opened Domain
  import opened StoreSpec
  import opened Verdict
  import opened Rpc
  import opened Machine
  import opened Invariants
  import opened Replay
  import opened Runs
  import Keymat

  // Readings that matter nowhere but for the new identifier, the random bytes
  // and the limiter's answer.
  function Readings(id: string, entropy: Option<Bytes>, answer: Consumed): Env {
    Env(0, 0, 0, id, entropy, answer)
  }

  const IDLE := Readings("z", None, ConsumeFailed)

  // ------------------------------------------------------------------
  // One key to start with
  // ------------------------------------------------------------------

  const TENANT := Workspace("w", "n", "o", 0, 0, map[])
  const PRODUCT := Api("a", "w", "n", "", 0, 0, map[])

  function FirstKey(cfg: Config, e1: Bytes, limits: seq<LimitRef>, uses: int): Key {
    Key("k", "a", "w", "o", "", cfg.sha(Keymat.Plaintext("", e1)), [], limits, None, uses, true, 0, 0, None, map[])
  }

  function FirstStore(cfg: Config, e1: Bytes, limits: seq<LimitRef>, uses: int): State {
    var k := FirstKey(cfg, e1, limits, uses);
    State(map["w" := TENANT], map["a" := PRODUCT], map["k" := k], map[k.keyHash := "k"])
  }

  // A key made from random bytes e1, and nothing in flight.
  ghost predicate Prepared(cfg: Config, w: World, e1: Bytes, limits: seq<LimitRef>, uses: int) {
    && w.store == FirstStore(cfg, e1, limits, uses) && w.drawn == {e1}
    && w.calls.Keys == {0, 1, 2} && (forall c <- w.calls :: Finished(w.calls[c]))
  }

  lemma PrepareTenant(cfg: Config) returns (es: seq<Event>, w: World)
    ensures RunsTo(cfg, START, es, w) && w.drawn == {} && w.calls.Keys == {0, 1}
    ensures w.store == State(map["w" := TENANT], map["a" := PRODUCT], map[], map[])
    ensures forall c <- w.calls :: Finished(w.calls[c])
  {
    NoEvents(cfg, START);
    es, w := Then(cfg, START, [], START, Begin(0, NewWorkspace(Workspace("", "n", "o", 0, 0, map[]), None)));
    es, w := Then(cfg, START, es, w, Step(0, Readings("w", None, ConsumeFailed)));
    assert w.store == State(map["w" := TENANT], map[], map[], map[]) && w.calls.Keys == {0} && Finished(w.calls[0]);
    es, w := Then(cfg, START, es, w, Begin(1, NewApi(Api("", "w", "n", "", 0, 0, map[]), None)));
    es, w := Then(cfg, START, es, w, Step(1, Readings("a", None, ConsumeFailed)));
  }

  lemma Prepare(cfg: Config, e1: Bytes, limits: seq<LimitRef>, uses: int) returns (es: seq<Event>, w: World)
    requires |e1| == Keymat.RANDOM_BYTES && InitialUses(uses) == uses
    ensures RunsTo(cfg, START, es, w) && Prepared(cfg, w, e1, limits, uses)
  {
    es, w := PrepareTenant(cfg);
    var req := CreateKeyRequest("a", "o", "", [], limits, None, uses, map[]);
    var p := Keymat.Plaintext("", e1);
    es, w := Then(cfg, START, es, w, Begin(2, Create(req, ReadApi)));
    es, w := Then(cfg, START, es, w, Step(2, Readings("z", Some(e1), ConsumeFailed)));
    assert w.calls[2] == Create(req, Insert(PRODUCT, p)) && w.drawn == {e1};
    es, w := Then(cfg, START, es, w, Step(2, Readings("k", None, ConsumeFailed)));
  }

  // ------------------------------------------------------------------
  // Decisions on a DEPLETED reply
  // ------------------------------------------------------------------

  lemma ReachesSpendLimited(cfg: Config, w0: World, es: seq<Event>, w: World, c: nat, req: VerifyRequest, k: Key, ds: seq<LimitDecision>)
    returns (es': seq<Event>, w': World)
    requires RunsTo(cfg, w0, es, w) && c in w.calls && w.calls[c] == Verify(req, Check(k)) && FreshEnv(w.store, IDLE)
    requires k.enabled && k.expiresAt.None? && k.remainingUses == 1 && k.limitRefs != [] && req.requiredPermissions == []
    requires cfg.limiter.External? && !req.skipRatelimit && AllAllowed(ds)
    ensures RunsTo(cfg, w0, es', w') && w' == w.(calls := w.calls[c := Verify(req, Spend(k, ds))])
  {
    es', w' := Onward(cfg, w0, es, w, c, IDLE, Local(Verify(req, Consult(k))));
    es', w' := Onward(cfg, w0, es', w', c, Readings("z", None, Decisions(ds)), Local(Verify(req, Spend(k, ds))));
    assert w.calls[c := Verify(req, Consult(k))][c := Verify(req, Spend(k, ds))] == w.calls[c := Verify(req, Spend(k, ds))];
  }

  // With any outside limiter there is a run from the start in which a verify is
  // told DEPLETED with the limiter's decisions, which no call run alone is.
  lemma DepletedWithDecisions(cfg: Config, e1: Bytes, limit: LimitRef) returns (w: World)
    requires |e1| == Keymat.RANDOM_BYTES && cfg.limiter.External?
    ensures Reachable(cfg, w) && 3 in w.calls && w.calls[3].Verify? && Finished(w.calls[3]) && DepletedLate(Given(w.calls[3]))
  {
    var k, req := FirstKey(cfg, e1, [limit], 1), VerifyRequest(Keymat.Plaintext("", e1), [], false);
    var es, w0 := Prepare(cfg, e1, [limit], 1);
    es, w := BothLookUp(cfg, es, w0, e1, limit, req);
    es, w := FirstLosesCredit(cfg, es, w, k, req, limit);
  }

  lemma BothLookUp(cfg: Config, es: seq<Event>, w: World, e1: Bytes, limit: LimitRef, req: VerifyRequest)
    returns (es': seq<Event>, w': World)
    requires |e1| == Keymat.RANDOM_BYTES && RunsTo(cfg, START, es, w) && Prepared(cfg, w, e1, [limit], 1)
    requires req == VerifyRequest(Keymat.Plaintext("", e1), [], false)
    ensures var k := FirstKey(cfg, e1, [limit], 1);
            && RunsTo(cfg, START, es', w') && w'.store == w.store
            && w'.calls == w.calls[3 := Verify(req, Check(k))][4 := Verify(req.(skipRatelimit := true), Check(k))]
  {
    Keymat.PlaintextShape("", e1);
    es', w' := LooksUp(cfg, START, es, w, 3, IDLE, req, FirstKey(cfg, e1, [limit], 1));
    es', w' := LooksUp(cfg, START, es', w', 4, IDLE, req.(skipRatelimit := true), FirstKey(cfg, e1, [limit], 1));
  }

  lemma FirstLosesCredit(cfg: Config, es: seq<Event>, w: World, k: Key, req: VerifyRequest, limit: LimitRef)
    returns (es': seq<Event>, w': World)
    requires RunsTo(cfg, START, es, w) && FreshEnv(w.store, IDLE) && cfg.limiter.External?
    requires {3, 4} <= w.calls.Keys && w.calls[3] == Verify(req, Check(k)) && w.calls[4] == Verify(req.(skipRatelimit := true), Check(k))
    requires k.enabled && k.expiresAt.None? && k.remainingUses == 1 && k.limitRefs == [limit] && k.keyId == "k"
    requires !req.skipRatelimit && req.requiredPermissions == [] && w.store.keys == map["k" := k]
    ensures RunsTo(cfg, START, es', w') && 3 in w'.calls && w'.calls[3].Verify? && Finished(w'.calls[3])
    ensures DepletedLate(Given(w'.calls[3]))
  {
    var skips, ds := req.(skipRatelimit := true), [LimitDecision(limit.limitId, limit.scopeKey, true, 0, 0)];
    es', w' := ReachesSpendLimited(cfg, START, es, w, 3, req, k, ds);
    es', w' := Onward(cfg, START, es', w', 4, IDLE, Local(Verify(skips, Spend(k, []))));
    es', w' := SpendsOk(cfg, START, es', w', 4, IDLE, skips, k);
    es', w' := SpendsTooLate(cfg, START, es', w', 3, IDLE, req, k, ds);
    assert w'.calls[3] == Verify(req, Answered(Respond(k, DEPLETED, ds), 0));
  }

  // ------------------------------------------------------------------
  // Last-verified stamps
  // ------------------------------------------------------------------

  function Stamp(s: State, id: string): Option<Time>
    requires id in s.keys
  {
    s.keys[id].lastVerifiedAt
  }

  // Only a verify call's touch of the key writes the stamp.
  lemma StampAfter(cfg: Config, s: State, call: Call, env: Env, id: string)
    requires !Finished(call) && FreshEnv(s, env) && id in s.keys
    ensures var s' := StoreAfter(s, Advance(cfg, s, call, env));
            && id in s'.keys
            && Stamp(s', id) == if call.Verify? && call.verify.Touch? && call.verify.key.keyId == id then Some(env.touchAt) else Stamp(s, id)
  {
    var eff := Advance(cfg, s, call, env);
    if call.Verify? {
      VerifyEffect(cfg, s, call, env);
    } else {
      NonVerifyEffect(cfg, s, call, env);
    }
    if eff.op.Some? { FieldsKept(s, eff.op.value, id); }
  }

  // A step moves a key's stamp back exactly when it is a verify call's touch of
  // that key with a reading earlier than the stamp.
  lemma StampFallsIff(cfg: Config, w: World, e: Event, id: string)
    requires Enabled(w, e) && id in w.store.keys && Stamp(w.store, id).Some?
    ensures var w', stamp := Apply(cfg, w, e), Stamp(w.store, id).value;
            && id in w'.store.keys && Stamp(w'.store, id).Some?
            && (Stamp(w'.store, id).value < stamp <==>
                  && e.Step? && w.calls[e.c].Verify? && w.calls[e.c].verify.Touch?
                  && w.calls[e.c].verify.key.keyId == id && e.env.touchAt < stamp)
  {
    if e.Step? {
      StampAfter(cfg, w.store, w.calls[e.c], e.env, id);
    }
  }

  lemma BothReachTouch(cfg: Config, e1: Bytes, req: VerifyRequest, k: Key) returns (es: seq<Event>, w: World)
    requires |e1| == Keymat.RANDOM_BYTES && req == VerifyRequest(Keymat.Plaintext("", e1), [], false)
    requires k == FirstKey(cfg, e1, [], -1)
    ensures RunsTo(cfg, START, es, w) && w.store == FirstStore(cfg, e1, [], -1) && {3, 4} <= w.calls.Keys
    ensures w.calls[3] == w.calls[4] == Verify(req, Touch(k, []))
  {
    var w0;
    es, w0 := Prepare(cfg, e1, [], -1);
    assert req.plaintext != "" by { Keymat.PlaintextShape("", e1); }
    es, w := LooksUp(cfg, START, es, w0, 3, IDLE, req, k);
    es, w := LooksUp(cfg, START, es, w, 4, IDLE, req, k);
    es, w := Onward(cfg, START, es, w, 3, IDLE, Local(Verify(req, Touch(k, []))));
    es, w := Onward(cfg, START, es, w, 4, IDLE, Local(Verify(req, Touch(k, []))));
  }

  // That happens: of two calls about to touch a key, the one that read the clock
  // later may write first.
  lemma StampsGoBack(cfg: Config, e1: Bytes) returns (w: World, e: Event)
    requires |e1| == Keymat.RANDOM_BYTES
    ensures Reachable(cfg, w) && Enabled(w, e) && "k" in w.store.keys && Stamp(w.store, "k") == Some(2)
    ensures "k" in Apply(cfg, w, e).store.keys && Stamp(Apply(cfg, w, e).store, "k") == Some(1)
  {
    var k, req := FirstKey(cfg, e1, [], -1), VerifyRequest(Keymat.Plaintext("", e1), [], false);
    var es;
    es, w := BothReachTouch(cfg, e1, req, k);
    es, w := Onward(cfg, START, es, w, 4, IDLE.(touchAt := 2), Writing(OpTouch("k", 2), Verify(req, Answered(Respond(k, VALID, []), 0))));
    e := Step(3, IDLE.(touchAt := 1));
    StampAfter(cfg, w.store, w.calls[3], e.env, "k");
  }
}
