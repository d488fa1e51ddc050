/**
 Building a run of the step machine one event, or one call, at a time.
 */
module Runs {
  import opened Domain
  import opened StoreSpec
  import opened Verdict
  import opened Rpc
  import opened Machine
  import opened Serializability

  ghost predicate RunsTo(cfg: Config, w0: World, es: seq<Event>, w: World) {
    Legal(cfg, w0, es) && Exec(cfg, w0, es) == w
  }

  lemma {:induction false} Then(cfg: Config, w0: World, es: seq<Event>, w: World, e: Event) returns (es': seq<Event>, w': World)
    requires RunsTo(cfg, w0, es, w) && Enabled(w, e)
    ensures w' == Apply(cfg, w, e) && RunsTo(cfg, w0, es', w')
  {
    es', w' := es + [e], Apply(cfg, w, e);
    assert es'[..|es'| - 1] == es;
  }

  lemma {:induction false} NoEvents(cfg: Config, w: World)
    ensures RunsTo(cfg, w, [], w)
  {
  }

  // A call begins and takes its one step.
  lemma {:induction false} Whole(cfg: Config, w0: World, es: seq<Event>, w: World, c: nat, call: Call, env: Env, eff: Effect)
    returns (es': seq<Event>, w': World)
    requires RunsTo(cfg, w0, es, w) && c !in w.calls && Initial(call) && FreshEnv(w.store, env) && env.entropy.None?
    requires eff == Advance(cfg, w.store, call, env) && eff.made.None? && eff.issue.None?
    ensures RunsTo(cfg, w0, es', w')
    ensures w' == w.(store := StoreAfter(w.store, eff), calls := w.calls[c := eff.call],
                     before := w.before[c := FinishedCalls(w)])
  {
    es', w' := Then(cfg, w0, es, w, Begin(c, call));
    es', w' := Then(cfg, w0, es', w', Step(c, env));
    assert w.calls[c := call][c := eff.call] == w.calls[c := eff.call];
  }

  // A call takes one more step that issues nothing.
  lemma {:induction false} Onward(cfg: Config, w0: World, es: seq<Event>, w: World, c: nat, env: Env, eff: Effect)
    returns (es': seq<Event>, w': World)
    requires RunsTo(cfg, w0, es, w) && c in w.calls && !Finished(w.calls[c]) && FreshEnv(w.store, env) && env.entropy.None?
    requires eff == Advance(cfg, w.store, w.calls[c], env) && eff.made.None? && eff.issue.None?
    ensures RunsTo(cfg, w0, es', w')
    ensures w' == w.(store := StoreAfter(w.store, eff), calls := w.calls[c := eff.call])
  {
    es', w' := Then(cfg, w0, es, w, Step(c, env));
  }

  // A verify call begins and looks its key up.
  lemma LooksUp(cfg: Config, w0: World, es: seq<Event>, w: World, c: nat, env: Env, req: VerifyRequest, k: Key)
    returns (es': seq<Event>, w': World)
    requires RunsTo(cfg, w0, es, w) && c !in w.calls && FreshEnv(w.store, env) && env.entropy.None?
    requires req.plaintext != "" && GetKeyByHash(w.store, cfg.sha(req.plaintext)) == Ok(k)
    ensures RunsTo(cfg, w0, es', w')
    ensures w' == w.(calls := w.calls[c := Verify(req, Check(k))], before := w.before[c := FinishedCalls(w)])
  {
    es', w' := Whole(cfg, w0, es, w, c, Verify(req, Lookup), env, Local(Verify(req, Check(k))));
  }

  // A verify call passes its checks without the limiter and is about to spend.
  lemma ReachesSpend(cfg: Config, w0: World, es: seq<Event>, w: World, c: nat, env: Env, req: VerifyRequest, k: Key)
    returns (es': seq<Event>, w': World)
    requires RunsTo(cfg, w0, es, w) && c in w.calls && w.calls[c] == Verify(req, Check(k))
    requires FreshEnv(w.store, env) && env.entropy.None?
    requires HasCredit(k) && !Expired(k, env.checkAt) && req.skipRatelimit && req.requiredPermissions == []
    ensures RunsTo(cfg, w0, es', w') && w' == w.(calls := w.calls[c := Verify(req, Spend(k, []))])
  {
    es', w' := Onward(cfg, w0, es, w, c, env, Local(Verify(req, Spend(k, []))));
  }

  // It finds a use left, whatever it looked up before.
  lemma SpendsOk(cfg: Config, w0: World, es: seq<Event>, w: World, c: nat, env: Env, req: VerifyRequest, k: Key)
    returns (es': seq<Event>, w': World)
    requires RunsTo(cfg, w0, es, w) && c in w.calls && w.calls[c] == Verify(req, Spend(k, []))
    requires FreshEnv(w.store, env) && env.entropy.None?
    requires k.keyId in w.store.keys && w.store.keys[k.keyId].remainingUses > 0
    ensures RunsTo(cfg, w0, es', w') && w'.before == w.before && w'.drawn == w.drawn
    ensures w'.calls == w.calls[c := Verify(req, Answered(Respond(k, VALID, []), env.checkAt))]
    ensures var now := w.store.keys[k.keyId];
            w'.store == w.store.(keys := w.store.keys[k.keyId :=
              now.(remainingUses := now.remainingUses - 1, updatedAt := env.storeAt, lastVerifiedAt := Some(env.touchAt))])
  {
    var mid := w.calls[c := Verify(req, Touch(k, []))];
    es', w' := Onward(cfg, w0, es, w, c, env, Writing(OpDecrement(k.keyId, env.storeAt), Verify(req, Touch(k, []))));
    es', w' := Onward(cfg, w0, es', w', c, env,
                      Writing(OpTouch(k.keyId, env.touchAt), Verify(req, Answered(Respond(k, VALID, []), env.checkAt))));
  }

  lemma SpendsAfterCheck(cfg: Config, w0: World, es: seq<Event>, w: World, c: nat, env: Env, req: VerifyRequest, k: Key)
    returns (es': seq<Event>, w': World)
    requires RunsTo(cfg, w0, es, w) && c in w.calls && w.calls[c] == Verify(req, Check(k))
    requires FreshEnv(w.store, env) && env.entropy.None? && k.keyId in w.store.keys && w.store.keys[k.keyId].remainingUses > 0
    requires HasCredit(k) && !Expired(k, env.checkAt) && req.skipRatelimit && req.requiredPermissions == []
    ensures RunsTo(cfg, w0, es', w') && w'.before == w.before && w'.drawn == w.drawn
    ensures w'.calls == w.calls[c := Verify(req, Answered(Respond(k, VALID, []), env.checkAt))]
    ensures var now := w.store.keys[k.keyId];
            w'.store == w.store.(keys := w.store.keys[k.keyId :=
              now.(remainingUses := now.remainingUses - 1, updatedAt := env.storeAt, lastVerifiedAt := Some(env.touchAt))])
  {
    es', w' := ReachesSpend(cfg, w0, es, w, c, env, req, k);
    es', w' := SpendsOk(cfg, w0, es', w', c, env, req, k);
  }

  // It finds none left.
  lemma SpendsTooLate(cfg: Config, w0: World, es: seq<Event>, w: World, c: nat, env: Env, req: VerifyRequest, k: Key,
                      ds: seq<LimitDecision>)
    returns (es': seq<Event>, w': World)
    requires RunsTo(cfg, w0, es, w) && c in w.calls && w.calls[c] == Verify(req, Spend(k, ds))
    requires FreshEnv(w.store, env) && env.entropy.None?
    requires k.keyId in w.store.keys && w.store.keys[k.keyId].remainingUses == 0
    ensures RunsTo(cfg, w0, es', w')
    ensures w' == w.(calls := w.calls[c := Verify(req, Answered(Respond(k, DEPLETED, ds), env.checkAt))])
  {
    es', w' := Onward(cfg, w0, es, w, c, env,
                      Writing(OpDecrement(k.keyId, env.storeAt), Verify(req, Answered(Respond(k, DEPLETED, ds), env.checkAt))));
  }
}
