/**
 Verify and revoke calls over Postgres, one SQL statement a step, look as if each
 ran at one instant: the order of the matching run over memory serves, replayed by
 the sequential server over Postgres.
 */
module PostgresLinearizability {
  import opened Domain
  import opened StoreSpec
  import opened Verdict
  import opened Rpc
  import opened Machine
  import opened Invariants
  import opened Replay
  import opened PostgresMachine
  import opened Locality
  import L = Linearizability
  import opened Serializability
  import DriverEquivalence
  import P = Postgres
  import Safety

  // ------------------------------------------------------------------
  // Replaying over Postgres
  // ------------------------------------------------------------------

  function PgRequestOf(call: PgCall): Request {
    match call
    case Between(call) => RequestOf(call)
    case SpendRead(req, _, _, _) => VerifyKey(req)
    case CommitRead(id, _) => RotateKey(id)
  }

  function PgRequests(p: PgWorld): map<nat, Request> {
    map c | c in p.calls :: PgRequestOf(p.calls[c])
  }

  ghost function PgSerial(cfg: Config, t: P.Table, reqs: map<nat, Request>, envs: nat -> Env, order: seq<nat>): P.Table
    requires forall c <- order :: c in reqs
  {
    if order == [] then t
    else
      var front, c := order[..|order| - 1], order[|order| - 1];
      Serve(DriverEquivalence.PostgresDriver(), cfg, PgSerial(cfg, t, reqs, envs, front), reqs[c], envs(c)).0
  }

  // The reply the sequential server over Postgres gives to the call in position i.
  ghost function PgSerialReply(cfg: Config, t: P.Table, reqs: map<nat, Request>, envs: nat -> Env, order: seq<nat>, i: nat): Reply
    requires i < |order| && forall c <- order :: c in reqs
  {
    assert forall c <- order[..i] :: c in order;
    Serve(DriverEquivalence.PostgresDriver(), cfg, PgSerial(cfg, t, reqs, envs, order[..i]), reqs[order[i]], envs(order[i])).1
  }

  // Run alone over matched tables, a verify or a revoke gives the same reply and
  // keeps the tables matched.
  ghost predicate ServedAlike(a: (P.Table, Reply), b: (State, Reply)) {
    SameTables(a.0, b.0) && IndexAgrees(b.0) && a.1 == b.1
  }

  lemma DecrementErrors(t: P.Table, s: State, id: string, now: Time)
    requires SameTables(t, s)
    ensures P.Decrement(t, id, now).1.error == StoreSpec.Decrement(s, id, now).1.error
  {
    if id in s.keys {
      assert SameKey(t.rows[id], s.keys[id]);
    }
  }

  lemma MemorySettles(s: State, k: Key, ds: seq<LimitDecision>, env: Env, s': State, error: Option<StoreError>)
    requires var (after, r) := StoreSpec.Decrement(s, k.keyId, env.storeAt);
             if k.remainingUses > 0 then s' == after && error == r.error else s' == s && error.None?
    ensures Settle(MemoryDriver(), s, k, ds, env) ==
              (if error.None? then TouchLastVerified(s', k.keyId, env.touchAt).0 else s', SettledAs(k, ds, error))
  {
    SettleCases(MemoryDriver(), s, k, ds, env, s', error);
  }

  lemma PostgresSettles(t: P.Table, k: Key, ds: seq<LimitDecision>, env: Env, t': P.Table, error: Option<StoreError>)
    requires var (after, r) := P.Decrement(t, k.keyId, env.storeAt);
             if k.remainingUses > 0 then t' == after && error == r.error else t' == t && error.None?
    ensures Settle(DriverEquivalence.PostgresDriver(), t, k, ds, env) ==
              (if error.None? then P.TouchLastVerified(t', k.keyId, env.touchAt).0 else t', SettledAs(k, ds, error))
  {
    SettleCases(DriverEquivalence.PostgresDriver(), t, k, ds, env, t', error);
  }

  lemma SpentKeepsIndex(s: State, id: string, now: Time)
    requires IndexAgrees(s)
    ensures IndexAgrees(StoreSpec.Decrement(s, id, now).0)
  {
    OtherKeepsIndex(s, OpDecrement(id, now));
  }

  lemma TouchedKeepsIndex(s: State, id: string, at: Time)
    requires IndexAgrees(s)
    ensures IndexAgrees(TouchLastVerified(s, id, at).0)
  {
    OtherKeepsIndex(s, OpTouch(id, at));
  }

  lemma SpentAlike(t: P.Table, s: State, id: string, now: Time)
    requires SameTables(t, s)
    ensures SameTables(P.Decrement(t, id, now).0, StoreSpec.Decrement(s, id, now).0)
  {
    DecrementMatches(t, s, id, now);
    assert P.Decrement(t, id, now).0 == P.UpdateDecrement(t, id, now).0;
  }

  lemma TouchedAlike(t: P.Table, s: State, id: string, at: Time)
    requires SameTables(t, s)
    ensures SameTables(P.TouchLastVerified(t, id, at).0, TouchLastVerified(s, id, at).0)
  {
    TouchMatches(t, s, id, at);
  }

  ghost predicate SettledAlike(a: (P.Table, VerifyOutcome), b: (State, VerifyOutcome)) {
    SameTables(a.0, b.0) && IndexAgrees(b.0) && a.1 == b.1
  }

  lemma SettleAlikeFrom(t: P.Table, s: State, id: string, at: Time, error: Option<StoreError>, o: VerifyOutcome)
    requires SameTables(t, s) && IndexAgrees(s)
    ensures SettledAlike((if error.None? then P.TouchLastVerified(t, id, at).0 else t, o),
                         (if error.None? then TouchLastVerified(s, id, at).0 else s, o))
  {
    TouchedAlike(t, s, id, at);
    TouchedKeepsIndex(s, id, at);
  }

  lemma SettleAlike(t: P.Table, s: State, k: Key, k': Key, ds: seq<LimitDecision>, env: Env)
    requires SameTables(t, s) && IndexAgrees(s) && SameKey(k, k')
    ensures SettledAlike(Settle(DriverEquivalence.PostgresDriver(), t, k, ds, env), Settle(MemoryDriver(), s, k', ds, env))
  {
    if k.remainingUses > 0 {
      var t', s' := P.Decrement(t, k.keyId, env.storeAt).0, StoreSpec.Decrement(s, k.keyId, env.storeAt).0;
      var error := StoreSpec.Decrement(s, k.keyId, env.storeAt).1.error;
      SpentAlike(t, s, k.keyId, env.storeAt);
      SpentKeepsIndex(s, k.keyId, env.storeAt);
      DecrementErrors(t, s, k.keyId, env.storeAt);
      PostgresSettles(t, k, ds, env, t', error);
      MemorySettles(s, k', ds, env, s', error);
      SettleAlikeFrom(t', s', k.keyId, env.touchAt, error, SettledAs(k, ds, error));
    } else {
      PostgresSettles(t, k, ds, env, t, None);
      MemorySettles(s, k', ds, env, s, None);
      SettleAlikeFrom(t, s, k.keyId, env.touchAt, None, SettledAs(k, ds, None));
    }
  }

  lemma FoundAlike(cfg: Config, t: P.Table, s: State, req: VerifyRequest, env: Env, k: Key, k': Key)
    requires SameTables(t, s) && IndexAgrees(s) && SameKey(k, k') && req.plaintext != ""
    requires P.SelectByHash(t, cfg.sha(req.plaintext)) == Ok(k) && GetKeyByHash(s, cfg.sha(req.plaintext)) == Ok(k')
    ensures SettledAlike(ServeVerify(DriverEquivalence.PostgresDriver(), cfg, t, req, env),
                         ServeVerify(MemoryDriver(), cfg, s, req, env))
  {
    VerifyFinds(DriverEquivalence.PostgresDriver(), cfg, t, req, env, k);
    VerifyFinds(MemoryDriver(), cfg, s, req, env, k');
    DriverEquivalence.ScreenAgrees(cfg.limiter, k, k', req, env);
    var screen := Screen(cfg.limiter, k, req, env.checkAt, env.answer);
    if screen.Proceed? {
      SettleAlike(t, s, k, k', screen.decisions, env);
    }
  }

  lemma VerifyAlike(cfg: Config, t: P.Table, s: State, req: VerifyRequest, env: Env)
    requires SameTables(t, s) && IndexAgrees(s)
    ensures ServedAlike(Serve(DriverEquivalence.PostgresDriver(), cfg, t, VerifyKey(req), env),
                        Serve(MemoryDriver(), cfg, s, VerifyKey(req), env))
  {
    LookupMatches(t, s, cfg.sha(req.plaintext));
    var found := GetKeyByHash(s, cfg.sha(req.plaintext));
    if req.plaintext == "" || found.Err? {
      VerifyFindsNone(DriverEquivalence.PostgresDriver(), cfg, t, req, env);
      VerifyFindsNone(MemoryDriver(), cfg, s, req, env);
    } else {
      assert SameKey(t.rows[found.value.keyId], found.value);
      FoundAlike(cfg, t, s, req, env, t.rows[found.value.keyId], found.value);
    }
  }

  lemma RevokedAlike(t: P.Table, s: State, id: string, now: Time)
    requires SameTables(t, s)
    ensures SameTables(P.RevokeKey(t, id, now).0, StoreSpec.RevokeKey(s, id, now).0)
    ensures P.RevokeKey(t, id, now).1 == StoreSpec.RevokeKey(s, id, now).1
  {
    RevokeMatches(t, s, id, now);
  }

  lemma RevokedKeepsIndex(s: State, id: string, now: Time)
    requires IndexAgrees(s)
    ensures IndexAgrees(StoreSpec.RevokeKey(s, id, now).0)
  {
    OtherKeepsIndex(s, OpRevoke(id, now));
  }

  lemma RevokeAlike(cfg: Config, t: P.Table, s: State, id: string, env: Env)
    requires SameTables(t, s) && IndexAgrees(s)
    ensures ServedAlike(Serve(DriverEquivalence.PostgresDriver(), cfg, t, RevokeKey(id), env),
                        Serve(MemoryDriver(), cfg, s, RevokeKey(id), env))
  {
    if id != "" {
      RevokeServed(DriverEquivalence.PostgresDriver(), cfg, t, RevokeKey(id), env);
      RevokeServed(MemoryDriver(), cfg, s, RevokeKey(id), env);
      RevokedAlike(t, s, id, env.storeAt);
      RevokedKeepsIndex(s, id, env.storeAt);
    }
  }

  lemma {:induction false} SerialAlike(x: Setting, t: P.Table, reqs: map<nat, Request>, order: seq<nat>)
    requires SameTables(t, x.w0.store) && IndexAgrees(x.w0.store)
    requires Asked(reqs, order)
    ensures SameTables(PgSerial(x.cfg, t, reqs, x.envs, order), Serial(x, reqs, order)) && IndexAgrees(Serial(x, reqs, order))
  {
    if order != [] {
      var front, c := order[..|order| - 1], order[|order| - 1];
      assert forall d <- front :: d in order;
      SerialAlike(x, t, reqs, front);
      ServeAlike(x.cfg, PgSerial(x.cfg, t, reqs, x.envs, front), Serial(x, reqs, front), reqs[c], x.envs(c));
    }
  }

  lemma ServeAlike(cfg: Config, t: P.Table, s: State, req: Request, env: Env)
    requires SameTables(t, s) && IndexAgrees(s) && VerifyOrRevoke(req)
    ensures ServedAlike(Serve(DriverEquivalence.PostgresDriver(), cfg, t, req, env), Serve(MemoryDriver(), cfg, s, req, env))
  {
    if req.VerifyKey? {
      VerifyAlike(cfg, t, s, req.verify, env);
    } else {
      RevokeAlike(cfg, t, s, req.keyId, env);
    }
  }

  lemma {:induction false} ReplyAlike(x: Setting, t: P.Table, reqs: map<nat, Request>, order: seq<nat>, i: nat)
    requires SameTables(t, x.w0.store) && IndexAgrees(x.w0.store) && i < |order|
    requires Asked(reqs, order)
    ensures PgSerialReply(x.cfg, t, reqs, x.envs, order, i) == SerialReply(x, reqs, order, i)
  {
    assert forall c <- order[..i] :: c in order;
    SerialAlike(x, t, reqs, order[..i]);
    ServeAlike(x.cfg, PgSerial(x.cfg, t, reqs, x.envs, order[..i]), Serial(x, reqs, order[..i]), reqs[order[i]], x.envs(order[i]));
  }

  // ------------------------------------------------------------------
  // Readings
  // ------------------------------------------------------------------

  predicate PgReadsAt(p: PgWorld, envs: nat -> Env, e: Event) {
    e.Step? ==> e.c in p.calls && (p.calls[e.c].Between? ==> Reads(p.calls[e.c].call, e.env, envs(e.c)))
  }

  // In the run every call reads what envs gives it; second statements read no
  // more.
  ghost predicate PgReadsRun(cfg: Config, p: PgWorld, envs: nat -> Env, ps: seq<Event>)
    requires PgLegal(cfg, p, ps)
  {
    ps == [] ||
    (PgReadsRun(cfg, p, envs, ps[..|ps| - 1]) && PgReadsAt(PgExec(cfg, p, ps[..|ps| - 1]), envs, ps[|ps| - 1]))
  }

  lemma ReadsSame(x: Setting, p: PgWorld, w: World, e: Event)
    requires Match(p, w) && PgEnabled(p, e) && (ReadsAgain(p, e) || ReadsAt(x, w, e))
    ensures PgReadsAt(p, x.envs, e)
  {
    if e.Step? {
      assert SameCall(p.table, p.calls[e.c], w.calls[e.c]);
    }
  }

  lemma {:induction false} RunReadsSame(x: Setting, p: PgWorld, ps: seq<Event>)
    requires Match(p, x.w0) && CallsOk(x.cfg, x.w0) && PgLegal(x.cfg, p, ps)
    requires Legal(x.cfg, x.w0, InMemory(x.cfg, p, ps)) && ReadsRun(x, InMemory(x.cfg, p, ps))
    ensures PgReadsRun(x.cfg, p, x.envs, ps)
  {
    if ps != [] {
      var front, e := ps[..|ps| - 1], ps[|ps| - 1];
      var es, mp := InMemory(x.cfg, p, front), PgExec(x.cfg, p, front);
      RunMatches(x.cfg, p, x.w0, front);
      if ReadsAgain(mp, e) {
        assert InMemory(x.cfg, p, ps) == es;
      } else {
        assert InMemory(x.cfg, p, ps) == es + [e] && (es + [e])[..|es + [e]| - 1] == es;
      }
      ReadsSame(x, mp, Exec(x.cfg, x.w0, es), e);
      RunReadsSame(x, p, front);
    }
  }

  // ------------------------------------------------------------------
  // The order
  // ------------------------------------------------------------------

  predicate PgMayPrecede(p: PgWorld, c: nat, d: nat) {
    c in p.before && d !in p.before[c]
  }

  // The reply in position i is the replayed one, unless it was depleted late.
  ghost predicate PgAnswers(cfg: Config, t: P.Table, p: PgWorld, envs: nat -> Env, order: seq<nat>, i: nat) {
    && i < |order| && (forall c <- order :: c in p.calls) && PgFinished(p.calls[order[i]])
    && var given, replayed := Given(p.calls[order[i]].call), PgSerialReply(cfg, t, PgRequests(p), envs, order, i);
       replayed == Plain(given) && (replayed == given <==> !DepletedLate(given))
  }

  predicate PgStatus(t: P.Table, id: string, enabled: bool, uses: int) {
    id in t.rows && t.rows[id].enabled == enabled && t.rows[id].remainingUses == uses
  }

  // `order` lists the calls begun since p0, each once; no call comes before one
  // that had finished when it began; run alone in that order by the sequential
  // server over Postgres, each gets the reply it got; and every key ends with the
  // uses and the enablement it ended with in the run.
  ghost predicate PgLinearizes(cfg: Config, p0: PgWorld, p: PgWorld, envs: nat -> Env, order: seq<nat>) {
    && (forall c :: c in order <==> c in p.calls && c !in p0.calls) && Distinct(order)
    && (forall i, j :: 0 <= i < j < |order| ==> PgMayPrecede(p, order[i], order[j]))
    && (forall i :: 0 <= i < |order| ==> PgAnswers(cfg, p0.table, p, envs, order, i))
    && (forall id <- p.table.rows ::
          PgStatus(PgSerial(cfg, p0.table, PgRequests(p), envs, order), id, p.table.rows[id].enabled, p.table.rows[id].remainingUses))
  }

  lemma RequestsSame(p: PgWorld, w: World)
    requires Match(p, w)
    ensures PgRequests(p) == Requests(w)
  {
    forall c | c in p.calls ensures PgRequestOf(p.calls[c]) == RequestOf(w.calls[c]) {
      assert SameCall(p.table, p.calls[c], w.calls[c]);
    }
  }

  lemma AnswersSame(x: Setting, p0: PgWorld, p: PgWorld, w: World, order: seq<nat>, i: nat)
    requires SameTables(p0.table, x.w0.store) && IndexAgrees(x.w0.store) && Match(p, w) && L.RepliesMatch(x, w, order, i)
    requires PgFinished(p.calls[order[i]]) && Asked(Requests(w), order)
    ensures PgAnswers(x.cfg, p0.table, p, x.envs, order, i)
  {
    RequestsSame(p, w);
    ReplyAlike(x, p0.table, Requests(w), order, i);
    assert SameCall(p.table, p.calls[order[i]], w.calls[order[i]]);
  }

  lemma OrderAsked(x: Setting, w: World, order: seq<nat>)
    requires LinearizesAll(x, w, order)
    ensures Asked(Requests(w), order)
  {
    forall c | c in order ensures c in w.calls && VerifyOrRevoke(Requests(w)[c]) {
      var i :| 0 <= i < |order| && order[i] == c;
      assert L.RepliesMatch(x, w, order, i);
    }
  }

  lemma StatusSame(x: Setting, p0: PgWorld, p: PgWorld, w: World, order: seq<nat>, id: string)
    requires SameTables(p0.table, x.w0.store) && IndexAgrees(x.w0.store) && Match(p, w) && Asked(Requests(w), order)
    requires id in p.table.rows && L.Status(Serial(x, Requests(w), order), id, w.store.keys[id].enabled, w.store.keys[id].remainingUses)
    ensures (forall c <- order :: c in PgRequests(p))
    ensures PgStatus(PgSerial(x.cfg, p0.table, PgRequests(p), x.envs, order), id, p.table.rows[id].enabled, p.table.rows[id].remainingUses)
  {
    RequestsSame(p, w);
    SerialAlike(x, p0.table, Requests(w), order);
    assert SameKey(p.table.rows[id], w.store.keys[id]);
    var t, s := PgSerial(x.cfg, p0.table, PgRequests(p), x.envs, order), Serial(x, Requests(w), order);
    assert SameKey(t.rows[id], s.keys[id]);
  }

  lemma InTimeSame(p: PgWorld, w: World, order: seq<nat>)
    requires SameBefore(p, w) && InOrder(w, order)
    ensures forall i, j :: 0 <= i < j < |order| ==> PgMayPrecede(p, order[i], order[j])
  {
    forall i, j | 0 <= i < j < |order| ensures PgMayPrecede(p, order[i], order[j]) {
      assert MayPrecede(w, order[i], order[j]);
    }
  }

  lemma OrderCarriesOver(x: Setting, p0: PgWorld, p: PgWorld, w: World, order: seq<nat>)
    requires Match(p0, x.w0) && IndexAgrees(x.w0.store) && Match(p, w) && LinearizesAll(x, w, order)
    requires forall c <- p.calls :: PgFinished(p.calls[c])
    ensures PgLinearizes(x.cfg, p0, p, x.envs, order)
  {
    OrderAsked(x, w, order);
    InTimeSame(p, w, order);
    forall i | 0 <= i < |order| ensures PgAnswers(x.cfg, p0.table, p, x.envs, order, i) {
      assert order[i] in order && L.RepliesMatch(x, w, order, i);
      AnswersSame(x, p0, p, w, order, i);
    }
    forall id | id in p.table.rows
      ensures PgStatus(PgSerial(x.cfg, p0.table, PgRequests(p), x.envs, order), id, p.table.rows[id].enabled, p.table.rows[id].remainingUses)
    {
      StatusSame(x, p0, p, w, order, id);
    }
  }

  lemma AllFinished(p: PgWorld, w: World)
    requires Match(p, w) && forall c <- p.calls :: PgFinished(p.calls[c])
    ensures forall c <- w.calls :: Finished(w.calls[c])
  {
    forall c | c in w.calls ensures Finished(w.calls[c]) {
      assert SameCall(p.table, p.calls[c], w.calls[c]) && PgFinished(p.calls[c]);
    }
  }

  // For every complete run of verify and revoke calls over Postgres, statements
  // interleaved freely, begun when nothing was in flight, some sequential order of
  // atomic calls respects real time and gives every call the reply it got, with
  // the readings it took, and every key the uses and enablement it ended with.
  lemma {:induction false} PgAllKeysLinearizable(cfg: Config, p: PgWorld, ps: seq<Event>)
    requires PgReachable(cfg, p) && PgLegal(cfg, p, ps) && forall c <- p.calls :: PgFinished(p.calls[c])
    requires forall e <- ps :: e.Begin? ==> VerifyOrRevoke(RequestOf(e.call))
    requires forall c <- PgExec(cfg, p, ps).calls :: PgFinished(PgExec(cfg, p, ps).calls[c])
    ensures exists envs, order :: PgReadsRun(cfg, p, envs, ps) && PgLinearizes(cfg, p, PgExec(cfg, p, ps), envs, order)
  {
    var w0 := ReachableMatches(cfg, p);
    var es := InMemory(cfg, p, ps);
    Safety.ReachableCalls(cfg, w0);
    RunMatches(cfg, p, w0, ps);
    AllFinished(p, w0);
    AllFinished(PgExec(cfg, p, ps), Exec(cfg, w0, es));
    var x := Setting(cfg, w0, "", (c: nat) => Env(0, 0, 0, "", None, ConsumeFailed));
    AllKeysLinearizable(x, es);
    var y: Setting, order :| y == x.(envs := y.envs) && ReadsRun(y, es) && LinearizesAll(y, Exec(cfg, w0, es), order);
    RunReadsSame(y, p, ps);
    OrderCarriesOver(y, p, PgExec(cfg, p, ps), Exec(cfg, w0, es), order);
  }
}
