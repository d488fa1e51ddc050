/**
 What holds of every run over memory holds of every run over Postgres, one SQL
 statement a step.
 */
module PostgresSafety {
  import opened Domain
  import opened StoreSpec
  import opened Verdict
  import opened Rpc
  import opened Machine
  import opened Invariants
  import opened Outcomes
  import opened Contracts
  import opened Safety
  import opened PostgresMachine
  import DriverEquivalence
  import P = Postgres

  // ------------------------------------------------------------------
  // Credit
  // ------------------------------------------------------------------

  predicate PgSpentOn(call: PgCall, id: string) {
    call.Between? && SpentOn(call.call, id)
  }

  predicate PgValidOn(call: PgCall, id: string) {
    call.Between? && ValidOn(call.call, id)
  }

  ghost function PgSpenders(p: PgWorld, id: string): set<nat> {
    set c | c in p.calls && PgSpentOn(p.calls[c], id)
  }

  ghost function PgValidCalls(p: PgWorld, id: string): set<nat> {
    set c | c in p.calls && PgValidOn(p.calls[c], id)
  }

  lemma SameSpenders(p: PgWorld, w: World, id: string)
    requires Match(p, w)
    ensures PgSpenders(p, id) == Spenders(w.calls, id) && PgValidCalls(p, id) == ValidCalls(w, id)
  {
    forall c | c in p.calls
      ensures PgSpentOn(p.calls[c], id) == SpentOn(w.calls[c], id) && PgValidOn(p.calls[c], id) == ValidOn(w.calls[c], id)
    {
      assert SameCall(p.table, p.calls[c], w.calls[c]);
    }
  }

  // Credit is conserved statement by statement: uses left plus calls past their
  // decrement are what the key was created with, and at most that many calls are
  // told VALID.
  lemma PgCreditConserved(cfg: Config, p: PgWorld, id: string)
    requires PgReachable(cfg, p) && id in p.table.rows
    ensures id in p.minted && (p.minted[id] == -1 || p.minted[id] > 0)
    ensures p.minted[id] == -1 ==> p.table.rows[id].remainingUses == -1
    ensures p.minted[id] > 0 ==>
              && p.table.rows[id].remainingUses >= 0
              && p.table.rows[id].remainingUses + |PgSpenders(p, id)| == p.minted[id]
              && |PgValidCalls(p, id)| <= p.minted[id]
  {
    var w := ReachableMatches(cfg, p);
    assert SameKey(p.table.rows[id], w.store.keys[id]);
    CreditConserved(cfg, w, id);
    SameSpenders(p, w, id);
  }

  predicate PgDepletedOn(call: PgCall, id: string) {
    call.Between? && DepletedOn(call.call, id)
  }

  ghost function PgDepletedCalls(p: PgWorld, id: string): set<nat> {
    set c | c in p.calls && PgDepletedOn(p.calls[c], id)
  }

  // No verify call holds a snapshot of this key.
  predicate PgElsewhere(call: PgCall, id: string) {
    (call.Between? ==> Elsewhere(call.call, id)) && (call.SpendRead? ==> call.key.keyId != id)
  }

  ghost predicate PgNoneInFlight(p: PgWorld, id: string) {
    forall c <- p.calls :: PgElsewhere(p.calls[c], id)
  }

  lemma SameElsewhere(t: P.Table, a: PgCall, b: Call, id: string)
    requires SameCall(t, a, b) && PgElsewhere(a, id)
    ensures Elsewhere(b, id) && DepletedOn(b, id) == PgDepletedOn(a, id)
  {
  }

  // Once every call that looked this key up has answered, of the m calls told
  // VALID or DEPLETED exactly min(N, m) were VALID.
  lemma PgExactlyMinValid(cfg: Config, p: PgWorld, id: string)
    requires PgReachable(cfg, p) && id in p.table.rows && id in p.minted && p.minted[id] > 0
    requires PgNoneInFlight(p, id)
    ensures var n, valid, m := p.minted[id], |PgValidCalls(p, id)|, |PgValidCalls(p, id) + PgDepletedCalls(p, id)|;
            valid == if n < m then n else m
  {
    var w := ReachableMatches(cfg, p);
    SameSpenders(p, w, id);
    forall c | c in p.calls
      ensures Elsewhere(w.calls[c], id) && DepletedOn(w.calls[c], id) == PgDepletedOn(p.calls[c], id)
    {
      SameElsewhere(p.table, p.calls[c], w.calls[c], id);
    }
    assert PgDepletedCalls(p, id) == DepletedCalls(w, id);
    ExactlyMinValid(cfg, w, id);
  }

  lemma SomeValid(p: PgWorld, w: World, id: string)
    requires PgValidCalls(p, id) == ValidCalls(w, id)
    ensures (exists c :: c in p.calls && PgValidOn(p.calls[c], id)) <==> (exists c :: c in w.calls && ValidOn(w.calls[c], id))
  {
    if c :| c in p.calls && PgValidOn(p.calls[c], id) {
      assert c in PgValidCalls(p, id);
      assert c in w.calls && ValidOn(w.calls[c], id);
    }
    if c :| c in w.calls && ValidOn(w.calls[c], id) {
      assert c in ValidCalls(w, id);
      assert c in p.calls && PgValidOn(p.calls[c], id);
    }
  }

  // A key carries a last-verified stamp exactly when some verify call has been
  // told VALID for it.
  lemma PgStampedIffVerified(cfg: Config, p: PgWorld, id: string)
    requires PgReachable(cfg, p) && id in p.table.rows
    ensures p.table.rows[id].lastVerifiedAt.Some? <==> exists c :: c in p.calls && PgValidOn(p.calls[c], id)
  {
    var w := ReachableMatches(cfg, p);
    assert SameKey(p.table.rows[id], w.store.keys[id]);
    StampedIffVerified(cfg, w, id);
    SameSpenders(p, w, id);
    SomeValid(p, w, id);
  }

  // ------------------------------------------------------------------
  // Terminal verdicts
  // ------------------------------------------------------------------

  predicate PgTerminal(call: PgCall, id: string, ps: seq<Event>) {
    call.Between? && Terminal(call.call, id, ps)
  }

  // A terminal verdict, or a completed revoke, bars the key for every call that
  // begins later.
  lemma {:induction false} PgTerminalVerdictsAbsorb(cfg: Config, p: PgWorld, ps: seq<Event>, c: nat, id: string)
    requires PgReachable(cfg, p) && PgLegal(cfg, p, ps) && c in p.calls && PgTerminal(p.calls[c], id, ps)
    ensures forall d <- PgExec(cfg, p, ps).calls :: d !in p.calls ==> !PgValidOn(PgExec(cfg, p, ps).calls[d], id)
  {
    var w := ReachableMatches(cfg, p);
    ReachableCalls(cfg, w);
    RunMatches(cfg, p, w, ps);
    var es := InMemory(cfg, p, ps);
    assert SameCall(p.table, p.calls[c], w.calls[c]);
    TerminalVerdictsAbsorb(cfg, w, es, c, id);
    var p', w' := PgExec(cfg, p, ps), Exec(cfg, w, es);
    forall d | d in p'.calls && d !in p.calls ensures !PgValidOn(p'.calls[d], id) {
      assert SameCall(p'.table, p'.calls[d], w'.calls[d]);
    }
  }

  // ------------------------------------------------------------------
  // Plaintexts
  // ------------------------------------------------------------------

  // Of all the plaintexts ever issued for a key, exactly the last one finds a
  // row by its hash, and that row is the key's.
  lemma PgOneLivePlaintext(cfg: Config, p: PgWorld, i: nat)
    requires PgReachable(cfg, p) && i < |p.issued|
    requires InjectiveOn(cfg.sha, Plaintexts(p.issued))
    ensures var issue := p.issued[i];
            && issue.keyId in p.table.rows
            && P.SelectByHash(p.table, cfg.sha(issue.plaintext)) ==
                 if Superseded(p.issued, i) then Err(NotFound) else Ok(p.table.rows[issue.keyId])
  {
    var w := ReachableMatches(cfg, p);
    OneLivePlaintext(cfg, w, i);
    ReachableCalls(cfg, w);
    assert w.store.keys[p.issued[i].keyId].keyId == p.issued[i].keyId;
    LookupMatches(p.table, w.store, cfg.sha(p.issued[i].plaintext));
  }

  predicate PgFindsNothing(call: PgCall, plaintext: string) {
    (call.Between? ==> FindsNothing(call.call, plaintext)) && (call.SpendRead? ==> call.req.plaintext != plaintext)
  }

  lemma SameFindsNothing(t: P.Table, a: PgCall, b: Call, plaintext: string)
    requires SameCall(t, a, b) && FindsNothing(b, plaintext)
    ensures PgFindsNothing(a, plaintext)
  {
  }

  // Once a later plaintext has been issued for its key, a plaintext is told
  // NOT_FOUND by every verify call that begins from then on.
  lemma {:induction false} PgSupersededNotFound(cfg: Config, p: PgWorld, ps: seq<Event>, i: nat)
    requires PgReachable(cfg, p) && PgLegal(cfg, p, ps) && i < |p.issued| && Superseded(p.issued, i)
    requires InjectiveOn(cfg.sha, Plaintexts(PgExec(cfg, p, ps).issued))
    ensures forall c <- PgExec(cfg, p, ps).calls :: c !in p.calls ==>
              PgFindsNothing(PgExec(cfg, p, ps).calls[c], p.issued[i].plaintext)
  {
    var w := ReachableMatches(cfg, p);
    ReachableCalls(cfg, w);
    RunMatches(cfg, p, w, ps);
    SupersededNotFound(cfg, w, InMemory(cfg, p, ps), i);
    var p', w' := PgExec(cfg, p, ps), Exec(cfg, w, InMemory(cfg, p, ps));
    forall c | c in p'.calls && c !in p.calls ensures PgFindsNothing(p'.calls[c], p.issued[i].plaintext) {
      SameFindsNothing(p'.table, p'.calls[c], w'.calls[c], p.issued[i].plaintext);
    }
  }

  // ------------------------------------------------------------------
  // Rejections
  // ------------------------------------------------------------------

  predicate PgRejected(call: PgCall) {
    call.Between? && Rejected(call.call)
  }

  predicate PgCommitted(call: PgCall) {
    (call.Between? && Committed(call.call)) || call.CommitRead?
  }

  lemma SameCommitted(t: P.Table, a: PgCall, b: Call)
    requires SameCall(t, a, b)
    ensures (PgCommitted(a) ==> Committed(b)) && (PgRejected(a) ==> Rejected(b))
  {
  }

  lemma StatementCommits(cfg: Config, t: P.Table, call: Call, env: Env)
    requires !Finished(call) && !TwoStatements(call)
    ensures var eff := StepOver(DriverEquivalence.PostgresDriver(), cfg, t, call, env);
            eff.op.Some? && P.Exec(t, eff.op.value) != t ==> Committed(eff.call)
  {
  }

  // A step that writes the tables commits its call, though a repeated revoke
  // writes nothing in memory.
  lemma PgWritesCommit(cfg: Config, p: PgWorld, c: nat, env: Env)
    requires PgEnabled(p, Step(c, env))
    ensures var p' := PgApply(cfg, p, Step(c, env)); p'.table != p.table ==> p.calls[c].Between? && PgCommitted(p'.calls[c])
  {
    if p.calls[c].Between? && !TwoStatements(p.calls[c].call) {
      StatementCommits(cfg, p.table, p.calls[c].call, env);
    }
  }

  // A step by call c that changes the tables is never followed, however the run
  // goes on, by a rejection of c.
  lemma {:induction false} PgRejectionsWriteNothing(cfg: Config, p: PgWorld, c: nat, env: Env, ps: seq<Event>)
    requires PgReachable(cfg, p) && PgEnabled(p, Step(c, env))
    requires var p1 := PgApply(cfg, p, Step(c, env));
             PgLegal(cfg, p1, ps) && c in PgExec(cfg, p1, ps).calls && PgRejected(PgExec(cfg, p1, ps).calls[c])
    ensures PgApply(cfg, p, Step(c, env)).table == p.table
  {
    var p1 := PgApply(cfg, p, Step(c, env));
    PgWritesCommit(cfg, p, c, env);
    if p1.table != p.table {
      var w := ReachableMatches(cfg, p);
      ReachableCalls(cfg, w);
      EventMatches(cfg, p, w, Step(c, env));
      ApplyKeepsCalls(cfg, w, Step(c, env));
      StaysCommitted(cfg, p1, Apply(cfg, w, Step(c, env)), c, ps);
    }
  }

  lemma {:induction false} StaysCommitted(cfg: Config, p: PgWorld, w: World, c: nat, ps: seq<Event>)
    requires Match(p, w) && CallsOk(cfg, w) && c in p.calls && PgCommitted(p.calls[c]) && PgLegal(cfg, p, ps)
    ensures c in PgExec(cfg, p, ps).calls ==> !PgRejected(PgExec(cfg, p, ps).calls[c])
  {
    var es := InMemory(cfg, p, ps);
    RunMatches(cfg, p, w, ps);
    SameCommitted(p.table, p.calls[c], w.calls[c]);
    CommittedForGood(cfg, w, es, c);
    var p', w' := PgExec(cfg, p, ps), Exec(cfg, w, es);
    if c in p'.calls {
      SameCommitted(p'.table, p'.calls[c], w'.calls[c]);
    }
  }

  // ------------------------------------------------------------------
  // Tenants and the rate limiter
  // ------------------------------------------------------------------

  // In every reachable state hashes are unique, rows are kept under their own
  // identifiers, and key, API and workspace agree.
  lemma PgTenantsConsistent(cfg: Config, p: PgWorld)
    requires PgReachable(cfg, p)
    ensures P.UniqueHashes(p.table) && P.KeyedRows(p.table) && Tenancy(P.AsState(p.table))
  {
    var w := ReachableMatches(cfg, p);
    ReachableCalls(cfg, w);
    forall id | id in p.table.rows ensures SameKey(p.table.rows[id], w.store.keys[id]) {
    }
  }

  // ------------------------------------------------------------------
  // What calls are told
  // ------------------------------------------------------------------

  lemma RunOf(cfg: Config, ps: seq<Event>)
    requires PgLegal(cfg, PG_START, ps)
    ensures var es := InMemory(cfg, PG_START, ps);
            && Legal(cfg, START, es) && Match(PgExec(cfg, PG_START, ps), Exec(cfg, START, es))
            && (forall e <- es :: e in ps)
  {
    StartOk(cfg);
    RunMatches(cfg, PG_START, START, ps);
  }

  predicate SoJudged(limiter: Limiter, t: P.Table, c: nat, req: VerifyRequest, o: VerifyOutcome, k: Key, e: Event) {
    && e.Step? && e.c == c && Judged(limiter, k, req, e.env.checkAt, o)
    && k.keyId in t.rows && KeyEvolves(k, t.rows[k.keyId])
  }

  lemma RowJudged(t: P.Table, s: State, k: Key)
    requires SameTables(t, s) && Snapshot(s, k)
    ensures k.keyId in t.rows && KeyEvolves(k, t.rows[k.keyId])
  {
    assert SameKey(t.rows[k.keyId], s.keys[k.keyId]);
  }

  // In every run over Postgres a verify call that was told anything but NOT_FOUND
  // was told what was true of an earlier state of its row, at the clock reading of
  // one of its own steps.
  lemma {:induction false} PgVerdictsAreJudged(cfg: Config, ps: seq<Event>, c: nat)
    requires PgLegal(cfg, PG_START, ps) && c in PgExec(cfg, PG_START, ps).calls
    requires var call := PgExec(cfg, PG_START, ps).calls[c]; call.Between? && call.call.Verify? && call.call.verify.Answered?
    ensures var p := PgExec(cfg, PG_START, ps);
            var req, o := p.calls[c].call.req, p.calls[c].call.verify.outcome;
            o == Replied(VerifyResponse(false, NOT_FOUND, "", "", "", "", [], [])) ||
            exists k, e :: e in ps && SoJudged(cfg.limiter, p.table, c, req, o, k, e)
  {
    RunOf(cfg, ps);
    var es := InMemory(cfg, PG_START, ps);
    var p, w := PgExec(cfg, PG_START, ps), Exec(cfg, START, es);
    assert SameCall(p.table, p.calls[c], w.calls[c]);
    var req, o := w.calls[c].req, w.calls[c].verify.outcome;
    VerdictsAreJudged(cfg, es, c);
    if o != Replied(VerifyResponse(false, NOT_FOUND, "", "", "", "", [], [])) {
      var k, at :| Checked(cfg, es, c, req, k, at) && Judged(cfg.limiter, k, req, at, o) && Snapshot(w.store, k);
      var i :| ChecksAt(cfg, es, i, c, req, k, at);
      RowJudged(p.table, w.store, k);
      assert es[i] in es && SoJudged(cfg.limiter, p.table, c, req, o, k, es[i]);
    }
  }

  // And a create call that answered with a key made it as its request asked.
  lemma {:induction false} PgCreatedAsAsked(cfg: Config, ps: seq<Event>, c: nat)
    requires PgLegal(cfg, PG_START, ps) && c in PgExec(cfg, PG_START, ps).calls
    requires var call := PgExec(cfg, PG_START, ps).calls[c];
             call.Between? && call.call.Create? && call.call.create.Created? && call.call.create.reply.KeyReply?
    ensures var p := PgExec(cfg, PG_START, ps);
            var req, shown := p.calls[c].call.creq, p.calls[c].call.create.reply.key;
            && MadeBy(ps, P.AsState(p.table), c, req, shown)
            && shown.keyId in p.minted && p.minted[shown.keyId] == if req.remainingUses > 0 then req.remainingUses else -1
  {
    RunOf(cfg, ps);
    var es := InMemory(cfg, PG_START, ps);
    var p, w := PgExec(cfg, PG_START, ps), Exec(cfg, START, es);
    assert SameCall(p.table, p.calls[c], w.calls[c]);
    CreatedAsAsked(cfg, es, c);
    var shown := w.calls[c].create.reply.key;
    assert SameKey(p.table.rows[shown.keyId], w.store.keys[shown.keyId]);
    var e :| e in es && e.Step? && e.c == c && e.env.freshId == shown.keyId && BrandNew(w.calls[c].creq, shown, e.env.storeAt);
    assert e in ps;
  }
}
