/**
 The main results about every interleaving of calls over the in-memory store.
 */
module Safety {
  import opened Domain
  import opened StoreSpec
  import opened Verdict
  import opened Rpc
  import opened Machine
  import opened Invariants
  import Keymat
  import Pagination

  // ------------------------------------------------------------------
  // Credit
  // ------------------------------------------------------------------

  function ValidCalls(w: World, id: string): set<nat> {
    set c | c in w.calls && ValidOn(w.calls[c], id)
  }

  predicate DepletedOn(call: Call, id: string) {
    call.Verify? && call.verify.Answered? && call.verify.outcome.Replied? &&
    call.verify.outcome.response.result.DEPLETED? && call.verify.outcome.response.keyId == id
  }

  function DepletedCalls(w: World, id: string): set<nat> {
    set c | c in w.calls && DepletedOn(w.calls[c], id)
  }

  // A key created unlimited stays at -1 for good. For a key created with N > 0
  // uses, what is left plus the calls past their decrement is always N, so at
  // most N calls are ever told VALID. N is what the create call asked for.
  lemma CreditConserved(cfg: Config, w: World, id: string)
    requires Reachable(cfg, w) && id in w.store.keys
    ensures id in w.minted && (w.minted[id] == -1 || w.minted[id] > 0)
    ensures w.minted[id] == -1 ==> w.store.keys[id].remainingUses == -1
    ensures w.minted[id] > 0 ==>
              && w.store.keys[id].remainingUses >= 0
              && w.store.keys[id].remainingUses + |Spenders(w.calls, id)| == w.minted[id]
              && |ValidCalls(w, id)| <= w.minted[id]
    ensures forall c <- w.calls :: MintedAsAsked(w, w.calls[c])
  {
    ReachableInv(cfg, w);
    assert CreditKept(w, id);
    SubsetCardinality(ValidCalls(w, id), Spenders(w.calls, id));
  }

  lemma {:induction false} SubsetCardinality<T>(a: set<T>, b: set<T>)
    requires a <= b
    ensures |a| <= |b|
  {
    if a != {} {
      var x :| x in a;
      SubsetCardinality(a - {x}, b - {x});
    }
  }

  predicate Elsewhere(call: Call, id: string) {
    call.Verify? ==>
      match call.verify
      case Lookup => true
      case Answered(_, _) => true
      case Check(k) => k.keyId != id
      case Consult(k) => k.keyId != id
      case Spend(k, _) => k.keyId != id
      case Touch(k, _) => k.keyId != id
  }

  // No verify call holds a snapshot of this key.
  ghost predicate NoneInFlight(w: World, id: string) {
    forall c <- w.calls :: Elsewhere(w.calls[c], id)
  }

  lemma QuietSpenders(cfg: Config, w: World, id: string)
    requires NoneInFlight(w, id)
    ensures Spenders(w.calls, id) == ValidCalls(w, id)
  {
  }

  lemma DepletedMeansSpent(cfg: Config, w: World, id: string)
    requires Inv(cfg, w) && id in w.store.keys && DepletedCalls(w, id) != {}
    ensures w.store.keys[id].remainingUses == 0
  {
    var c :| c in DepletedCalls(w, id);
    assert CallOk(cfg, w.store, w.calls[c]);
  }

  // Once every call that looked this key up has answered, of the m calls told
  // VALID or DEPLETED exactly min(N, m) were VALID.
  lemma ExactlyMinValid(cfg: Config, w: World, id: string)
    requires Reachable(cfg, w) && id in w.store.keys && id in w.minted && w.minted[id] > 0
    requires NoneInFlight(w, id)
    ensures var n, valid, m := w.minted[id], |ValidCalls(w, id)|, |ValidCalls(w, id) + DepletedCalls(w, id)|;
            valid == if n < m then n else m
  {
    CreditConserved(cfg, w, id);
    QuietSpenders(cfg, w, id);
    var m := ValidCalls(w, id) + DepletedCalls(w, id);
    if DepletedCalls(w, id) == {} {
      assert m == ValidCalls(w, id);
    } else {
      ReachableInv(cfg, w);
      DepletedMeansSpent(cfg, w, id);
      SubsetCardinality(ValidCalls(w, id), m);
    }
  }

  // ------------------------------------------------------------------
  // Terminal verdicts
  // ------------------------------------------------------------------

  // Revoked, out of credit, or (when t is given) expired by t.
  predicate Barred(k: Key, t: Option<Time>) {
    !k.enabled || k.remainingUses == 0 || (t.Some? && Expired(k, t.value))
  }

  ghost predicate ClockFrom(es: seq<Event>, t: Option<Time>) {
    t.Some? ==> forall e <- es :: e.Step? ==> e.env.checkAt >= t.value
  }

  // A call that can no longer come to VALID on this key.
  predicate Hopeless(call: Call, id: string, t: Option<Time>) {
    call.Verify? ==>
      match call.verify
      case Lookup => true
      case Check(k) => k.keyId == id ==> Barred(k, t)
      case Consult(k) => k.keyId != id
      case Spend(k, _) => k.keyId != id
      case Touch(k, _) => k.keyId != id
      case Answered(_, _) => !ValidOn(call, id)
  }

  lemma HopelessStep(cfg: Config, s: State, call: Call, env: Env, id: string, t: Option<Time>)
    requires StoreOk(s) && id in s.keys && Barred(s.keys[id], t) && !Finished(call) && Hopeless(call, id, t)
    requires t.Some? ==> env.checkAt >= t.value
    ensures Hopeless(Advance(cfg, s, call, env).call, id, t)
  {
    if call.Verify? {
      VerifyEffect(cfg, s, call, env);
    } else if FreshEnv(s, env) {
      NonVerifyEffect(cfg, s, call, env);
    }
  }

  lemma BarredStable(s: State, s': State, id: string, t: Option<Time>)
    requires Evolves(s, s') && id in s.keys && Barred(s.keys[id], t)
    ensures id in s'.keys && Barred(s'.keys[id], t)
  {
    assert Frozen(s.keys[id]).expiresAt == Frozen(s'.keys[id]).expiresAt;
  }

  // The key is barred, and every call begun since w is hopeless.
  ghost predicate BarredSince(w: World, w': World, id: string, t: Option<Time>) {
    && w.calls.Keys <= w'.calls.Keys
    && id in w'.store.keys && Barred(w'.store.keys[id], t)
    && forall c <- w'.calls :: c !in w.calls ==> Hopeless(w'.calls[c], id, t)
  }

  lemma BarredStep(cfg: Config, w: World, mid: World, e: Event, id: string, t: Option<Time>)
    requires CallsOk(cfg, mid) && Enabled(mid, e) && (e.Step? && t.Some? ==> e.env.checkAt >= t.value)
    requires BarredSince(w, mid, id, t)
    ensures BarredSince(w, Apply(cfg, mid, e), id, t)
  {
    var w' := Apply(cfg, mid, e);
    ApplyKeepsCalls(cfg, mid, e);
    BarredStable(mid.store, w'.store, id, t);
    if e.Step? && e.c !in w.calls {
      HopelessStep(cfg, mid.store, mid.calls[e.c], e.env, id, t);
    }
    forall c | c in w'.calls && c !in w.calls ensures Hopeless(w'.calls[c], id, t) {
      assert c == e.c || w'.calls[c] == mid.calls[c];
    }
  }

  lemma {:induction false} BarredForGood(cfg: Config, w: World, es: seq<Event>, id: string, t: Option<Time>)
    requires CallsOk(cfg, w) && Legal(cfg, w, es) && ClockFrom(es, t)
    requires id in w.store.keys && Barred(w.store.keys[id], t)
    ensures BarredSince(w, Exec(cfg, w, es), id, t)
  {
    if es != [] {
      var front, e := es[..|es| - 1], es[|es| - 1];
      assert ClockFrom(front, t) by { assert forall x <- front :: x in es; }
      assert e in es;
      BarredForGood(cfg, w, front, id, t);
      RunKeepsCalls(cfg, w, front);
      BarredStep(cfg, w, Exec(cfg, w, front), e, id, t);
    }
  }

  // The verdict that call c has given on key id bars it for good: revoked or
  // depleted for any clock, expired as long as the clock does not run back.
  predicate Terminal(call: Call, id: string, es: seq<Event>) {
    match call
    case Revoke(keyId, reply) => keyId == id && reply == Some(RevokedReply)
    case Verify(_, stage) =>
      stage.Answered? && stage.outcome.Replied? && stage.outcome.response.keyId == id &&
      (match stage.outcome.response.result
       case REVOKED => true
       case DEPLETED => true
       case EXPIRED => forall e <- es :: e.Step? ==> e.env.checkAt >= stage.at
       case _ => false)
    case _ => false
  }

  lemma ReachableCalls(cfg: Config, w: World)
    requires Reachable(cfg, w)
    ensures CallsOk(cfg, w)
  {
    ReachableInv(cfg, w);
  }

  lemma TerminalBars(cfg: Config, s: State, call: Call, id: string, es: seq<Event>) returns (t: Option<Time>)
    requires CallOk(cfg, s, call) && Terminal(call, id, es)
    ensures id in s.keys && Barred(s.keys[id], t) && ClockFrom(es, t)
  {
    t := if call.Verify? && call.verify.outcome.response.result.EXPIRED? then Some(call.verify.at) else None;
  }

  // After a call has been told REVOKED, DEPLETED or EXPIRED for a key, or a
  // revoke of it has completed, no verify call that begins later is told VALID
  // for that key, whatever runs next: rotations, creations, other plaintexts.
  lemma {:induction false} TerminalVerdictsAbsorb(cfg: Config, w: World, es: seq<Event>, c: nat, id: string)
    requires Reachable(cfg, w) && Legal(cfg, w, es)
    requires c in w.calls && Terminal(w.calls[c], id, es)
    ensures forall d <- Exec(cfg, w, es).calls :: d !in w.calls ==> !ValidOn(Exec(cfg, w, es).calls[d], id)
  {
    ReachableCalls(cfg, w);
    var t := TerminalBars(cfg, w.store, w.calls[c], id, es);
    BarredForGood(cfg, w, es, id, t);
  }

  // ------------------------------------------------------------------
  // One live plaintext
  // ------------------------------------------------------------------

  function Plaintexts(log: seq<Issue>): set<string> {
    set issue | issue in log :: issue.plaintext
  }

  // The assumption on the hash: no collision among these strings.
  ghost predicate InjectiveOn(sha: string -> Bytes, strings: set<string>) {
    forall p, q :: p in strings && q in strings && sha(p) == sha(q) ==> p == q
  }

  // A later plaintext was issued for the same key.
  ghost predicate Superseded(log: seq<Issue>, i: nat)
    requires i < |log|
  {
    exists j :: i < j < |log| && log[j].keyId == log[i].keyId
  }

  lemma {:induction false} LastIssueIsLive(log: seq<Issue>, id: string) returns (i: int)
    requires LastIssue(log, id).Some?
    ensures 0 <= i < |log| && log[i] == Issue(id, LastIssue(log, id).value) && !Superseded(log, i)
    ensures forall j :: i < j < |log| ==> log[j].keyId != id
  {
    if log[|log| - 1].keyId == id {
      i := |log| - 1;
    } else {
      i := LastIssueIsLive(log[..|log| - 1], id);
      assert log[..|log| - 1][i] == log[i];
      forall j | i < j < |log| ensures log[j].keyId != id {
        assert j < |log| - 1 ==> log[..|log| - 1][j] == log[j];
      }
    }
  }

  // In every reachable state, of all the plaintexts ever issued for a key the
  // one from its last committed hash write looks up that key, and every other
  // one looks up nothing.
  lemma OneLivePlaintext(cfg: Config, w: World, i: nat)
    requires Reachable(cfg, w) && i < |w.issued|
    requires InjectiveOn(cfg.sha, Plaintexts(w.issued))
    ensures var issue := w.issued[i];
            && issue.keyId in w.store.keys
            && (if Superseded(w.issued, i) then GetKeyByHash(w.store, cfg.sha(issue.plaintext)) == Err(NotFound)
                else GetKeyByHash(w.store, cfg.sha(issue.plaintext)) == Ok(w.store.keys[issue.keyId]))
  {
    ReachableInv(cfg, w);
    LiveLookup(cfg, w, i);
  }

  // Each key has exactly one issue that is not superseded.
  lemma ExactlyOneLive(cfg: Config, w: World, id: string)
    requires Reachable(cfg, w) && id in w.store.keys
    ensures exists i :: 0 <= i < |w.issued| && w.issued[i].keyId == id && !Superseded(w.issued, i) &&
              forall j :: 0 <= j < |w.issued| && w.issued[j].keyId == id && !Superseded(w.issued, j) ==> j == i
  {
    ReachableInv(cfg, w);
    var i := LastIssueIsLive(w.issued, id);
    assert w.issued[i].keyId == id;
  }

  lemma LiveLookup(cfg: Config, w: World, i: nat)
    requires IndexAgrees(w.store) && HashesOk(cfg, w) && GeneratedOk(w) && i < |w.issued|
    requires InjectiveOn(cfg.sha, Plaintexts(w.issued))
    ensures var issue := w.issued[i];
            && issue.keyId in w.store.keys
            && (if Superseded(w.issued, i) then GetKeyByHash(w.store, cfg.sha(issue.plaintext)) == Err(NotFound)
                else GetKeyByHash(w.store, cfg.sha(issue.plaintext)) == Ok(w.store.keys[issue.keyId]))
  {
    assert w.issued[i] in w.issued;
    var live := LastIssueIsLive(w.issued, w.issued[i].keyId);
    IndexedIsLive(cfg, w, i);
  }

  lemma IndexedIsLive(cfg: Config, w: World, i: nat)
    requires IndexAgrees(w.store) && HashesOk(cfg, w) && GeneratedOk(w) && i < |w.issued|
    requires InjectiveOn(cfg.sha, Plaintexts(w.issued))
    ensures cfg.sha(w.issued[i].plaintext) in w.store.hashIndex ==> !Superseded(w.issued, i)
  {
    var hash := cfg.sha(w.issued[i].plaintext);
    if hash in w.store.hashIndex {
      var j := LastIssueIsLive(w.issued, w.store.hashIndex[hash]);
      assert w.issued[i] in w.issued && w.issued[j] in w.issued;
      assert w.issued[j].plaintext in Plaintexts(w.issued) && w.issued[i].plaintext in Plaintexts(w.issued);
      assert i == j;
    }
  }

  // A verify call for a dead plaintext stays at its lookup or is told NOT_FOUND.
  predicate FindsNothing(call: Call, plaintext: string) {
    call.Verify? && call.req.plaintext == plaintext ==>
      call.verify.Lookup? || (call.verify.Answered? && call.verify.outcome == RESPONSE_NOT_FOUND)
  }

  // The log has only grown, and every call begun since w for this plaintext
  // finds nothing.
  ghost predicate DeadSince(w: World, w': World, plaintext: string) {
    && w.issued <= w'.issued && w.calls.Keys <= w'.calls.Keys
    && forall c <- w'.calls :: c !in w.calls ==> FindsNothing(w'.calls[c], plaintext)
  }

  lemma DeadStep(cfg: Config, w: World, mid: World, e: Event, plaintext: string)
    requires Enabled(mid, e) && GetKeyByHash(mid.store, cfg.sha(plaintext)) == Err(NotFound)
    requires DeadSince(w, mid, plaintext)
    ensures DeadSince(w, Apply(cfg, mid, e), plaintext)
  {
    var w' := Apply(cfg, mid, e);
    if e.Step? && mid.calls[e.c].Verify? {
      VerifyEffect(cfg, mid.store, mid.calls[e.c], e.env);
    }
    forall c | c in w'.calls && c !in w.calls ensures FindsNothing(w'.calls[c], plaintext) {
      assert c == e.c || w'.calls[c] == mid.calls[c];
    }
  }

  lemma SupersededStays(log: seq<Issue>, log': seq<Issue>, i: nat)
    requires i < |log| && Superseded(log, i) && log <= log'
    ensures Superseded(log', i)
  {
    var j :| i < j < |log| && log[j].keyId == log[i].keyId;
    assert log'[j] == log[j] && log'[i] == log[i];
  }

  // Once a later plaintext has been issued for its key, a plaintext is told
  // NOT_FOUND by every verify call that begins from then on.
  lemma {:induction false} SupersededNotFound(cfg: Config, w: World, es: seq<Event>, i: nat)
    requires Reachable(cfg, w) && Legal(cfg, w, es) && i < |w.issued| && Superseded(w.issued, i)
    requires InjectiveOn(cfg.sha, Plaintexts(Exec(cfg, w, es).issued))
    ensures forall c <- Exec(cfg, w, es).calls :: c !in w.calls ==> FindsNothing(Exec(cfg, w, es).calls[c], w.issued[i].plaintext)
  {
    ReachableInv(cfg, w);
    DeadForGood(cfg, w, es, i);
  }

  lemma {:induction false} DeadForGood(cfg: Config, w: World, es: seq<Event>, i: nat)
    requires Inv(cfg, w) && Legal(cfg, w, es) && i < |w.issued| && Superseded(w.issued, i)
    requires InjectiveOn(cfg.sha, Plaintexts(Exec(cfg, w, es).issued))
    ensures DeadSince(w, Exec(cfg, w, es), w.issued[i].plaintext)
  {
    if es != [] {
      var front, e := es[..|es| - 1], es[|es| - 1];
      var mid := Exec(cfg, w, front);
      assert Plaintexts(mid.issued) <= Plaintexts(Exec(cfg, w, es).issued) by { LogGrows(cfg, mid, e); }
      DeadForGood(cfg, w, front, i);
      RunKeepsInv(cfg, w, front);
      SupersededStays(w.issued, mid.issued, i);
      LiveLookup(cfg, mid, i);
      DeadStep(cfg, w, mid, e, w.issued[i].plaintext);
    }
  }

  lemma LogGrows(cfg: Config, w: World, e: Event)
    requires Enabled(w, e)
    ensures Plaintexts(w.issued) <= Plaintexts(Apply(cfg, w, e).issued)
  {
  }

  // Every plaintext handed out is 52 letters behind its API's prefix, passes
  // validation, and no two issues share one.
  lemma IssuedPlaintexts(cfg: Config, w: World)
    requires Reachable(cfg, w)
    ensures StoreOk(w.store) && forall issue <- w.issued :: IssuePrefixOk(w.store, issue) && issue.plaintext != ""
    ensures forall i, j :: 0 <= i < j < |w.issued| ==> w.issued[i].plaintext != w.issued[j].plaintext
  {
    ReachableInv(cfg, w);
  }

  // ------------------------------------------------------------------
  // Rejections
  // ------------------------------------------------------------------

  predicate IsError(reply: Option<Reply>) {
    reply.Some? && reply.value.ErrorReply?
  }

  // Answered, but neither VALID nor a successful reply.
  predicate Rejected(call: Call) {
    match call
    case Verify(_, stage) => stage.Answered? && !(stage.outcome.Replied? && stage.outcome.response.valid)
    case Create(_, stage) => stage.Created? && stage.reply.ErrorReply?
    case Rotate(_, stage) => stage.Rotated? && stage.reply.ErrorReply?
    case Revoke(_, reply) => IsError(reply)
    case NewWorkspace(_, reply) => IsError(reply)
    case NewApi(_, reply) => IsError(reply)
    case Read(_, reply) => IsError(reply)
  }

  predicate Committed(call: Call) {
    (call.Verify? && call.verify.Touch?) || (Finished(call) && !Rejected(call))
  }

  lemma VerifyWritesCommit(cfg: Config, s: State, req: VerifyRequest, stage: VerifyStage, env: Env)
    requires StoreOk(s) && !stage.Answered? && VerifyOk(cfg, s, req, stage)
    ensures var eff := Advance(cfg, s, Verify(req, stage), env);
            StoreAfter(s, eff) != s || stage.Touch? ==> Committed(eff.call)
  {
  }

  lemma OtherWritesCommit(cfg: Config, s: State, call: Call, env: Env)
    requires !call.Verify? && !Finished(call)
    ensures var eff := Advance(cfg, s, call, env);
            StoreAfter(s, eff) != s ==> Committed(eff.call)
  {
  }

  lemma WritesCommit(cfg: Config, s: State, call: Call, env: Env)
    requires StoreOk(s) && !Finished(call) && CallOk(cfg, s, call)
    ensures var eff := Advance(cfg, s, call, env);
            StoreAfter(s, eff) != s || Committed(call) ==> Committed(eff.call)
  {
    if call.Verify? {
      VerifyWritesCommit(cfg, s, call.req, call.verify, env);
    } else {
      OtherWritesCommit(cfg, s, call, env);
    }
  }

  lemma {:induction false} CommittedForGood(cfg: Config, w: World, es: seq<Event>, c: nat)
    requires CallsOk(cfg, w) && Legal(cfg, w, es) && c in w.calls && Committed(w.calls[c])
    ensures c in Exec(cfg, w, es).calls && Committed(Exec(cfg, w, es).calls[c])
  {
    if es != [] {
      var front, e := es[..|es| - 1], es[|es| - 1];
      CommittedForGood(cfg, w, front, c);
      RunKeepsCalls(cfg, w, front);
      CommittedStep(cfg, Exec(cfg, w, front), e, c);
    }
  }

  lemma CommittedStep(cfg: Config, w: World, e: Event, c: nat)
    requires CallsOk(cfg, w) && Enabled(w, e) && c in w.calls && Committed(w.calls[c])
    ensures c in Apply(cfg, w, e).calls && Committed(Apply(cfg, w, e).calls[c])
  {
    if e.Step? && e.c == c {
      WritesCommit(cfg, w.store, w.calls[c], e.env);
    }
  }

  // A step by call c that changes the store is never followed, however the run
  // goes on, by a rejection of c: rejected calls write nothing.
  lemma {:induction false} RejectionsWriteNothing(cfg: Config, w: World, c: nat, env: Env, es: seq<Event>)
    requires Reachable(cfg, w) && Enabled(w, Step(c, env))
    requires var w1 := Apply(cfg, w, Step(c, env));
             Legal(cfg, w1, es) && c in Exec(cfg, w1, es).calls && Rejected(Exec(cfg, w1, es).calls[c])
    ensures Apply(cfg, w, Step(c, env)).store == w.store
  {
    ReachableCalls(cfg, w);
    var w1 := Apply(cfg, w, Step(c, env));
    ApplyKeepsCalls(cfg, w, Step(c, env));
    WritesCommit(cfg, w.store, w.calls[c], env);
    if Committed(w1.calls[c]) {
      CommittedForGood(cfg, w1, es, c);
    }
  }

  // A key carries a last-verified stamp exactly when some verify call has been
  // told VALID for it.
  lemma StampedIffVerified(cfg: Config, w: World, id: string)
    requires Reachable(cfg, w) && id in w.store.keys
    ensures w.store.keys[id].lastVerifiedAt.Some? <==> exists c :: c in w.calls && ValidOn(w.calls[c], id)
  {
    ReachableInv(cfg, w);
    assert TouchedBy(w, id) <==> exists c :: c in w.calls && ValidOn(w.calls[c], id);
  }

  // ------------------------------------------------------------------
  // Tenants and the rate limiter
  // ------------------------------------------------------------------

  // Every key's API exists, its workspace exists, and key and API agree on it,
  // although creation reads the API and inserts the key in separate steps. Every
  // verify response for a found key names that same key, API and workspace.
  lemma TenantsConsistent(cfg: Config, w: World)
    requires Reachable(cfg, w)
    ensures forall id <- w.store.keys ::
              var k := w.store.keys[id];
              && k.apiId in w.store.apis
              && w.store.apis[k.apiId].workspaceId == k.workspaceId
              && k.workspaceId in w.store.workspaces
    ensures forall c <- w.calls ::
              w.calls[c].Verify? && w.calls[c].verify.Answered? && w.calls[c].verify.outcome.Replied? &&
              !w.calls[c].verify.outcome.response.result.NOT_FOUND? ==>
                var r := w.calls[c].verify.outcome.response;
                && r.keyId in w.store.keys
                && r.apiId == w.store.keys[r.keyId].apiId
                && r.workspaceId == w.store.keys[r.keyId].workspaceId
                && r.ownerPrincipalId == w.store.keys[r.keyId].ownerPrincipalId
                && r.permissions == w.store.keys[r.keyId].permissions
  {
    ReachableInv(cfg, w);
    forall c | c in w.calls ensures CallOk(cfg, w.store, w.calls[c]) {
    }
  }

  predicate AnsweredWith(call: Call, result: VerifyResult) {
    call.Verify? && call.verify.Answered? && call.verify.outcome.Replied? && call.verify.outcome.response.result == result
  }

  // With the fail-closed limiter, a key with limit references is VALID only for
  // calls that skip the limiter, and a RATE_LIMITED reply carries one denial per
  // reference in order. With any limiter, VALID after a consultation means every
  // decision allowed, and without one such a key is never VALID.
  lemma FailClosedEndToEnd(cfg: Config, w: World, c: nat)
    requires Reachable(cfg, w) && c in w.calls
    ensures AnsweredWith(w.calls[c], VALID) ==>
              var r := w.calls[c].verify.outcome.response;
              && r.keyId in w.store.keys
              && (if !w.calls[c].req.skipRatelimit && |w.store.keys[r.keyId].limitRefs| > 0
                  then cfg.limiter.External? && forall d <- r.limitDecisions :: d.allowed
                  else r.limitDecisions == [])
    ensures AnsweredWith(w.calls[c], RATE_LIMITED) ==>
              var r := w.calls[c].verify.outcome.response;
              && r.keyId in w.store.keys
              && !w.calls[c].req.skipRatelimit && |w.store.keys[r.keyId].limitRefs| > 0
              && (exists d <- r.limitDecisions :: !d.allowed)
              && (cfg.limiter.FailClosed? ==>
                    var refs := w.store.keys[r.keyId].limitRefs;
                    && |r.limitDecisions| == |refs|
                    && (forall i :: 0 <= i < |refs| ==>
                          r.limitDecisions[i] == LimitDecision(refs[i].limitId, refs[i].scopeKey, false, 0, 0)))
  {
    ReachableCalls(cfg, w);
    assert CallOk(cfg, w.store, w.calls[c]);
    if AnsweredWith(w.calls[c], VALID) || AnsweredWith(w.calls[c], RATE_LIMITED) {
      var call := w.calls[c];
      LimitedVerdict(cfg, w.store.keys[call.verify.outcome.response.keyId], call.req, call.verify.outcome.response, call.verify.at);
    }
  }

  lemma LimitedVerdict(cfg: Config, k: Key, req: VerifyRequest, r: VerifyResponse, at: Time)
    requires VerdictHolds(cfg, k, req, r, at)
    ensures r.result == VALID ==>
              if !req.skipRatelimit && |k.limitRefs| > 0 then cfg.limiter.External? && forall d <- r.limitDecisions :: d.allowed
              else r.limitDecisions == []
    ensures r.result == RATE_LIMITED ==>
              && !req.skipRatelimit && |k.limitRefs| > 0 && (exists d <- r.limitDecisions :: !d.allowed)
              && (cfg.limiter.FailClosed? ==>
                    && |r.limitDecisions| == |k.limitRefs|
                    && (forall i :: 0 <= i < |k.limitRefs| ==>
                          r.limitDecisions[i] == LimitDecision(k.limitRefs[i].limitId, k.limitRefs[i].scopeKey, false, 0, 0)))
  {
    DenyAllDenies(k.limitRefs);
  }

  // ------------------------------------------------------------------
  // Listing while calls run
  // ------------------------------------------------------------------

  lemma {:induction false} RunSplits(cfg: Config, w: World, es: seq<Event>, n: nat)
    requires Legal(cfg, w, es) && n <= |es|
    ensures Legal(cfg, w, es[..n]) && Legal(cfg, Exec(cfg, w, es[..n]), es[n..])
    ensures Exec(cfg, w, es) == Exec(cfg, Exec(cfg, w, es[..n]), es[n..])
  {
    if n == |es| {
      assert es[..n] == es && es[n..] == [];
    } else {
      var front := es[..|es| - 1];
      RunSplits(cfg, w, front, n);
      assert front[..n] == es[..n] && es[n..][..|es| - n - 1] == front[n..];
    }
  }

  // Successive points of a run of n events.
  ghost predicate PointsOf(points: seq<nat>, n: nat) {
    forall i, j :: 0 <= i <= j < |points| ==> points[i] <= points[j] <= n
  }

  // The stores a run passes through at those points.
  ghost function StoresAt(cfg: Config, es: seq<Event>, points: seq<nat>): (states: seq<State>)
    requires Legal(cfg, START, es) && PointsOf(points, |es|)
    ensures |states| == |points|
  {
    seq(|points|, i requires 0 <= i < |points| => StoreAt(cfg, es, points[i]))
  }

  ghost function StoreAt(cfg: Config, es: seq<Event>, n: nat): State
    requires Legal(cfg, START, es) && n <= |es|
  {
    RunSplits(cfg, START, es, n);
    Exec(cfg, START, es[..n]).store
  }

  lemma LaterStore(cfg: Config, es: seq<Event>, a: nat, b: nat)
    requires Legal(cfg, START, es) && a <= b <= |es|
    ensures IndexAgrees(StoreAt(cfg, es, b)) && Evolves(StoreAt(cfg, es, a), StoreAt(cfg, es, b))
  {
    RunSplits(cfg, START, es, b);
    RunSplits(cfg, START, es[..b], a);
    assert es[..b][..a] == es[..a];
    RunKeepsCalls(cfg, START, es[..a]);
    RunKeepsCalls(cfg, Exec(cfg, START, es[..a]), es[..b][a..]);
  }

  lemma RunTimeline(cfg: Config, es: seq<Event>, points: seq<nat>)
    requires Legal(cfg, START, es) && PointsOf(points, |es|)
    ensures Pagination.Timeline(StoresAt(cfg, es, points))
  {
    var states := StoresAt(cfg, es, points);
    forall i | 0 <= i < |states| ensures IndexAgrees(states[i]) {
      LaterStore(cfg, es, points[i], points[i]);
    }
    forall i | 0 < i < |states| ensures Evolves(states[i - 1], states[i]) {
      LaterStore(cfg, es, points[i - 1], points[i]);
    }
  }

  // A token walk whose pages are fetched at any points of any run, while other
  // calls create, rotate, revoke, touch and decrement keys in between: once it
  // ends it has returned every key that matched at the start exactly once, no
  // key twice, and only keys that match.
  lemma {:induction false} WalkDuringRun(cfg: Config, es: seq<Event>, points: seq<nat>, sizes: seq<int>, opts: ListOpts)
    requires Legal(cfg, START, es) && PointsOf(points, |es|) && |points| == |sizes|
    requires opts.pageToken == "" && Pagination.Ends(StoresAt(cfg, es, points), sizes, opts)
    ensures var states := StoresAt(cfg, es, points);
            var got := Pagination.Walk(states, sizes, opts);
            && (forall i, j :: 0 <= i < j < |got| ==> Pagination.Precedes(got[i].keyId, got[j].keyId))
            && (forall i :: 0 <= i < |got| ==>
                  && got[i].apiId == opts.apiId
                  && (opts.ownerPrincipalId != "" ==> got[i].ownerPrincipalId == opts.ownerPrincipalId)
                  && exists n :: 0 <= n < |states| && Pagination.Held(states[n], opts, got[i]))
            && (forall id <- states[0].keys ::
                  var k := states[0].keys[id];
                  k.apiId == opts.apiId && (opts.ownerPrincipalId != "" ==> k.ownerPrincipalId == opts.ownerPrincipalId) ==>
                    id in Pagination.Ids(got))
  {
    var states := StoresAt(cfg, es, points);
    RunTimeline(cfg, es, points);
    Pagination.WalkHolds(states, sizes, opts);
  }

  // ------------------------------------------------------------------
  // Without interference
  // ------------------------------------------------------------------

  // An upper bound on the steps a call has left.
  function StepsLeft(call: Call): nat {
    match call
    case Verify(_, stage) =>
      (match stage
       case Lookup => 5 case Check(_) => 4 case Consult(_) => 3
       case Spend(_, _) => 2 case Touch(_, _) => 1 case Answered(_, _) => 0)
    case Create(_, stage) => (match stage case ReadApi => 2 case Insert(_, _) => 1 case Created(_) => 0)
    case Rotate(_, stage) =>
      (match stage case ReadKey => 3 case ReadKeyApi(_) => 2 case Commit(_) => 1 case Rotated(_) => 0)
    case Revoke(_, reply) => if reply.None? then 1 else 0
    case NewWorkspace(_, reply) => if reply.None? then 1 else 0
    case NewApi(_, reply) => if reply.None? then 1 else 0
    case Read(_, reply) => if reply.None? then 1 else 0
  }

  // The call stepped to its end with nothing in between.
  function Alone(cfg: Config, s: State, call: Call, env: Env): (State, Call)
    decreases StepsLeft(call)
  {
    if Finished(call) then (s, call)
    else
      var eff := Advance(cfg, s, call, env);
      Alone(cfg, StoreAfter(s, eff), eff.call, env)
  }

  // One step of it; a step of a finished call changes nothing.
  lemma AloneStep(cfg: Config, s: State, call: Call, env: Env) returns (eff: Effect)
    ensures eff == if Finished(call) then Local(call) else Advance(cfg, s, call, env)
    ensures Alone(cfg, s, call, env) == if Finished(call) then (s, call) else Alone(cfg, StoreAfter(s, eff), eff.call, env)
  {
    eff := if Finished(call) then Local(call) else Advance(cfg, s, call, env);
  }

  lemma AloneSettles(cfg: Config, s: State, req: VerifyRequest, k: Key, ds: seq<LimitDecision>, env: Env)
    ensures Alone(cfg, s, Verify(req, AfterLimiter(k, ds)), env) ==
              (var (s', r) := Settle(MemoryDriver(), s, k, ds, env); (s', Verify(req, Answered(r, env.checkAt))))
  {
    if k.remainingUses > 0 {
      var spend := AloneStep(cfg, s, Verify(req, Spend(k, ds)), env);
      var s' := StoreAfter(s, spend);
      var touch := AloneStep(cfg, s', spend.call, env);
      var end := AloneStep(cfg, StoreAfter(s', touch), touch.call, env);
    } else {
      var touch := AloneStep(cfg, s, Verify(req, AfterLimiter(k, ds)), env);
      var end := AloneStep(cfg, StoreAfter(s, touch), touch.call, env);
    }
  }

  lemma AloneScreens(cfg: Config, s: State, req: VerifyRequest, k: Key, env: Env)
    ensures var screen := Screen(cfg.limiter, k, req, env.checkAt, env.answer);
            Alone(cfg, s, Verify(req, Check(k)), env) ==
              if screen.Stop? then (s, Verify(req, Answered(screen.outcome, env.checkAt)))
              else Alone(cfg, s, Verify(req, AfterLimiter(k, screen.decisions)), env)
  {
    var check := AloneStep(cfg, s, Verify(req, Check(k)), env);
    if check.call.verify.Consult? {
      var consult := AloneStep(cfg, s, check.call, env);
      var end := AloneStep(cfg, s, consult.call, env);
    }
  }

  // A verify call stepped alone has the effect and the answer of the sequential
  // handler.
  lemma AloneVerify(cfg: Config, s: State, req: VerifyRequest, env: Env)
    ensures Alone(cfg, s, Verify(req, Lookup), env) ==
              (var (s', r) := ServeVerify(MemoryDriver(), cfg, s, req, env); (s', Verify(req, Answered(r, env.checkAt))))
  {
    var lookup := AloneStep(cfg, s, Verify(req, Lookup), env);
    if lookup.call.verify.Check? {
      var k := lookup.call.verify.key;
      AloneScreens(cfg, s, req, k, env);
      var screen := Screen(cfg.limiter, k, req, env.checkAt, env.answer);
      if screen.Proceed? {
        AloneSettles(cfg, s, req, k, screen.decisions, env);
      }
    } else {
      var end := AloneStep(cfg, s, lookup.call, env);
    }
  }

  // So have create, rotate and revoke calls.
  lemma AloneCreate(cfg: Config, s: State, req: CreateKeyRequest, env: Env)
    ensures Alone(cfg, s, Create(req, ReadApi), env) ==
              (var (s', r) := ServeCreateKey(MemoryDriver(), cfg, s, req, env); (s', Create(req, Created(r))))
  {
    var read := AloneStep(cfg, s, Create(req, ReadApi), env);
    var insert := AloneStep(cfg, s, read.call, env);
    var end := AloneStep(cfg, StoreAfter(s, insert), insert.call, env);
  }

  lemma AloneRotate(cfg: Config, s: State, id: string, env: Env)
    ensures Alone(cfg, s, Rotate(id, ReadKey), env) ==
              (var (s', r) := ServeRotateKey(MemoryDriver(), cfg, s, id, env); (s', Rotate(id, Rotated(r))))
  {
    var read := AloneStep(cfg, s, Rotate(id, ReadKey), env);
    var draw := AloneStep(cfg, s, read.call, env);
    var commit := AloneStep(cfg, s, draw.call, env);
    var end := AloneStep(cfg, StoreAfter(s, commit), commit.call, env);
  }

  lemma AloneRevoke(cfg: Config, s: State, id: string, env: Env)
    ensures Alone(cfg, s, Revoke(id, None), env) ==
              (var (s', r) := ServeRevokeKey(MemoryDriver(), s, id, env); (s', Revoke(id, Some(r))))
  {
    var revoke := AloneStep(cfg, s, Revoke(id, None), env);
    var end := AloneStep(cfg, StoreAfter(s, revoke), revoke.call, env);
  }

  lemma AloneRead(cfg: Config, s: State, id: string, env: Env)
    ensures Alone(cfg, s, Read(id, None), env) ==
              (s, Read(id, Some(Serve(MemoryDriver(), cfg, s, GetKey(id), env).1)))
  {
    var read := AloneStep(cfg, s, Read(id, None), env);
    var end := AloneStep(cfg, s, read.call, env);
  }
}
