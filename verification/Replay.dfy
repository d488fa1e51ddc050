/**
 Replaying the calls of a run one at a time: what each call read in the run, the
 sequential server's state and replies along an order of calls, and when an order
 respects real time.
 */
module Replay {
  import opened Domain
  import opened StoreSpec
  import opened Verdict
  import opened Rpc
  import opened Machine
  import opened Invariants

  // ------------------------------------------------------------------
  // Requests and replies
  // ------------------------------------------------------------------

  function RequestOf(call: Call): Request {
    match call
    case Verify(req, _) => VerifyKey(req)
    case Revoke(id, _) => RevokeKey(id)
    case Create(creq, _) => CreateKey(creq)
    case Rotate(id, _) => RotateKey(id)
    case NewWorkspace(w, _) => CreateWorkspace(w.name, w.ownerPrincipalId, w.metadata)
    case NewApi(a, _) => CreateApi(a.workspaceId, a.name, a.keyPrefix, a.metadata)
    case Read(id, _) => GetKey(id)
  }

  function Wire(o: VerifyOutcome): Reply {
    if o.Failed? then ErrorReply(o.code) else VerifyReply(o.response)
  }

  // The reply a finished call gave.
  function Given(call: Call): Reply
    requires Finished(call)
  {
    match call
    case Verify(_, stage) => Wire(stage.outcome)
    case Create(_, stage) => stage.reply
    case Rotate(_, stage) => stage.reply
    case Revoke(_, reply) => reply.value
    case NewWorkspace(_, reply) => reply.value
    case NewApi(_, reply) => reply.value
    case Read(_, reply) => reply.value
  }

  // A call turned down at its decrement still carries the limiter's decisions;
  // one turned down at its lookup does not. Answers are compared without them.
  function Plain(r: Reply): Reply {
    if r.VerifyReply? && r.response.result.DEPLETED? then VerifyReply(r.response.(limitDecisions := [])) else r
  }

  // Turned down at its decrement, after the limiter had let it through.
  predicate DepletedLate(r: Reply) {
    r.VerifyReply? && r.response.result.DEPLETED? && r.response.limitDecisions != []
  }

  // ------------------------------------------------------------------
  // What calls read
  // ------------------------------------------------------------------

  // envs(c) carries what call c read: the clock at its check and the limiter's
  // answer, used again when the call is replayed on its own.
  datatype Setting = Setting(cfg: Config, w0: World, id: string, envs: nat -> Env)

  // Each call reads the clock at its check, the limiter at its consultation,
  // random bytes when it makes a plaintext, and the store's clock and a new
  // identifier when it writes. What it reads at other steps decides nothing but
  // last-verified stamps.
  predicate Reads(call: Call, env: Env, own: Env) {
    match call
    case Verify(_, stage) =>
      && (stage.Check? ==> env.checkAt == own.checkAt)
      && (stage.Consult? ==> env.answer == own.answer)
    case Create(_, stage) =>
      && (stage.ReadApi? ==> env.entropy == own.entropy)
      && (stage.Insert? ==> env.freshId == own.freshId && env.storeAt == own.storeAt)
    case Rotate(_, stage) =>
      && (stage.ReadKeyApi? ==> env.entropy == own.entropy)
      && (stage.Commit? ==> env.storeAt == own.storeAt)
    case _ => env.freshId == own.freshId && env.storeAt == own.storeAt
  }

  // The readings of a call once this step has taken its share.
  function Taken(call: Call, env: Env, own: Env): Env {
    match call
    case Verify(_, stage) =>
      if stage.Check? then own.(checkAt := env.checkAt)
      else if stage.Consult? then own.(answer := env.answer) else own
    case Create(_, stage) =>
      if stage.ReadApi? then own.(entropy := env.entropy) else own.(freshId := env.freshId, storeAt := env.storeAt)
    case Rotate(_, stage) =>
      if stage.ReadKeyApi? then own.(entropy := env.entropy)
      else if stage.Commit? then own.(storeAt := env.storeAt) else own
    case _ => own.(freshId := env.freshId, storeAt := env.storeAt)
  }

  // In the run every call reads what envs gives it.
  ghost predicate ReadsRun(x: Setting, es: seq<Event>)
    requires Legal(x.cfg, x.w0, es)
  {
    es == [] ||
    (ReadsRun(x, es[..|es| - 1]) && ReadsAt(x, Exec(x.cfg, x.w0, es[..|es| - 1]), es[|es| - 1]))
  }

  predicate ReadsAt(x: Setting, w: World, e: Event) {
    e.Step? ==> e.c in w.calls && Reads(w.calls[e.c], e.env, x.envs(e.c))
  }

  // A call reads a thing at one stage only; up to that stage its reading is open.
  predicate CheckOpen(call: Call) {
    call.Verify? && (call.verify.Lookup? || call.verify.Check?)
  }

  predicate AnswerOpen(call: Call) {
    call.Verify? && (call.verify.Lookup? || call.verify.Check? || call.verify.Consult?)
  }

  predicate EntropyOpen(call: Call) {
    (call.Create? && call.create.ReadApi?) || (call.Rotate? && (call.rotate.ReadKey? || call.rotate.ReadKeyApi?))
  }

  predicate WriteOpen(call: Call) {
    !call.Verify? && !Finished(call)
  }

  // y gives call c other readings than x, where they are still open in w, and
  // all else as x does.
  ghost predicate Revised(x: Setting, y: Setting, w: World, c: nat) {
    && y == x.(envs := y.envs) && (forall d :: d != c ==> y.envs(d) == x.envs(d))
    && (c in w.calls ==>
          var call, a, b := w.calls[c], x.envs(c), y.envs(c);
          && (a.checkAt == b.checkAt || CheckOpen(call)) && (a.answer == b.answer || AnswerOpen(call))
          && (a.entropy == b.entropy || EntropyOpen(call))
          && ((a.freshId == b.freshId && a.storeAt == b.storeAt) || WriteOpen(call)))
  }

  // What is open after a step was open before it, and not read by it.
  lemma OpenBefore(cfg: Config, s: State, call: Call, env: Env)
    requires !Finished(call)
    ensures var call' := Advance(cfg, s, call, env).call;
            && (CheckOpen(call') ==> CheckOpen(call) && !call.verify.Check?)
            && (AnswerOpen(call') ==> AnswerOpen(call) && !call.verify.Consult?)
            && (EntropyOpen(call') ==> EntropyOpen(call) && !call.Create? && !call.rotate.ReadKeyApi?)
            && (WriteOpen(call') ==>
                  && WriteOpen(call) && (call.Create? || call.Rotate?)
                  && (call.Create? ==> call.create.ReadApi?) && (call.Rotate? ==> !call.rotate.Commit?))
  {
  }

  lemma RevisedBefore(x: Setting, y: Setting, w: World, e: Event, c: nat)
    requires Enabled(w, e) && ReadsAt(x, w, e) && Revised(x, y, Apply(x.cfg, w, e), c)
    ensures Revised(x, y, w, c) && ReadsAt(y, w, e)
  {
    if e.Step? && e.c == c {
      OpenBefore(x.cfg, w.store, w.calls[c], e.env);
    }
  }

  lemma {:induction false} RevisedRun(x: Setting, y: Setting, es: seq<Event>, c: nat)
    requires Legal(x.cfg, x.w0, es) && ReadsRun(x, es) && Revised(x, y, Exec(x.cfg, x.w0, es), c)
    ensures ReadsRun(y, es)
  {
    if es != [] {
      var front, e := es[..|es| - 1], es[|es| - 1];
      RevisedBefore(x, y, Exec(x.cfg, x.w0, front), e, c);
      RevisedRun(x, y, front, c);
    }
  }

  lemma TakenIsRevised(x: Setting, y: Setting, w: World, c: nat, env: Env)
    requires c in w.calls && !Finished(w.calls[c]) && y == x.(envs := y.envs)
    requires y.envs(c) == Taken(w.calls[c], env, x.envs(c)) && forall d :: d != c ==> y.envs(d) == x.envs(d)
    ensures Revised(x, y, w, c) && ReadsAt(y, w, Step(c, env))
  {
  }

  // So any run, of any calls, fixes one set of readings for each call.
  lemma {:induction false} ReadingsExist(x: Setting, es: seq<Event>) returns (y: Setting)
    requires Legal(x.cfg, x.w0, es)
    ensures y == x.(envs := y.envs) && ReadsRun(y, es)
  {
    y := x;
    if es != [] {
      var front, e := es[..|es| - 1], es[|es| - 1];
      var z := ReadingsExist(x, front);
      var w := Exec(x.cfg, x.w0, front);
      y := z;
      if e.Step? {
        var own := Taken(w.calls[e.c], e.env, z.envs(e.c));
        y := z.(envs := (d: nat) => if d == e.c then own else z.envs(d));
        TakenIsRevised(z, y, w, e.c, e.env);
        RevisedRun(z, y, front, e.c);
      }
    }
  }

  // What was asked at a beginning can be read off the world it led to.
  predicate AskedIn(w0: World, w: World, e: Event) {
    e.Begin? ==> e.c !in w0.calls && e.c in w.calls && RequestOf(w.calls[e.c]) == RequestOf(e.call)
  }

  lemma StillAsked(cfg: Config, s: State, call: Call, env: Env)
    requires !Finished(call)
    ensures RequestOf(Advance(cfg, s, call, env).call) == RequestOf(call)
  {
  }

  lemma AskedStays(cfg: Config, w0: World, w: World, e: Event, e': Event)
    requires AskedIn(w0, w, e) && Enabled(w, e')
    ensures AskedIn(w0, Apply(cfg, w, e'), e)
  {
    if e'.Step? {
      StillAsked(cfg, w.store, w.calls[e'.c], e'.env);
    }
  }

  lemma {:induction false} AskedInRun(cfg: Config, w0: World, es: seq<Event>)
    requires Legal(cfg, w0, es)
    ensures forall c <- w0.calls :: c in Exec(cfg, w0, es).calls
    ensures forall e <- es :: AskedIn(w0, Exec(cfg, w0, es), e)
  {
    if es != [] {
      var front, last := es[..|es| - 1], es[|es| - 1];
      AskedInRun(cfg, w0, front);
      forall e | e in es ensures AskedIn(w0, Exec(cfg, w0, es), e) {
        assert e in front || e == last;
        if e in front {
          AskedStays(cfg, w0, Exec(cfg, w0, front), e, last);
        }
      }
    }
  }

  // ------------------------------------------------------------------
  // Running an order one call at a time
  // ------------------------------------------------------------------

  function Requests(w: World): map<nat, Request> {
    map c | c in w.calls :: RequestOf(w.calls[c])
  }

  ghost function Serial(x: Setting, reqs: map<nat, Request>, order: seq<nat>): State
    requires forall c <- order :: c in reqs
  {
    if order == [] then x.w0.store
    else
      var front, c := order[..|order| - 1], order[|order| - 1];
      Serve(MemoryDriver(), x.cfg, Serial(x, reqs, front), reqs[c], x.envs(c)).0
  }

  // The reply the sequential server gives to the call in position i.
  ghost function SerialReply(x: Setting, reqs: map<nat, Request>, order: seq<nat>, i: nat): Reply
    requires i < |order| && forall c <- order :: c in reqs
  {
    assert forall c <- order[..i] :: c in order;
    Serve(MemoryDriver(), x.cfg, Serial(x, reqs, order[..i]), reqs[order[i]], x.envs(order[i])).1
  }

  lemma {:induction false} SerialSameRequests(x: Setting, reqs: map<nat, Request>, reqs': map<nat, Request>, order: seq<nat>)
    requires forall c <- order :: c in reqs && c in reqs' && reqs[c] == reqs'[c]
    ensures Serial(x, reqs, order) == Serial(x, reqs', order)
  {
    if order != [] {
      assert forall c <- order[..|order| - 1] :: c in order;
      SerialSameRequests(x, reqs, reqs', order[..|order| - 1]);
    }
  }

  lemma {:induction false} SerialExtends(x: Setting, reqs: map<nat, Request>, pre: seq<nat>, c: nat)
    requires c in reqs && forall d <- pre :: d in reqs
    ensures forall d <- pre + [c] :: d in reqs
    ensures Serial(x, reqs, pre + [c]) == Serve(MemoryDriver(), x.cfg, Serial(x, reqs, pre), reqs[c], x.envs(c)).0
    ensures SerialReply(x, reqs, pre + [c], |pre|) == Serve(MemoryDriver(), x.cfg, Serial(x, reqs, pre), reqs[c], x.envs(c)).1
    ensures forall i :: 0 <= i < |pre| ==> SerialReply(x, reqs, pre + [c], i) == SerialReply(x, reqs, pre, i)
  {
    assert (pre + [c])[..|pre|] == pre;
    forall i | 0 <= i < |pre| ensures SerialReply(x, reqs, pre + [c], i) == SerialReply(x, reqs, pre, i) {
      assert (pre + [c])[..i] == pre[..i];
    }
  }

  // ------------------------------------------------------------------
  // Real time
  // ------------------------------------------------------------------

  // d had not finished when c began.
  predicate MayPrecede(w: World, c: nat, d: nat) {
    c in w.before && d !in w.before[c]
  }

  // No call precedes one that had finished before it began.
  ghost predicate InOrder(w: World, order: seq<nat>) {
    forall i, j :: 0 <= i < j < |order| ==> MayPrecede(w, order[i], order[j])
  }

  lemma StaysInOrder(w: World, w': World, order: seq<nat>)
    requires InOrder(w, order) && forall c <- w.before :: c in w'.before && w'.before[c] == w.before[c]
    ensures InOrder(w', order)
  {
  }

  // An unfinished call is in no record of finished calls.
  lemma UnfinishedUnrecorded(w: World, c: nat)
    requires BeforeOk(w) && c in w.calls && !Finished(w.calls[c])
    ensures forall d <- w.before :: c !in w.before[d]
  {
  }
}
