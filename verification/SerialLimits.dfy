/**
 Exactly when runs with reads or rotations on a key always have a serial order:
 when the key has no credit to spend at the start. With credit there is a run
 that has none.
 */
module SerialLimits {
  import opened Domain
  import opened StoreSpec
  import opened Verdict
  import opened Rpc
  import opened Machine
  import opened Invariants
  import opened Replay
  import opened Serializability
  import opened Runs
  import Keymat
  import Pagination
  import Safety

  // ------------------------------------------------------------------
  // The least that is asked of a serial order
  // ------------------------------------------------------------------

  // A reply without the limiter's decisions on DEPLETED and without a key's two
  // stamps.
  function Blur(r: Reply): Reply {
    if r.KeyReply? then KeyReply(r.key.(updatedAt := 0, lastVerifiedAt := None), r.plaintext) else Plain(r)
  }

  // It respects real time and gives every call the reply it got, blurred.
  ghost predicate Serializes(x: Setting, w: World, order: seq<nat>) {
    && (forall c :: c in order <==> c in w.calls && c !in x.w0.calls)
    && (forall i, j :: 0 <= i < j < |order| ==> order[i] != order[j])
    && InOrder(w, order)
    && (forall i :: 0 <= i < |order| ==>
          Finished(w.calls[order[i]]) && Blur(SerialReply(x, Requests(w), order, i)) == Blur(Given(w.calls[order[i]])))
  }

  lemma SameBlur(a: Reply, b: Reply)
    requires SameAnswer(a, b)
    ensures Blur(a) == Blur(b)
  {
    if a.KeyReply? && b.KeyReply? {
      assert a.key.(updatedAt := 0, lastVerifiedAt := None) == Untouched(a.key).(updatedAt := 0);
      assert b.key.(updatedAt := 0, lastVerifiedAt := None) == Untouched(b.key).(updatedAt := 0);
    }
  }

  lemma SerialOrderSerializes(x: Setting, w: World, order: seq<nat>)
    requires SerialOrder(x, w, order)
    ensures Serializes(x, w, order)
  {
    forall i | 0 <= i < |order|
      ensures Blur(SerialReply(x, Requests(w), order, i)) == Blur(Given(w.calls[order[i]]))
    {
      SameBlur(SerialReply(x, Requests(w), order, i), Given(w.calls[order[i]]));
    }
  }

  predicate ToldValid(r: Reply) {
    r.VerifyReply? && r.response.valid
  }

  predicate ToldDepleted(r: Reply) {
    r.VerifyReply? && r.response.result.DEPLETED?
  }

  // What the reply given in position i says of the reply replayed there.
  lemma GivenAt(x: Setting, w: World, order: seq<nat>, i: nat)
    requires Serializes(x, w, order) && i < |order|
    ensures order[i] in w.calls && Finished(w.calls[order[i]])
    ensures var given, replayed := Given(w.calls[order[i]]), SerialReply(x, Requests(w), order, i);
            && (ToldValid(given) ==> ToldValid(replayed))
            && (ToldDepleted(given) ==> ToldDepleted(replayed))
            && (given.KeyReply? ==>
                  && replayed.KeyReply? && replayed.plaintext == given.plaintext
                  && replayed.key.remainingUses == given.key.remainingUses)
  {
    var given, replayed := Given(w.calls[order[i]]), SerialReply(x, Requests(w), order, i);
    assert Blur(replayed) == Blur(given);
    if given.KeyReply? {
      assert Blur(given).key.remainingUses == given.key.remainingUses;
      assert Blur(replayed).key.remainingUses == replayed.key.remainingUses;
    }
  }

  // ------------------------------------------------------------------
  // The families of runs
  // ------------------------------------------------------------------

  // A verify looks up the key or nothing; a revoke, read or rotate names it.
  predicate AboutKey(x: Setting, req: Request) {
    match req
    case VerifyKey(verify) =>
      var h := x.cfg.sha(verify.plaintext);
      h in x.w0.store.hashIndex ==> x.w0.store.hashIndex[h] == x.id
    case RevokeKey(id) => id == x.id
    case GetKey(id) => id == x.id
    case RotateKey(id) => id == x.id
    case _ => false
  }

  predicate VerifyRevokeRead(req: Request) {
    req.VerifyKey? || req.RevokeKey? || req.GetKey?
  }

  predicate VerifyRotate(req: Request) {
    req.VerifyKey? || req.RotateKey?
  }

  predicate AnyOnKey(req: Request) {
    VerifyRevokeRead(req) || req.RotateKey?
  }

  predicate DoneAsAsked(x: Setting, w: World, c: nat, kind: Request -> bool)
    requires c in w.calls
  {
    && Finished(w.calls[c])
    && (c !in x.w0.calls ==> AboutKey(x, RequestOf(w.calls[c])) && kind(RequestOf(w.calls[c])))
  }

  // Every call begun since w0 is of this kind and about the key, and all calls
  // have finished.
  ghost predicate CompleteRun(x: Setting, es: seq<Event>, kind: Request -> bool) {
    Legal(x.cfg, x.w0, es) && (var w := Exec(x.cfg, x.w0, es); forall c <- w.calls :: DoneAsAsked(x, w, c, kind))
  }

  // With the readings the calls took in the run.
  ghost predicate HasSerialOrder(x: Setting, es: seq<Event>)
    requires Legal(x.cfg, x.w0, es)
  {
    exists y: Setting, order ::
      y == x.(envs := y.envs) && ReadsRun(y, es) && Serializes(y, Exec(x.cfg, x.w0, es), order)
  }

  // No order will do, whatever the calls are said to have read.
  ghost predicate NoSerialOrder(x: Setting, w: World) {
    forall y: Setting, order :: y == x.(envs := y.envs) ==> !Serializes(y, w, order)
  }

  // Every complete run of such calls has a serial order.
  ghost predicate AlwaysSerial(x: Setting, kind: Request -> bool) {
    forall es :: CompleteRun(x, es, kind) ==> HasSerialOrder(x, es)
  }

  lemma AboutNoCredit(x: Setting, call: Call)
    requires x.id in x.w0.store.keys && !HasCredit(x.w0.store.keys[x.id]) && AboutKey(x, RequestOf(call))
    ensures SpendsNothing(x.cfg, x.w0.store, call)
  {
  }

  // Without credit every run has one, reads and rotations and all.
  lemma {:induction false} WithoutCredit(x: Setting, es: seq<Event>, kind: Request -> bool)
    requires Reachable(x.cfg, x.w0) && Quiet(x) && x.id in x.w0.store.keys && !HasCredit(x.w0.store.keys[x.id])
    requires CompleteRun(x, es, kind)
    ensures HasSerialOrder(x, es)
  {
    var w := Exec(x.cfg, x.w0, es);
    AskedInRun(x.cfg, x.w0, es);
    forall e | e in es && e.Begin? ensures SpendsNothing(x.cfg, x.w0.store, e.call) {
      assert AskedIn(x.w0, w, e) && DoneAsAsked(x, w, e.c, kind);
      AboutNoCredit(x, e.call);
    }
    assert forall c <- w.calls :: DoneAsAsked(x, w, c, kind);
    NoCreditSerializable(x, es);
    var y: Setting, order :| y == x.(envs := y.envs) && ReadsRun(y, es) && SerialOrder(y, w, order);
    SerialOrderSerializes(y, w, order);
  }

  // ------------------------------------------------------------------
  // A key with credit can be verified
  // ------------------------------------------------------------------

  // A verify run now with these readings would get as far as the key's credit.
  ghost predicate Verifiable(cfg: Config, s: State, id: string, req: VerifyRequest, env: Env) {
    && req.plaintext != "" && req.requiredPermissions == [] && req.skipRatelimit
    && cfg.sha(req.plaintext) in s.hashIndex && s.hashIndex[cfg.sha(req.plaintext)] == id
    && id != "" && id in s.keys && s.keys[id].keyId == id && s.keys[id].enabled && !Expired(s.keys[id], env.checkAt)
    && FreshEnv(s, env) && env.entropy.None?
  }

  ghost predicate CanSpend(cfg: Config, s: State, id: string, req: VerifyRequest, env: Env) {
    Verifiable(cfg, s, id, req, env) && s.keys[id].remainingUses > 0
  }

  lemma {:induction false} LongerString(ids: set<string>) returns (z: string)
    ensures z != "" && forall id <- ids :: |id| < |z|
    decreases |ids|
  {
    if ids == {} {
      z := "z";
    } else {
      var id :| id in ids;
      z := LongerString(ids - {id});
      z := z + id;
      assert forall other <- ids :: other == id || other in ids - {id};
    }
  }

  lemma {:induction false} LargerNumber(cs: set<nat>) returns (n: nat)
    ensures forall c <- cs :: c < n
    decreases |cs|
  {
    n := 0;
    if cs != {} {
      var c :| c in cs;
      n := LargerNumber(cs - {c});
      n := n + c + 1;
      assert forall d <- cs :: d == c || d in cs - {c};
    }
  }

  // In every reachable state: the last plaintext issued for the key, an unused
  // identifier and a clock reading before the expiry.
  lemma CreditCanBeSpent(x: Setting) returns (req: VerifyRequest, env: Env)
    requires Reachable(x.cfg, x.w0) && x.id in x.w0.store.keys && HasCredit(x.w0.store.keys[x.id])
    ensures CanSpend(x.cfg, x.w0.store, x.id, req, env)
    ensures x.cfg.sha(req.plaintext) == x.w0.store.keys[x.id].keyHash
  {
    var s, k := x.w0.store, x.w0.store.keys[x.id];
    ReachableInv(x.cfg, x.w0);
    var i := Safety.LastIssueIsLive(x.w0.issued, x.id);
    assert x.w0.issued[i] in x.w0.issued;
    Safety.IssuedPlaintexts(x.cfg, x.w0);
    var z := LongerString(s.workspaces.Keys + s.apis.Keys + s.keys.Keys);
    assert z !in s.workspaces.Keys + s.apis.Keys + s.keys.Keys;
    env := Env(if k.expiresAt.Some? then k.expiresAt.value - 1 else 0, 0, 0, z, None, ConsumeFailed);
    req := VerifyRequest(x.w0.issued[i].plaintext, [], true);
  }

  // ------------------------------------------------------------------
  // Serial orders of three calls
  // ------------------------------------------------------------------

  lemma {:induction false} DistinctLength(xs: seq<nat>)
    requires forall i, j :: 0 <= i < j < |xs| ==> xs[i] != xs[j]
    ensures |Pagination.Elements(xs)| == |xs|
  {
    if xs != [] {
      DistinctLength(xs[1..]);
      assert Pagination.Elements(xs) == Pagination.Elements(xs[1..]) + {xs[0]};
      assert xs[0] !in xs[1..];
    }
  }

  lemma ThreeInOrder(order: seq<nat>, a: nat, b: nat, c: nat)
    requires forall i, j :: 0 <= i < j < |order| ==> order[i] != order[j]
    requires (forall d :: d in order <==> d == a || d == b || d == c) && a != b && b != c && a != c
    ensures order == [a, b, c] || order == [a, c, b] || order == [b, a, c] || order == [b, c, a] || order == [c, a, b] || order == [c, b, a]
  {
    DistinctLength(order);
    assert Pagination.Elements(order) == {a, b, c};
    assert order[0] in order && order[1] in order && order[2] in order;
  }

  lemma {:induction false} ThreeReplies(x: Setting, reqs: map<nat, Request>, a: nat, b: nat, c: nat)
    requires a in reqs && b in reqs && c in reqs
    ensures var d, order := MemoryDriver(), [a, b, c];
            var (s1, r0) := Serve(d, x.cfg, x.w0.store, reqs[a], x.envs(a));
            var (s2, r1) := Serve(d, x.cfg, s1, reqs[b], x.envs(b));
            var r2 := Serve(d, x.cfg, s2, reqs[c], x.envs(c)).1;
            && SerialReply(x, reqs, order, 0) == r0 && SerialReply(x, reqs, order, 1) == r1
            && SerialReply(x, reqs, order, 2) == r2
  {
    assert [a, b, c][..0] == [] && [a, b, c][..1] == [a] && [a, b, c][..2] == [a, b];
    assert [a][..0] == [] && [a, b][..1] == [a];
  }

  // Of three calls, b before c, the first is a or b.
  lemma ThreeWithLast(w: World, order: seq<nat>, a: nat, b: nat, c: nat)
    requires forall i, j :: 0 <= i < j < |order| ==> order[i] != order[j]
    requires (forall d :: d in order <==> d == a || d == b || d == c) && a != b && b != c && a != c
    requires InOrder(w, order) && c in w.before && b in w.before[c]
    ensures order == [a, b, c] || order == [b, a, c] || order == [b, c, a]
  {
    ThreeInOrder(order, a, b, c);
    assert MayPrecede(w, order[0], order[1]) && MayPrecede(w, order[0], order[2]) && MayPrecede(w, order[1], order[2]);
  }

  // ------------------------------------------------------------------
  // Reads
  // ------------------------------------------------------------------

  // Calls v, r and d verified, revoked and read the key: the verify was told
  // VALID; the read began after the revoke had ended and saw all the uses.
  ghost predicate SawUnspent(x: Setting, w: World, v: nat, r: nat, d: nat, req: VerifyRequest)
    requires x.id in x.w0.store.keys
  {
    && v != r && r != d && v != d && v !in x.w0.calls && r !in x.w0.calls && d !in x.w0.calls
    && w.calls.Keys == x.w0.calls.Keys + {v, r, d} && (forall c <- w.calls :: Finished(w.calls[c]))
    && d in w.before && r in w.before[d]
    && RequestOf(w.calls[v]) == VerifyKey(req) && ToldValid(Given(w.calls[v]))
    && RequestOf(w.calls[r]) == RevokeKey(x.id)
    && RequestOf(w.calls[d]) == GetKey(x.id) && Given(w.calls[d]).KeyReply?
    && Given(w.calls[d]).key.remainingUses == x.w0.store.keys[x.id].remainingUses
  }

  // The verify looks the key up and the revoke comes after it.
  lemma LooksUpThenRevokes(x: Setting, v: nat, r: nat, req: VerifyRequest, env: Env) returns (es: seq<Event>, w: World)
    requires CanSpend(x.cfg, x.w0.store, x.id, req, env) && v != r && v !in x.w0.calls && r !in x.w0.calls
    ensures var k := x.w0.store.keys[x.id];
            && RunsTo(x.cfg, x.w0, es, w)
            && w.calls == x.w0.calls[v := Verify(req, Check(k))][r := Revoke(x.id, Some(RevokedReply))]
            && w.store == x.w0.store.(keys := x.w0.store.keys[x.id := k.(enabled := false, updatedAt := env.storeAt)])
  {
    var k := x.w0.store.keys[x.id];
    NoEvents(x.cfg, x.w0);
    es, w := LooksUp(x.cfg, x.w0, [], x.w0, v, env, req, k);
    es, w := Whole(x.cfg, x.w0, es, w, r, Revoke(x.id, None), env, Writing(OpRevoke(x.id, env.storeAt), Revoke(x.id, Some(RevokedReply))));
  }

  lemma ThenReads(cfg: Config, w0: World, es: seq<Event>, w: World, r: nat, d: nat, id: string, env: Env)
    returns (es': seq<Event>, w': World)
    requires RunsTo(cfg, w0, es, w) && r in w.calls && Finished(w.calls[r]) && d !in w.calls
    requires id != "" && id in w.store.keys && FreshEnv(w.store, env) && env.entropy.None?
    ensures RunsTo(cfg, w0, es', w') && w'.store == w.store && d in w'.before && r in w'.before[d]
    ensures w'.calls == w.calls[d := Read(id, Some(KeyReply(ToWire(w.store.keys[id]), "")))]
  {
    es', w' := Whole(cfg, w0, es, w, d, Read(id, None), env, Local(Read(id, Some(KeyReply(ToWire(w.store.keys[id]), "")))));
    assert r in FinishedCalls(w);
  }

  lemma ThreeEnded(x: Setting, w: World, v: nat, r: nat, d: nat, req: VerifyRequest, k: Key, at: Time, shown: Key)
    requires v != r && r != d && v != d && v !in x.w0.calls && r !in x.w0.calls && d !in x.w0.calls
    requires Quiet(x) && d in w.before && r in w.before[d]
    requires w.calls == x.w0.calls[v := Verify(req, Check(k))][r := Revoke(x.id, Some(RevokedReply))]
                                  [d := Read(x.id, Some(KeyReply(shown, "")))][v := Verify(req, Answered(Respond(k, VALID, []), at))]
    requires x.id in x.w0.store.keys && shown.remainingUses == x.w0.store.keys[x.id].remainingUses
    ensures SawUnspent(x, w, v, r, d, req)
  {
  }

  // A verify looks the key up; the key is revoked; a read that begins then still
  // shows all its uses; and the verify goes on to spend one.
  lemma ReadRun(x: Setting, v: nat, r: nat, d: nat, req: VerifyRequest, env: Env) returns (es: seq<Event>, w: World)
    requires CanSpend(x.cfg, x.w0.store, x.id, req, env) && Quiet(x)
    requires v != r && r != d && v != d && v !in x.w0.calls && r !in x.w0.calls && d !in x.w0.calls
    ensures RunsTo(x.cfg, x.w0, es, w) && SawUnspent(x, w, v, r, d, req)
  {
    es, w := LooksUpThenRevokes(x, v, r, req, env);
    var k, shown := x.w0.store.keys[x.id], ToWire(w.store.keys[x.id]);
    es, w := ThenReads(x.cfg, x.w0, es, w, r, d, x.id, env);
    es, w := SpendsAfterCheck(x.cfg, x.w0, es, w, v, env, req, k);
    ThreeEnded(x, w, v, r, d, req, k, env.checkAt, shown);
  }

  // The plaintext looks up this key, which has uses left.
  predicate Finds(cfg: Config, s: State, id: string, req: VerifyRequest) {
    && cfg.sha(req.plaintext) in s.hashIndex && s.hashIndex[cfg.sha(req.plaintext)] == id
    && id in s.keys && s.keys[id].keyId == id && s.keys[id].remainingUses > 0
  }

  // Run alone, a verify told VALID spends one of them, and none is told DEPLETED.
  lemma AloneSpends(cfg: Config, s: State, id: string, req: VerifyRequest, env: Env)
    requires Finds(cfg, s, id, req)
    ensures var (s', r) := Serve(MemoryDriver(), cfg, s, VerifyKey(req), env);
            && !ToldDepleted(r)
            && (ToldValid(r) ==> s.keys[id].enabled && id in s'.keys && s'.keys[id].remainingUses == s.keys[id].remainingUses - 1)
  {
  }

  lemma AloneRevokes(cfg: Config, s: State, id: string, env: Env)
    requires id != "" && id in s.keys
    ensures var s' := Serve(MemoryDriver(), cfg, s, RevokeKey(id), env).0;
            && s'.hashIndex == s.hashIndex && id in s'.keys && !s'.keys[id].enabled
            && s'.keys[id].remainingUses == s.keys[id].remainingUses && s'.keys[id].keyId == s.keys[id].keyId
  {
  }

  lemma AloneReads(cfg: Config, s: State, id: string, env: Env)
    requires id != "" && id in s.keys
    ensures Serve(MemoryDriver(), cfg, s, GetKey(id), env) == (s, KeyReply(ToWire(s.keys[id]), ""))
  {
  }

  // Verify, revoke, read: the read no longer sees all the uses.
  lemma {:induction false} NotVerifyFirst(x: Setting, w: World, v: nat, r: nat, d: nat, req: VerifyRequest)
    requires x.id != "" && Finds(x.cfg, x.w0.store, x.id, req) && SawUnspent(x, w, v, r, d, req)
    ensures !Serializes(x, w, [v, r, d])
  {
    if Serializes(x, w, [v, r, d]) {
      GivenAt(x, w, [v, r, d], 0);
      GivenAt(x, w, [v, r, d], 2);
      ThreeReplies(x, Requests(w), v, r, d);
      AloneSpends(x.cfg, x.w0.store, x.id, req, x.envs(v));
      var s1 := Serve(MemoryDriver(), x.cfg, x.w0.store, VerifyKey(req), x.envs(v)).0;
      AloneRevokes(x.cfg, s1, x.id, x.envs(r));
      AloneReads(x.cfg, Serve(MemoryDriver(), x.cfg, s1, RevokeKey(x.id), x.envs(r)).0, x.id, x.envs(d));
    }
  }

  // Revoke, then verify, with or without a read between: the verify is refused.
  lemma {:induction false} NotRevokeFirst(x: Setting, w: World, v: nat, r: nat, d: nat, req: VerifyRequest)
    requires x.id != "" && Finds(x.cfg, x.w0.store, x.id, req) && SawUnspent(x, w, v, r, d, req)
    ensures !Serializes(x, w, [r, v, d]) && !Serializes(x, w, [r, d, v])
  {
    var s1 := Serve(MemoryDriver(), x.cfg, x.w0.store, RevokeKey(x.id), x.envs(r)).0;
    AloneRevokes(x.cfg, x.w0.store, x.id, x.envs(r));
    AloneReads(x.cfg, s1, x.id, x.envs(d));
    AloneSpends(x.cfg, s1, x.id, req, x.envs(v));
    if Serializes(x, w, [r, v, d]) {
      GivenAt(x, w, [r, v, d], 1);
      ThreeReplies(x, Requests(w), r, v, d);
    }
    if Serializes(x, w, [r, d, v]) {
      GivenAt(x, w, [r, d, v], 2);
      ThreeReplies(x, Requests(w), r, d, v);
    }
  }

  lemma OrdersOfThree(w0: World, w: World, v: nat, r: nat, d: nat, order: seq<nat>)
    requires v != r && r != d && v != d && v !in w0.calls && r !in w0.calls && d !in w0.calls
    requires w.calls.Keys == w0.calls.Keys + {v, r, d} && d in w.before && r in w.before[d]
    requires (forall c :: c in order <==> c in w.calls && c !in w0.calls) && InOrder(w, order)
    requires forall i, j :: 0 <= i < j < |order| ==> order[i] != order[j]
    ensures order == [v, r, d] || order == [r, v, d] || order == [r, d, v]
  {
    forall c ensures c in order <==> c == v || c == r || c == d {
      assert c in w.calls <==> c in w0.calls.Keys + {v, r, d};
    }
    ThreeWithLast(w, order, v, r, d);
  }

  lemma NoReadOrder(x: Setting, w: World, v: nat, r: nat, d: nat, req: VerifyRequest)
    requires x.id != "" && Finds(x.cfg, x.w0.store, x.id, req) && SawUnspent(x, w, v, r, d, req)
    ensures NoSerialOrder(x, w)
  {
    forall y: Setting, order | y == x.(envs := y.envs) ensures !Serializes(y, w, order) {
      NotVerifyFirst(y, w, v, r, d, req);
      NotRevokeFirst(y, w, v, r, d, req);
      if Serializes(y, w, order) {
        OrdersOfThree(y.w0, w, v, r, d, order);
      }
    }
  }

  lemma SawUnspentDone(x: Setting, w: World, v: nat, r: nat, d: nat, req: VerifyRequest)
    requires Finds(x.cfg, x.w0.store, x.id, req) && SawUnspent(x, w, v, r, d, req)
    ensures forall c <- w.calls :: DoneAsAsked(x, w, c, VerifyRevokeRead)
  {
    forall c | c in w.calls ensures DoneAsAsked(x, w, c, VerifyRevokeRead) {
      assert c in x.w0.calls || c == v || c == r || c == d;
    }
  }

  lemma ReadRunHasNoOrder(x: Setting, v: nat, r: nat, d: nat, req: VerifyRequest, env: Env) returns (es: seq<Event>)
    requires CanSpend(x.cfg, x.w0.store, x.id, req, env) && Quiet(x)
    requires v != r && r != d && v != d && v !in x.w0.calls && r !in x.w0.calls && d !in x.w0.calls
    ensures CompleteRun(x, es, VerifyRevokeRead) && NoSerialOrder(x, Exec(x.cfg, x.w0, es))
  {
    var w;
    es, w := ReadRun(x, v, r, d, req, env);
    SawUnspentDone(x, w, v, r, d, req);
    NoReadOrder(x, w, v, r, d, req);
  }

  // From every reachable state at rest, and for every key in it with credit:
  // a run of a verify, a revoke and a read of the key that no serial order
  // explains, whatever the calls are said to have read.
  lemma ReadsNotSerializable(x: Setting) returns (es: seq<Event>)
    requires Reachable(x.cfg, x.w0) && Quiet(x) && x.id in x.w0.store.keys && HasCredit(x.w0.store.keys[x.id])
    ensures CompleteRun(x, es, VerifyRevokeRead) && NoSerialOrder(x, Exec(x.cfg, x.w0, es))
  {
    var req, env := CreditCanBeSpent(x);
    var n := LargerNumber(x.w0.calls.Keys);
    assert forall c <- x.w0.calls :: c in x.w0.calls.Keys;
    es := ReadRunHasNoOrder(x, n, n + 1, n + 2, req, env);
  }

  // Runs of verify, revoke and read calls on a key always have a serial order
  // exactly when it has no credit at the start.
  lemma ReadsSerializeIff(x: Setting)
    requires Reachable(x.cfg, x.w0) && Quiet(x) && x.id in x.w0.store.keys
    ensures AlwaysSerial(x, VerifyRevokeRead) <==> !HasCredit(x.w0.store.keys[x.id])
  {
    if HasCredit(x.w0.store.keys[x.id]) {
      var es := ReadsNotSerializable(x);
      assert !HasSerialOrder(x, es);
    } else {
      forall es | CompleteRun(x, es, VerifyRevokeRead) ensures HasSerialOrder(x, es) {
        WithoutCredit(x, es, VerifyRevokeRead);
      }
    }
  }

  // Runs of any of the four kinds of call, likewise.
  lemma OnKeySerializeIff(x: Setting)
    requires Reachable(x.cfg, x.w0) && Quiet(x) && x.id in x.w0.store.keys
    ensures AlwaysSerial(x, AnyOnKey) <==> !HasCredit(x.w0.store.keys[x.id])
  {
    if HasCredit(x.w0.store.keys[x.id]) {
      var es := ReadsNotSerializable(x);
      var w := Exec(x.cfg, x.w0, es);
      forall c | c in w.calls ensures DoneAsAsked(x, w, c, AnyOnKey) {
        assert DoneAsAsked(x, w, c, VerifyRevokeRead);
      }
      assert CompleteRun(x, es, AnyOnKey) && !HasSerialOrder(x, es);
    } else {
      forall es | CompleteRun(x, es, AnyOnKey) ensures HasSerialOrder(x, es) {
        WithoutCredit(x, es, AnyOnKey);
      }
    }
  }

  // ------------------------------------------------------------------
  // Rotations
  // ------------------------------------------------------------------

  function RotatedKey(cfg: Config, k: Key, plaintext: string, env: Env): Key {
    k.(keyHash := cfg.sha(plaintext), updatedAt := env.storeAt)
  }

  lemma {:induction false} StartsRotate(cfg: Config, w0: World, es: seq<Event>, w: World, t: nat, id: string, env: Env)
    returns (es': seq<Event>, w': World)
    requires RunsTo(cfg, w0, es, w) && t !in w.calls && FreshEnv(w.store, env) && env.entropy.None?
    requires id != "" && id in w.store.keys
    ensures RunsTo(cfg, w0, es', w')
    ensures w' == w.(calls := w.calls[t := Rotate(id, ReadKeyApi(w.store.keys[id]))], before := w.before[t := FinishedCalls(w)])
  {
    es', w' := Whole(cfg, w0, es, w, t, Rotate(id, ReadKey), env, Local(Rotate(id, ReadKeyApi(w.store.keys[id]))));
  }

  lemma DrawsPlaintext(cfg: Config, w0: World, es: seq<Event>, w: World, t: nat, id: string, k: Key, env: Env, e2: Bytes)
    returns (es': seq<Event>, w': World)
    requires RunsTo(cfg, w0, es, w) && t in w.calls && w.calls[t] == Rotate(id, ReadKeyApi(k)) && FreshEnv(w.store, env)
    requires |e2| == Keymat.RANDOM_BYTES && e2 !in w.drawn && k.apiId in w.store.apis
    ensures RunsTo(cfg, w0, es', w') && w'.store == w.store && w'.before == w.before
    ensures w'.calls == w.calls[t := Rotate(id, Commit(Keymat.Plaintext(w.store.apis[k.apiId].keyPrefix, e2)))]
  {
    es', w' := Then(cfg, w0, es, w, Step(t, env.(entropy := Some(e2))));
  }

  lemma CommitsRotate(cfg: Config, w0: World, es: seq<Event>, w: World, t: nat, id: string, p: string, env: Env)
    returns (es': seq<Event>, w': World)
    requires RunsTo(cfg, w0, es, w) && t in w.calls && w.calls[t] == Rotate(id, Commit(p)) && FreshEnv(w.store, env)
    requires env.entropy.None? && id in w.store.keys && cfg.sha(p) !in w.store.hashIndex
    ensures var k := w.store.keys[id];
            var k' := RotatedKey(cfg, k, p, env);
            && RunsTo(cfg, w0, es', w') && w'.before == w.before
            && w'.calls == w.calls[t := Rotate(id, Rotated(KeyReply(ToWire(k'), p)))]
            && w'.store == w.store.(keys := w.store.keys[id := k'],
                                    hashIndex := (w.store.hashIndex - {k.keyHash})[k'.keyHash := id])
  {
    es', w' := Then(cfg, w0, es, w, Step(t, env));
  }

  // A rotate runs whole and issues the plaintext made from these random bytes.
  lemma {:induction false} Rotates(cfg: Config, w0: World, es: seq<Event>, w: World, t: nat, id: string, env: Env, e2: Bytes)
    returns (es': seq<Event>, w': World)
    requires RunsTo(cfg, w0, es, w) && t !in w.calls && FreshEnv(w.store, env) && env.entropy.None?
    requires id != "" && id in w.store.keys && w.store.keys[id].apiId in w.store.apis
    requires |e2| == Keymat.RANDOM_BYTES && e2 !in w.drawn
    requires cfg.sha(Keymat.Plaintext(w.store.apis[w.store.keys[id].apiId].keyPrefix, e2)) !in w.store.hashIndex
    ensures var k, p := w.store.keys[id], Keymat.Plaintext(w.store.apis[w.store.keys[id].apiId].keyPrefix, e2);
            var k' := RotatedKey(cfg, k, p, env);
            && RunsTo(cfg, w0, es', w') && w'.before == w.before[t := FinishedCalls(w)]
            && w'.calls == w.calls[t := Rotate(id, Rotated(KeyReply(ToWire(k'), p)))]
            && w'.store == w.store.(keys := w.store.keys[id := k'],
                                    hashIndex := (w.store.hashIndex - {k.keyHash})[k'.keyHash := id])
  {
    var k := w.store.keys[id];
    var p := Keymat.Plaintext(w.store.apis[k.apiId].keyPrefix, e2);
    es', w' := StartsRotate(cfg, w0, es, w, t, id, env);
    es', w' := DrawsPlaintext(cfg, w0, es', w', t, id, k, env, e2);
    es', w' := CommitsRotate(cfg, w0, es', w', t, id, p, env);
    assert w.calls[t := Rotate(id, ReadKeyApi(k))][t := Rotate(id, Commit(p))] == w.calls[t := Rotate(id, Commit(p))];
  }

  // w' adds to w verify calls of this kind that have finished, each begun after
  // t had.
  predicate Later(w: World, w': World, t: nat, req: VerifyRequest, c: nat) {
    if c in w.calls then c in w'.calls && w'.calls[c] == w.calls[c]
    else c in w'.calls ==>
           && Finished(w'.calls[c]) && RequestOf(w'.calls[c]) == VerifyKey(req)
           && c in w'.before && t in w'.before[c]
  }

  ghost predicate VerifiesAdded(w: World, w': World, t: nat, req: VerifyRequest) {
    && (forall c: nat :: Later(w, w', t, req, c))
    && (forall c <- w.before :: c in w'.before && w'.before[c] == w.before[c])
  }

  lemma VerifiesAddedOn(w: World, mid: World, w': World, t: nat, req: VerifyRequest)
    requires VerifiesAdded(w, mid, t, req) && VerifiesAdded(mid, w', t, req)
    ensures VerifiesAdded(w, w', t, req)
  {
    forall c: nat ensures Later(w, w', t, req, c) {
      assert Later(w, mid, t, req, c) && Later(mid, w', t, req, c);
    }
  }

  ghost predicate UnusedFrom(w: World, c: nat) {
    forall d: nat :: c <= d ==> d !in w.calls && d !in w.before
  }

  // One verify runs whole and spends a use.
  lemma SpendsOne(cfg: Config, w0: World, es: seq<Event>, w: World, c: nat, t: nat, id: string, req: VerifyRequest, env: Env)
    returns (es': seq<Event>, w': World)
    requires RunsTo(cfg, w0, es, w) && c !in w.calls && c !in w.before && t in w.calls && Finished(w.calls[t])
    requires CanSpend(cfg, w.store, id, req, env)
    ensures RunsTo(cfg, w0, es', w') && w'.calls.Keys == w.calls.Keys + {c} && w'.before.Keys == w.before.Keys + {c}
    ensures VerifiesAdded(w, w', t, req) && Verifiable(cfg, w'.store, id, req, env)
    ensures w'.store.keys[id].remainingUses == w.store.keys[id].remainingUses - 1
  {
    var k := w.store.keys[id];
    assert t in FinishedCalls(w);
    es', w' := LooksUp(cfg, w0, es, w, c, env, req, k);
    es', w' := SpendsAfterCheck(cfg, w0, es', w', c, env, req, k);
  }

  // Verify calls numbered from c on run one after another until no use is left.
  lemma {:induction false} SpendsAll(cfg: Config, w0: World, es: seq<Event>, w: World, c: nat, t: nat, id: string, req: VerifyRequest, env: Env)
    returns (es': seq<Event>, w': World)
    requires RunsTo(cfg, w0, es, w) && UnusedFrom(w, c) && t in w.calls && Finished(w.calls[t])
    requires Verifiable(cfg, w.store, id, req, env) && w.store.keys[id].remainingUses >= 0
    ensures RunsTo(cfg, w0, es', w') && VerifiesAdded(w, w', t, req)
    ensures Verifiable(cfg, w'.store, id, req, env) && w'.store.keys[id].remainingUses == 0
    decreases w.store.keys[id].remainingUses
  {
    es', w' := es, w;
    if w.store.keys[id].remainingUses > 0 {
      var mid;
      es', mid := SpendsOne(cfg, w0, es, w, c, t, id, req, env);
      assert Later(w, mid, t, req, t);
      es', w' := SpendsAll(cfg, w0, es', mid, c + 1, t, id, req, env);
      VerifiesAddedOn(w, mid, w', t, req);
    }
  }

  // Calls o and t verified the plaintext of the start and rotated the key: o was
  // told DEPLETED; all other calls verified the plaintext that t issued, after t.
  predicate Outrun(x: Setting, w: World, o: nat, t: nat, older: VerifyRequest, newer: VerifyRequest, c: nat)
    requires c in w.calls
  {
    && Finished(w.calls[c])
    && (c !in x.w0.calls ==>
          if c == o then RequestOf(w.calls[c]) == VerifyKey(older) && ToldDepleted(Given(w.calls[c]))
          else if c == t then RequestOf(w.calls[c]) == RotateKey(x.id) && Issued(Given(w.calls[c]), newer.plaintext)
          else RequestOf(w.calls[c]) == VerifyKey(newer) && c in w.before && t in w.before[c])
  }

  predicate Issued(r: Reply, plaintext: string) {
    r.KeyReply? && r.plaintext == plaintext
  }

  ghost predicate LostToNewer(x: Setting, w: World, o: nat, t: nat, older: VerifyRequest, newer: VerifyRequest) {
    && o != t && o in w.calls && t in w.calls && o !in x.w0.calls && t !in x.w0.calls
    && (forall c <- w.calls :: Outrun(x, w, o, t, older, newer, c))
  }

  // The plaintext these random bytes would give the key.
  function NextPlaintext(x: Setting, e2: Bytes): string
    requires x.id in x.w0.store.keys
  {
    var apiId := x.w0.store.keys[x.id].apiId;
    Keymat.Plaintext(if apiId in x.w0.store.apis then x.w0.store.apis[apiId].keyPrefix else "", e2)
  }

  // These random bytes are unused and give a plaintext with a hash of its own.
  ghost predicate Drawable(x: Setting, e2: Bytes)
    requires x.id in x.w0.store.keys
  {
    |e2| == Keymat.RANDOM_BYTES && e2 !in x.w0.drawn && x.cfg.sha(NextPlaintext(x, e2)) !in x.w0.store.hashIndex
  }

  // A verify looks the key up and the key is rotated.
  lemma LooksUpThenRotates(x: Setting, o: nat, t: nat, older: VerifyRequest, newer: VerifyRequest, env: Env, e2: Bytes)
    returns (es: seq<Event>, w: World)
    requires CanSpend(x.cfg, x.w0.store, x.id, older, env) && o != t && o !in x.w0.calls && t !in x.w0.calls
    requires x.w0.store.keys[x.id].apiId in x.w0.store.apis && Drawable(x, e2)
    requires newer == older.(plaintext := NextPlaintext(x, e2))
    ensures var k := x.w0.store.keys[x.id];
            && RunsTo(x.cfg, x.w0, es, w) && Verifiable(x.cfg, w.store, x.id, newer, env)
            && w.store.keys[x.id].remainingUses == k.remainingUses
            && w.before.Keys == x.w0.before.Keys + {o, t}
            && t in w.calls && Finished(w.calls[t]) && Issued(Given(w.calls[t]), newer.plaintext)
            && w.calls == x.w0.calls[o := Verify(older, Check(k))][t := w.calls[t]] && RequestOf(w.calls[t]) == RotateKey(x.id)
  {
    var k := x.w0.store.keys[x.id];
    NoEvents(x.cfg, x.w0);
    es, w := LooksUp(x.cfg, x.w0, [], x.w0, o, env, older, k);
    es, w := Rotates(x.cfg, x.w0, es, w, t, x.id, env, e2);
    RotatedVerifiable(x, older, env, e2);
  }

  lemma RotatedVerifiable(x: Setting, older: VerifyRequest, env: Env, e2: Bytes)
    requires Verifiable(x.cfg, x.w0.store, x.id, older, env) && Drawable(x, e2)
    ensures var p, s := NextPlaintext(x, e2), x.w0.store;
            var k' := RotatedKey(x.cfg, s.keys[x.id], p, env);
            Verifiable(x.cfg, s.(keys := s.keys[x.id := k'], hashIndex := (s.hashIndex - {s.keys[x.id].keyHash})[k'.keyHash := x.id]),
                       x.id, older.(plaintext := p), env)
  {
    var apiId := x.w0.store.keys[x.id].apiId;
    Keymat.PlaintextShape(if apiId in x.w0.store.apis then x.w0.store.apis[apiId].keyPrefix else "", e2);
  }

  // The other verifies run, and the first finds no use left.
  lemma LosesToNewer(cfg: Config, w0: World, es: seq<Event>, w: World, o: nat, t: nat, c: nat, id: string, k: Key,
                     older: VerifyRequest, newer: VerifyRequest, env: Env)
    returns (es': seq<Event>, w': World)
    requires RunsTo(cfg, w0, es, w) && UnusedFrom(w, c) && t in w.calls && Finished(w.calls[t]) && o in w.calls && o != t
    requires w.calls[o] == Verify(older, Check(k)) && k.keyId == id && HasCredit(k) && !Expired(k, env.checkAt)
    requires older.skipRatelimit && older.requiredPermissions == []
    requires Verifiable(cfg, w.store, id, newer, env) && w.store.keys[id].remainingUses >= 0
    ensures RunsTo(cfg, w0, es', w') && o in w'.calls && Finished(w'.calls[o])
    ensures RequestOf(w'.calls[o]) == VerifyKey(older) && ToldDepleted(Given(w'.calls[o]))
    ensures forall d: nat :: d != o ==> Later(w, w', t, newer, d)
  {
    es', w' := SpendsAll(cfg, w0, es, w, c, t, id, newer, env);
    assert Later(w, w', t, newer, o);
    var mid := w';
    es', w' := ReachesSpend(cfg, w0, es', w', o, env, older, k);
    es', w' := SpendsTooLate(cfg, w0, es', w', o, env, older, k, []);
    forall d: nat | d != o ensures Later(w, w', t, newer, d) {
      assert Later(w, mid, t, newer, d);
    }
  }

  lemma RotateRunEnded(x: Setting, w: World, w': World, o: nat, t: nat, older: VerifyRequest, newer: VerifyRequest, call: Call)
    requires Quiet(x) && o != t && o !in x.w0.calls && t !in x.w0.calls && t in w.calls && Finished(w.calls[t])
    requires w.calls == x.w0.calls[o := call][t := w.calls[t]]
    requires RequestOf(w.calls[t]) == RotateKey(x.id) && Issued(Given(w.calls[t]), newer.plaintext)
    requires o in w'.calls && Finished(w'.calls[o]) && RequestOf(w'.calls[o]) == VerifyKey(older) && ToldDepleted(Given(w'.calls[o]))
    requires forall d: nat :: d != o ==> Later(w, w', t, newer, d)
    ensures LostToNewer(x, w', o, t, older, newer)
  {
    assert Later(w, w', t, newer, t);
    forall c | c in w'.calls ensures Outrun(x, w', o, t, older, newer, c) {
      assert c != o ==> Later(w, w', t, newer, c);
      assert c in x.w0.calls ==> c in w.calls && w.calls[c] == x.w0.calls[c];
    }
  }

  // A verify looks the key up; the key is rotated; verifies of the new plaintext
  // spend all the uses; and the first verify finds none left.
  lemma RotateRun(x: Setting, o: nat, older: VerifyRequest, newer: VerifyRequest, env: Env, e2: Bytes)
    returns (es: seq<Event>, w: World)
    requires CanSpend(x.cfg, x.w0.store, x.id, older, env) && Quiet(x) && UnusedFrom(x.w0, o)
    requires x.w0.store.keys[x.id].apiId in x.w0.store.apis && Drawable(x, e2)
    requires newer == older.(plaintext := NextPlaintext(x, e2))
    ensures RunsTo(x.cfg, x.w0, es, w) && LostToNewer(x, w, o, o + 1, older, newer)
  {
    var k := x.w0.store.keys[x.id];
    var mid;
    es, mid := LooksUpThenRotates(x, o, o + 1, older, newer, env, e2);
    assert UnusedFrom(mid, o + 2);
    es, w := LosesToNewer(x.cfg, x.w0, es, mid, o, o + 1, o + 2, x.id, k, older, newer, env);
    RotateRunEnded(x, mid, w, o, o + 1, older, newer, Verify(older, Check(k)));
  }

  lemma LostToNewerDone(x: Setting, w: World, o: nat, t: nat, older: VerifyRequest, newer: VerifyRequest)
    requires LostToNewer(x, w, o, t, older, newer) && Finds(x.cfg, x.w0.store, x.id, older)
    requires x.cfg.sha(newer.plaintext) !in x.w0.store.hashIndex
    ensures forall c <- w.calls :: DoneAsAsked(x, w, c, VerifyRotate)
  {
    forall c | c in w.calls ensures DoneAsAsked(x, w, c, VerifyRotate) {
      assert Outrun(x, w, o, t, older, newer, c);
    }
  }

  // Once a rotate has issued another hash, verifies do not bring the old one
  // back, and a verify of it finds nothing.
  lemma RotateDropsHash(cfg: Config, s: State, id: string, env: Env, h: Bytes)
    requires id in s.keys && s.keys[id].keyHash == h
    ensures var (s', r) := Serve(MemoryDriver(), cfg, s, RotateKey(id), env);
            r.KeyReply? && cfg.sha(r.plaintext) != h ==> h !in s'.hashIndex
  {
  }

  lemma VerifyKeepsIndex(cfg: Config, s: State, req: VerifyRequest, env: Env)
    ensures Serve(MemoryDriver(), cfg, s, VerifyKey(req), env).0.hashIndex == s.hashIndex
  {
  }

  lemma VerifyOfNothing(cfg: Config, s: State, req: VerifyRequest, env: Env)
    requires cfg.sha(req.plaintext) !in s.hashIndex
    ensures !ToldDepleted(Serve(MemoryDriver(), cfg, s, VerifyKey(req), env).1)
  {
  }

  lemma {:induction false} HashStaysGone(x: Setting, reqs: map<nat, Request>, order: seq<nat>, i: nat, h: Bytes)
    requires 0 < i <= |order| && (forall c <- order :: c in reqs) && reqs[order[0]] == RotateKey(x.id)
    requires x.id in x.w0.store.keys && x.w0.store.keys[x.id].keyHash == h
    requires var r := SerialReply(x, reqs, order, 0); r.KeyReply? && x.cfg.sha(r.plaintext) != h
    requires forall j :: 0 < j < i ==> reqs[order[j]].VerifyKey?
    ensures (forall c <- order[..i] :: c in reqs) && h !in Serial(x, reqs, order[..i]).hashIndex
  {
    assert forall c <- order[..i] :: c in order;
    assert order[..i][..i - 1] == order[..i - 1] && order[..i][i - 1] == order[i - 1];
    if i == 1 {
      RotateDropsHash(x.cfg, x.w0.store, x.id, x.envs(order[0]), h);
    } else {
      HashStaysGone(x, reqs, order, i - 1, h);
      VerifyKeepsIndex(x.cfg, Serial(x, reqs, order[..i - 1]), reqs[order[i - 1]].verify, x.envs(order[i - 1]));
    }
  }

  // The first in the order is the verify of the old plaintext or the rotate.
  lemma FirstOfOrder(x: Setting, w: World, o: nat, t: nat, older: VerifyRequest, newer: VerifyRequest, order: seq<nat>)
    requires LostToNewer(x, w, o, t, older, newer) && InOrder(w, order)
    requires forall c :: c in order <==> c in w.calls && c !in x.w0.calls
    ensures o in order && t in order && (order[0] == o || order[0] == t)
  {
    var i :| 0 <= i < |order| && order[i] == t;
    assert order[0] in order && Outrun(x, w, o, t, older, newer, order[0]);
    if i > 0 {
      assert MayPrecede(w, order[0], order[i]);
    }
  }

  // Run first, the verify of the old plaintext would not be told DEPLETED.
  lemma {:induction false} NotOldFirst(x: Setting, w: World, o: nat, t: nat, older: VerifyRequest, newer: VerifyRequest, order: seq<nat>)
    requires LostToNewer(x, w, o, t, older, newer) && Finds(x.cfg, x.w0.store, x.id, older)
    requires Serializes(x, w, order) && order != []
    ensures order[0] != o
  {
    if order[0] == o {
      assert Outrun(x, w, o, t, older, newer, o);
      GivenAt(x, w, order, 0);
      assert order[..0] == [];
      AloneSpends(x.cfg, x.w0.store, x.id, older, x.envs(o));
    }
  }

  // Run after the rotate, it would find nothing.
  lemma {:induction false} NotRotateFirst(x: Setting, w: World, o: nat, t: nat, older: VerifyRequest, newer: VerifyRequest, order: seq<nat>)
    requires LostToNewer(x, w, o, t, older, newer) && Finds(x.cfg, x.w0.store, x.id, older)
    requires x.w0.store.keys[x.id].keyHash == x.cfg.sha(older.plaintext) != x.cfg.sha(newer.plaintext)
    requires Serializes(x, w, order) && o in order
    ensures order[0] != t
  {
    var i :| 0 <= i < |order| && order[i] == o;
    if order[0] == t {
      assert Outrun(x, w, o, t, older, newer, t) && Outrun(x, w, o, t, older, newer, o);
      GivenAt(x, w, order, 0);
      GivenAt(x, w, order, i);
      forall j | 0 < j < i ensures Requests(w)[order[j]].VerifyKey? {
        assert Outrun(x, w, o, t, older, newer, order[j]) && order[j] in order;
      }
      HashStaysGone(x, Requests(w), order, i, x.cfg.sha(older.plaintext));
      VerifyOfNothing(x.cfg, Serial(x, Requests(w), order[..i]), older, x.envs(o));
    }
  }

  lemma NoRotateOrder(x: Setting, w: World, o: nat, t: nat, older: VerifyRequest, newer: VerifyRequest)
    requires LostToNewer(x, w, o, t, older, newer) && Finds(x.cfg, x.w0.store, x.id, older)
    requires x.w0.store.keys[x.id].keyHash == x.cfg.sha(older.plaintext) != x.cfg.sha(newer.plaintext)
    ensures NoSerialOrder(x, w)
  {
    forall y: Setting, order | y == x.(envs := y.envs) ensures !Serializes(y, w, order) {
      assert LostToNewer(y, w, o, t, older, newer) by {
        assert forall c <- w.calls :: Outrun(x, w, o, t, older, newer, c) == Outrun(y, w, o, t, older, newer, c);
      }
      if Serializes(y, w, order) {
        FirstOfOrder(y, w, o, t, older, newer, order);
        NotOldFirst(y, w, o, t, older, newer, order);
        NotRotateFirst(y, w, o, t, older, newer, order);
      }
    }
  }

  lemma RotateRunHasNoOrder(x: Setting, o: nat, older: VerifyRequest, newer: VerifyRequest, env: Env, e2: Bytes)
    returns (es: seq<Event>)
    requires CanSpend(x.cfg, x.w0.store, x.id, older, env) && Quiet(x) && UnusedFrom(x.w0, o)
    requires x.w0.store.keys[x.id].keyHash == x.cfg.sha(older.plaintext)
    requires x.w0.store.keys[x.id].apiId in x.w0.store.apis && Drawable(x, e2)
    requires newer == older.(plaintext := NextPlaintext(x, e2))
    ensures CompleteRun(x, es, VerifyRotate) && NoSerialOrder(x, Exec(x.cfg, x.w0, es))
  {
    var w;
    es, w := RotateRun(x, o, older, newer, env, e2);
    LostToNewerDone(x, w, o, o + 1, older, newer);
    NoRotateOrder(x, w, o, o + 1, older, newer);
  }

  // In a reachable state every key belongs to an API.
  lemma HasApi(x: Setting)
    requires Reachable(x.cfg, x.w0) && x.id in x.w0.store.keys
    ensures x.w0.store.keys[x.id].apiId in x.w0.store.apis
  {
    Safety.TenantsConsistent(x.cfg, x.w0);
  }

  // From every reachable state at rest, and for every key in it with credit:
  // a run of verifies and a rotate of the key that no serial order explains,
  // whatever the calls are said to have read and drawn.
  lemma RotationsNotSerializable(x: Setting, e2: Bytes) returns (es: seq<Event>)
    requires Reachable(x.cfg, x.w0) && Quiet(x) && x.id in x.w0.store.keys && HasCredit(x.w0.store.keys[x.id])
    requires Drawable(x, e2)
    ensures CompleteRun(x, es, VerifyRotate) && NoSerialOrder(x, Exec(x.cfg, x.w0, es))
  {
    HasApi(x);
    ReachableInv(x.cfg, x.w0);
    var req, env := CreditCanBeSpent(x);
    var n := LargerNumber(x.w0.calls.Keys);
    assert forall c <- x.w0.calls :: c in x.w0.calls.Keys;
    es := RotateRunHasNoOrder(x, n, req, req.(plaintext := NextPlaintext(x, e2)), env, e2);
  }

  // Runs of verify and rotate calls on a key always have a serial order exactly
  // when it has no credit at the start, provided some unused random bytes give a
  // plaintext with a hash of its own.
  lemma RotationsSerializeIff(x: Setting, e2: Bytes)
    requires Reachable(x.cfg, x.w0) && Quiet(x) && x.id in x.w0.store.keys
    requires Drawable(x, e2)
    ensures AlwaysSerial(x, VerifyRotate) <==> !HasCredit(x.w0.store.keys[x.id])
  {
    if HasCredit(x.w0.store.keys[x.id]) {
      var es := RotationsNotSerializable(x, e2);
      assert !HasSerialOrder(x, es);
    } else {
      forall es | CompleteRun(x, es, VerifyRotate) ensures HasSerialOrder(x, es) {
        WithoutCredit(x, es, VerifyRotate);
      }
    }
  }
}
