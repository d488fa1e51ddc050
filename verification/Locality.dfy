/**
 Verify and revoke calls on any keys at once: each key's calls have a sequential
 order of their own, and those orders merge into one.
 */
module Locality {
  import opened Domain
  import opened StoreSpec
  import opened Verdict
  import opened Rpc
  import opened Machine
  import opened Invariants
  import opened Replay
  import opened Serializability
  import L = Linearizability
  import opened Safety

  // ------------------------------------------------------------------
  // Merging orders
  // ------------------------------------------------------------------

  // The members of one group, in the order they stand in.
  function Members<G(==)>(order: seq<nat>, group: nat -> G, g: G): (part: seq<nat>)
    ensures forall c :: c in part <==> c in order && group(c) == g
  {
    if order == [] then []
    else
      var front, c := order[..|order| - 1], order[|order| - 1];
      Members(front, group, g) + if group(c) == g then [c] else []
  }

  lemma {:induction false} MembersOfLast<G>(order: seq<nat>, group: nat -> G, g: G)
    requires order != []
    ensures var part, c := Members(order[..|order| - 1], group, g), order[|order| - 1];
            Members(order, group, g) == if group(c) == g then part + [c] else part
  {
  }

  lemma {:induction false} MembersOfCons<G>(c: nat, rest: seq<nat>, group: nat -> G, g: G)
    ensures Members([c] + rest, group, g) == (if group(c) == g then [c] else []) + Members(rest, group, g)
  {
    if rest == [] {
      assert [c] + rest == [c] && Members(rest, group, g) == [];
    } else {
      var front, d := rest[..|rest| - 1], rest[|rest| - 1];
      MembersOfCons(c, front, group, g);
      MembersOfLast(rest, group, g);
      assert ([c] + rest)[..|[c] + rest| - 1] == [c] + front && ([c] + rest)[|[c] + rest| - 1] == d;
      MembersOfLast([c] + rest, group, g);
    }
  }

  predicate Distinct(order: seq<nat>) {
    forall i, j :: 0 <= i < j < |order| ==> order[i] != order[j]
  }

  // `done` lists calls in the order they ended in. What had ended when a call
  // began is a first part of it.
  predicate EndedBy(w: World, done: seq<nat>, c: nat) {
    c in w.before && forall i, j :: 0 <= i < j < |done| && done[j] in w.before[c] ==> done[i] in w.before[c]
  }

  ghost predicate EndOrder(w: World, done: seq<nat>) {
    && Distinct(done)
    && (forall c <- done :: EndedBy(w, done, c))
    && (forall i, j :: 0 <= i <= j < |done| ==> done[i] in w.before && done[j] !in w.before[done[i]])
  }

  // The calls still to be placed, group by group.
  ghost predicate Remaining<G>(left: set<nat>, parts: map<G, seq<nat>>, group: nat -> G) {
    && (forall c <- left :: group(c) in parts && c in parts[group(c)])
    && (forall g <- parts :: forall c <- parts[g] :: c in left && group(c) == g)
  }

  ghost predicate PartsOk<G>(w: World, parts: map<G, seq<nat>>) {
    forall g <- parts :: Distinct(parts[g]) && InOrder(w, parts[g])
  }

  lemma {:induction false} FirstLeft(done: seq<nat>, left: set<nat>) returns (i: nat)
    requires left != {} && forall c <- left :: c in done
    ensures i < |done| && done[i] in left && forall j :: 0 <= j < i ==> done[j] !in left
  {
    var c :| c in left;
    i := 0;
    while done[i] !in left
      invariant i < |done| && forall j :: 0 <= j < i ==> done[j] !in left
      decreases |done| - i
    {
      assert i + 1 < |done|;
      i := i + 1;
    }
  }

  // Of the calls left take the one that ended first, and place the call that
  // comes first in its group.
  lemma NextToPlace<G>(w: World, done: seq<nat>, left: set<nat>, parts: map<G, seq<nat>>, group: nat -> G)
    returns (g: G)
    requires EndOrder(w, done) && left != {} && (forall c <- left :: c in done)
    requires Remaining(left, parts, group) && PartsOk(w, parts)
    ensures g in parts && parts[g] != []
    ensures forall c <- left :: c != parts[g][0] ==> MayPrecede(w, parts[g][0], c)
  {
    var i := FirstLeft(done, left);
    g := group(done[i]);
    var h := parts[g][0];
    assert h in parts[g];
    forall c | c in left && c != h ensures MayPrecede(w, h, c) {
      var j :| 0 <= j < |done| && done[j] == c;
      var n :| 0 <= n < |parts[g]| && parts[g][n] == done[i];
      assert EndedBy(w, done, h);
      if n > 0 {
        assert MayPrecede(w, parts[g][0], parts[g][n]);
      }
    }
  }

  lemma {:induction false} PlacedLeaves<G>(w: World, left: set<nat>, parts: map<G, seq<nat>>, group: nat -> G, g: G)
    requires Remaining(left, parts, group) && PartsOk(w, parts) && g in parts && parts[g] != []
    ensures Remaining(left - {parts[g][0]}, parts[g := parts[g][1..]], group) && PartsOk(w, parts[g := parts[g][1..]])
    ensures parts[g][0] in left
  {
    var h, parts' := parts[g][0], parts[g := parts[g][1..]];
    assert h in parts[g];
    forall c | c in left - {h} ensures group(c) in parts' && c in parts'[group(c)] {
      if group(c) == g {
        var n :| 0 <= n < |parts[g]| && parts[g][n] == c;
        assert parts'[g][n - 1] == c;
      }
    }
    forall k, c | k in parts' && c in parts'[k] ensures c in left - {h} && group(c) == k {
      if k == g {
        var n :| 0 <= n < |parts'[g]| && parts'[g][n] == c;
        assert parts[g][n + 1] == c;
      }
    }
  }

  ghost predicate Merged<G>(w: World, left: set<nat>, parts: map<G, seq<nat>>, group: nat -> G, order: seq<nat>) {
    && (forall c :: c in order <==> c in left) && Distinct(order) && InOrder(w, order)
    && (forall g <- parts :: Members(order, group, g) == parts[g])
  }

  // Orders of the groups that each respect real time merge into one that does.
  lemma {:induction false} Merge<G>(w: World, done: seq<nat>, left: set<nat>, parts: map<G, seq<nat>>, group: nat -> G)
    returns (order: seq<nat>)
    requires EndOrder(w, done) && (forall c <- left :: c in done)
    requires Remaining(left, parts, group) && PartsOk(w, parts)
    ensures Merged(w, left, parts, group, order)
    decreases |left|
  {
    if left == {} {
      order := [];
      NothingLeft(parts, group);
    } else {
      var g := NextToPlace(w, done, left, parts, group);
      PlacedLeaves(w, left, parts, group, g);
      order := Merge(w, done, left - {parts[g][0]}, parts[g := parts[g][1..]], group);
      order := PlacedMerges(w, left, parts, group, g, order);
    }
  }

  lemma {:induction false} PlacedMerges<G>(w: World, left: set<nat>, parts: map<G, seq<nat>>, group: nat -> G, g: G, rest: seq<nat>)
    returns (order: seq<nat>)
    requires g in parts && parts[g] != [] && parts[g][0] in left && group(parts[g][0]) == g
    requires Merged(w, left - {parts[g][0]}, parts[g := parts[g][1..]], group, rest)
    requires forall c <- left :: c != parts[g][0] ==> MayPrecede(w, parts[g][0], c)
    ensures Merged(w, left, parts, group, order)
  {
    order := [parts[g][0]] + rest;
    PlacedFirst(rest, parts, group, g);
    InOrderCons(w, parts[g][0], rest);
  }

  lemma {:induction false} NothingLeft<G>(parts: map<G, seq<nat>>, group: nat -> G)
    requires Remaining({}, parts, group)
    ensures forall g <- parts :: Members([], group, g) == parts[g]
  {
    assert forall g <- parts :: parts[g] == [] || parts[g][0] in parts[g];
  }

  lemma {:induction false} PlacedFirst<G>(rest: seq<nat>, parts: map<G, seq<nat>>, group: nat -> G, g: G)
    requires g in parts && parts[g] != [] && group(parts[g][0]) == g
    requires forall k <- parts :: Members(rest, group, k) == parts[g := parts[g][1..]][k]
    ensures forall k <- parts :: Members([parts[g][0]] + rest, group, k) == parts[k]
  {
    forall k | k in parts ensures Members([parts[g][0]] + rest, group, k) == parts[k] {
      PlacedOne(rest, parts, group, g, k);
    }
  }

  lemma {:induction false} PlacedOne<G>(rest: seq<nat>, parts: map<G, seq<nat>>, group: nat -> G, g: G, k: G)
    requires g in parts && parts[g] != [] && group(parts[g][0]) == g && k in parts
    requires Members(rest, group, k) == parts[g := parts[g][1..]][k]
    ensures Members([parts[g][0]] + rest, group, k) == parts[k]
  {
    MembersOfCons(parts[g][0], rest, group, k);
  }

  lemma InOrderCons(w: World, h: nat, rest: seq<nat>)
    requires InOrder(w, rest) && Distinct(rest) && h !in rest && forall c <- rest :: MayPrecede(w, h, c)
    ensures InOrder(w, [h] + rest) && Distinct([h] + rest)
  {
  }

  // ------------------------------------------------------------------
  // Verify and revoke requests, key by key
  // ------------------------------------------------------------------

  predicate VerifyOrRevoke(req: Request) {
    req.VerifyKey? || req.RevokeKey?
  }

  // The key a request is about, if it is about any.
  function KeyOf(x: Setting, req: Request): Option<string> {
    match req
    case VerifyKey(verify) =>
      var h := x.cfg.sha(verify.plaintext);
      if verify.plaintext != "" && h in x.w0.store.hashIndex then Some(x.w0.store.hashIndex[h]) else None
    case RevokeKey(id) => if id in x.w0.store.keys then Some(id) else None
    case _ => None
  }

  // What a request about no key is told.
  function ToldNone(req: Request): Reply {
    if req.RevokeKey? then ErrorReply(if req.keyId == "" then InvalidArgument else KeyNotFound)
    else Wire(RESPONSE_NOT_FOUND)
  }

  // Such requests leave all but the key records alone.
  ghost predicate Around(x: Setting, s: State) {
    && s.workspaces == x.w0.store.workspaces && s.apis == x.w0.store.apis && s.hashIndex == x.w0.store.hashIndex
    && s.keys.Keys == x.w0.store.keys.Keys && (forall id <- s.keys :: id != "" && s.keys[id].keyId == id)
    && (forall h <- s.hashIndex :: s.hashIndex[h] in s.keys)
  }

  // Two stores with the same record of a key.
  predicate SameOn(s: State, t: State, k: string) {
    k in s.keys && k in t.keys && s.keys[k] == t.keys[k]
  }

  lemma DecrementOn(s: State, t: State, id: string, now: Time)
    requires SameOn(s, t, id)
    ensures SameOn(StoreSpec.Decrement(s, id, now).0, StoreSpec.Decrement(t, id, now).0, id)
    ensures StoreSpec.Decrement(s, id, now).1 == StoreSpec.Decrement(t, id, now).1
  {
  }

  lemma SettleOn(s: State, t: State, k: Key, ds: seq<LimitDecision>, env: Env)
    requires SameOn(s, t, k.keyId)
    ensures SameOn(Settle(MemoryDriver(), s, k, ds, env).0, Settle(MemoryDriver(), t, k, ds, env).0, k.keyId)
    ensures Settle(MemoryDriver(), s, k, ds, env).1 == Settle(MemoryDriver(), t, k, ds, env).1
  {
    if k.remainingUses > 0 {
      var (s', r) := StoreSpec.Decrement(s, k.keyId, env.storeAt);
      var t' := StoreSpec.Decrement(t, k.keyId, env.storeAt).0;
      DecrementOn(s, t, k.keyId, env.storeAt);
      SettleCases(MemoryDriver(), s, k, ds, env, s', r.error);
      SettleCases(MemoryDriver(), t, k, ds, env, t', r.error);
    }
  }

  // Only the record of the key is written.
  predicate WritesOnly(s: State, s': State, id: string) {
    id in s.keys && id in s'.keys && s' == s.(keys := s.keys[id := s'.keys[id]]) && s'.keys[id].keyId == s.keys[id].keyId
  }

  lemma DecrementWrites(s: State, id: string, now: Time)
    requires id in s.keys
    ensures WritesOnly(s, StoreSpec.Decrement(s, id, now).0, id)
  {
    assert s.keys[id := s.keys[id]] == s.keys;
  }

  lemma SettleWrites(s: State, k: Key, ds: seq<LimitDecision>, env: Env)
    requires k.keyId in s.keys
    ensures WritesOnly(s, Settle(MemoryDriver(), s, k, ds, env).0, k.keyId)
  {
    assert s.keys[k.keyId := s.keys[k.keyId]] == s.keys;
    if k.remainingUses > 0 {
      DecrementWrites(s, k.keyId, env.storeAt);
    }
  }

  lemma WritesAround(x: Setting, s: State, s': State, id: string)
    requires Around(x, s) && WritesOnly(s, s', id)
    ensures Around(x, s') && forall k: string :: k != id && k in s.keys ==> SameOn(s, s', k)
  {
  }

  lemma VerifyOn(x: Setting, s: State, t: State, req: VerifyRequest, env: Env, k: string)
    requires Around(x, s) && Around(x, t) && SameOn(s, t, k) && KeyOf(x, VerifyKey(req)) == Some(k)
    ensures var (s', o) := ServeVerify(MemoryDriver(), x.cfg, s, req, env);
            var (t', o') := ServeVerify(MemoryDriver(), x.cfg, t, req, env);
            WritesOnly(s, s', k) && SameOn(s', t', k) && o == o'
  {
    var found := s.keys[k];
    VerifyFinds(MemoryDriver(), x.cfg, s, req, env, found);
    VerifyFinds(MemoryDriver(), x.cfg, t, req, env, found);
    var screen := Screen(x.cfg.limiter, found, req, env.checkAt, env.answer);
    if screen.Proceed? {
      SettleOn(s, t, found, screen.decisions, env);
      SettleWrites(s, found, screen.decisions, env);
    } else {
      assert s.keys[k := s.keys[k]] == s.keys;
    }
  }

  lemma RevokeOn(x: Setting, s: State, t: State, env: Env, k: string)
    requires Around(x, s) && Around(x, t) && SameOn(s, t, k)
    ensures var (s', r) := Serve(MemoryDriver(), x.cfg, s, RevokeKey(k), env);
            var (t', r') := Serve(MemoryDriver(), x.cfg, t, RevokeKey(k), env);
            WritesOnly(s, s', k) && SameOn(s', t', k) && r == r'
  {
    RevokeServed(MemoryDriver(), x.cfg, s, RevokeKey(k), env);
    RevokeServed(MemoryDriver(), x.cfg, t, RevokeKey(k), env);
    assert s.keys[k := s.keys[k]] == s.keys;
  }

  // A request about a key has the same effect on stores with the same record of
  // it, and none on other keys.
  lemma ServeOn(x: Setting, s: State, t: State, req: Request, env: Env, k: string)
    requires Around(x, s) && Around(x, t) && SameOn(s, t, k) && VerifyOrRevoke(req) && KeyOf(x, req) == Some(k)
    ensures var (s', r) := Serve(MemoryDriver(), x.cfg, s, req, env);
            var (t', r') := Serve(MemoryDriver(), x.cfg, t, req, env);
            WritesOnly(s, s', k) && SameOn(s', t', k) && r == r'
  {
    if req.VerifyKey? {
      VerifyOn(x, s, t, req.verify, env, k);
    } else {
      RevokeOn(x, s, t, env, k);
    }
  }

  // One about no key has none.
  lemma ServeNone(x: Setting, s: State, req: Request, env: Env)
    requires Around(x, s) && VerifyOrRevoke(req) && KeyOf(x, req).None?
    ensures Serve(MemoryDriver(), x.cfg, s, req, env) == (s, ToldNone(req))
  {
    if req.VerifyKey? {
      VerifyFindsNone(MemoryDriver(), x.cfg, s, req.verify, env);
    } else if req.keyId != "" {
      RevokeServed(MemoryDriver(), x.cfg, s, req, env);
    }
  }

  // ------------------------------------------------------------------
  // Replaying one key's calls out of an order
  // ------------------------------------------------------------------

  function GroupIn(x: Setting, reqs: map<nat, Request>): nat -> Option<string> {
    c => if c in reqs then KeyOf(x, reqs[c]) else None
  }

  lemma {:induction false} MembersUpTo<G>(order: seq<nat>, group: nat -> G, g: G, i: nat)
    requires i < |order| && group(order[i]) == g
    ensures var part, before := Members(order, group, g), Members(order[..i], group, g);
            |before| < |part| && part[..|before|] == before && part[|before|] == order[i]
  {
    var front := order[..|order| - 1];
    if i < |order| - 1 {
      MembersUpTo(front, group, g, i);
      assert front[..i] == order[..i];
    } else {
      assert front == order[..i];
    }
  }

  // Every member stands for a place in the order.
  lemma {:induction false} PlaceOf<G>(order: seq<nat>, group: nat -> G, g: G, j: nat) returns (i: nat)
    requires j < |Members(order, group, g)|
    ensures i < |order| && group(order[i]) == g && |Members(order[..i], group, g)| == j && order[i] == Members(order, group, g)[j]
  {
    var front := order[..|order| - 1];
    if j < |Members(front, group, g)| {
      i := PlaceOf(front, group, g, j);
      assert front[..i] == order[..i];
    } else {
      i := |order| - 1;
    }
  }

  predicate Asked(reqs: map<nat, Request>, order: seq<nat>) {
    forall c <- order :: c in reqs && VerifyOrRevoke(reqs[c])
  }

  lemma {:induction false} SerialAround(x: Setting, reqs: map<nat, Request>, order: seq<nat>)
    requires Around(x, x.w0.store) && Asked(reqs, order)
    ensures Around(x, Serial(x, reqs, order))
  {
    if order != [] {
      var front, c := order[..|order| - 1], order[|order| - 1];
      assert forall d <- front :: d in order;
      SerialAround(x, reqs, front);
      ServeAround(x, Serial(x, reqs, front), reqs[c], x.envs(c));
    }
  }

  lemma {:induction false} SerialLast(x: Setting, reqs: map<nat, Request>, front: seq<nat>, c: nat)
    requires c in reqs && forall d <- front :: d in reqs
    ensures (forall d <- front + [c] :: d in reqs)
    ensures Serial(x, reqs, front + [c]) == Serve(MemoryDriver(), x.cfg, Serial(x, reqs, front), reqs[c], x.envs(c)).0
  {
    SerialExtends(x, reqs, front, c);
  }

  lemma ServeAround(x: Setting, s: State, req: Request, env: Env)
    requires Around(x, s) && VerifyOrRevoke(req)
    ensures Around(x, Serve(MemoryDriver(), x.cfg, s, req, env).0)
    ensures forall k <- s.keys :: KeyOf(x, req) != Some(k) ==> SameOn(s, Serve(MemoryDriver(), x.cfg, s, req, env).0, k)
  {
    match KeyOf(x, req)
    case None => ServeNone(x, s, req, env);
    case Some(j) =>
      ServeOn(x, s, s, req, env, j);
      WritesAround(x, s, Serve(MemoryDriver(), x.cfg, s, req, env).0, j);
  }

  lemma StepOn(x: Setting, s: State, t: State, req: Request, env: Env, k: string)
    requires Around(x, s) && Around(x, t) && SameOn(s, t, k) && VerifyOrRevoke(req)
    ensures var s', t' := Serve(MemoryDriver(), x.cfg, s, req, env).0, Serve(MemoryDriver(), x.cfg, t, req, env).0;
            SameOn(s', if KeyOf(x, req) == Some(k) then t' else t, k)
  {
    if KeyOf(x, req) == Some(k) {
      ServeOn(x, s, t, req, env, k);
    } else {
      ServeAround(x, s, req, env);
    }
  }

  lemma {:induction false} SerialOnNext(x: Setting, reqs: map<nat, Request>, front: seq<nat>, part: seq<nat>, c: nat,
                                        order: seq<nat>, part': seq<nat>, k: string)
    requires Around(x, x.w0.store) && k in x.w0.store.keys
    requires Asked(reqs, front) && Asked(reqs, part) && c in reqs && VerifyOrRevoke(reqs[c])
    requires SameOn(Serial(x, reqs, front), Serial(x, reqs, part), k)
    requires order == front + [c] && part' == if KeyOf(x, reqs[c]) == Some(k) then part + [c] else part
    ensures Asked(reqs, order) && Asked(reqs, part') && SameOn(Serial(x, reqs, order), Serial(x, reqs, part'), k)
  {
    SerialAround(x, reqs, front);
    SerialAround(x, reqs, part);
    SerialLast(x, reqs, front, c);
    SerialLast(x, reqs, part, c);
    StepOn(x, Serial(x, reqs, front), Serial(x, reqs, part), reqs[c], x.envs(c), k);
  }

  ghost predicate ServedOn(x: Setting, reqs: map<nat, Request>, order: seq<nat>, part: seq<nat>, k: string) {
    Asked(reqs, order) && Asked(reqs, part) && SameOn(Serial(x, reqs, order), Serial(x, reqs, part), k)
  }

  lemma {:induction false} SerialOn(x: Setting, reqs: map<nat, Request>, order: seq<nat>, k: string)
    requires Around(x, x.w0.store) && k in x.w0.store.keys && Asked(reqs, order)
    ensures ServedOn(x, reqs, order, Members(order, GroupIn(x, reqs), Some(k)), k)
  {
    var part := Members(order, GroupIn(x, reqs), Some(k));
    if order == [] {
      assert part == [];
    } else {
      var front, c := order[..|order| - 1], order[|order| - 1];
      assert c in order && Asked(reqs, front) && order == front + [c];
      SerialOn(x, reqs, front, k);
      MembersOfLast(order, GroupIn(x, reqs), Some(k));
      SerialOnNext(x, reqs, front, Members(front, GroupIn(x, reqs), Some(k)), c, order, part, k);
    }
  }

  // The reply to a call is that of its place among its key's calls.
  lemma {:induction false} ReplyOn(x: Setting, reqs: map<nat, Request>, order: seq<nat>, i: nat, k: string)
    requires Around(x, x.w0.store) && i < |order| && k in x.w0.store.keys
    requires Asked(reqs, order) && KeyOf(x, reqs[order[i]]) == Some(k)
    ensures var part, j := Members(order, GroupIn(x, reqs), Some(k)), |Members(order[..i], GroupIn(x, reqs), Some(k))|;
            j < |part| && part[j] == order[i] && SerialReply(x, reqs, order, i) == SerialReply(x, reqs, part, j)
  {
    MembersUpTo(order, GroupIn(x, reqs), Some(k), i);
    assert forall c <- order[..i] :: c in order;
    SerialOn(x, reqs, order[..i], k);
    SerialAround(x, reqs, order[..i]);
    SerialAround(x, reqs, Members(order[..i], GroupIn(x, reqs), Some(k)));
    ServeOn(x, Serial(x, reqs, order[..i]), Serial(x, reqs, Members(order[..i], GroupIn(x, reqs), Some(k))),
            reqs[order[i]], x.envs(order[i]), k);
  }

  // One about no key is told so wherever it stands.
  lemma {:induction false} ReplyNone(x: Setting, reqs: map<nat, Request>, order: seq<nat>, i: nat)
    requires Around(x, x.w0.store) && i < |order|
    requires Asked(reqs, order) && KeyOf(x, reqs[order[i]]).None?
    ensures SerialReply(x, reqs, order, i) == ToldNone(reqs[order[i]])
  {
    assert forall c <- order[..i] :: c in order;
    SerialAround(x, reqs, order[..i]);
    ServeNone(x, Serial(x, reqs, order[..i]), reqs[order[i]], x.envs(order[i]));
  }

  // ------------------------------------------------------------------
  // The order calls end in
  // ------------------------------------------------------------------

  ghost predicate Ended(x: Setting, w: World, done: seq<nat>) {
    && (forall c :: c in done <==> c in w.calls && c !in x.w0.calls && Finished(w.calls[c]))
    && (forall c <- x.w0.calls :: c in w.calls && Finished(w.calls[c]))
    && (forall c <- w.calls :: c !in x.w0.calls ==> EndedBy(w, done, c))
    && EndOrder(w, done)
  }

  lemma EndsBegin(x: Setting, w: World, done: seq<nat>, c: nat, call: Call)
    requires Ended(x, w, done) && Enabled(w, Begin(c, call))
    ensures Ended(x, Apply(x.cfg, w, Begin(c, call)), done)
  {
    var w' := Apply(x.cfg, w, Begin(c, call));
    forall i, j | 0 <= i < j < |done| && done[j] in FinishedCalls(w) ensures done[i] in FinishedCalls(w) {
      assert done[i] in done;
    }
    forall d | d in w'.calls && d !in x.w0.calls ensures EndedBy(w', done, d) {
      assert d != c ==> EndedBy(w, done, d);
    }
    forall i, j | 0 <= i <= j < |done| ensures done[i] in w'.before && done[j] !in w'.before[done[i]] {
      assert done[i] in done;
    }
  }

  lemma EndsStep(x: Setting, w: World, done: seq<nat>, c: nat, env: Env) returns (done': seq<nat>)
    requires Ended(x, w, done) && Enabled(w, Step(c, env)) && BeforeOk(w)
    ensures Ended(x, Apply(x.cfg, w, Step(c, env)), done')
  {
    var w' := Apply(x.cfg, w, Step(c, env));
    done' := done;
    UnfinishedUnrecorded(w, c);
    if Finished(w'.calls[c]) {
      done' := done + [c];
      EndsWith(x, w, w', done, c);
    } else {
      forall d | d in w'.calls && d !in x.w0.calls ensures EndedBy(w', done, d) {
        assert EndedBy(w, done, d);
      }
    }
  }

  lemma EndsWith(x: Setting, w: World, w': World, done: seq<nat>, c: nat)
    requires Ended(x, w, done) && c in w.calls && !Finished(w.calls[c]) && forall d <- w.before :: c !in w.before[d]
    requires c in w'.calls && w'.calls == w.calls[c := w'.calls[c]] && Finished(w'.calls[c]) && w'.before == w.before
    ensures Ended(x, w', done + [c])
  {
    assert c !in done;
    forall d | d in w'.calls && d !in x.w0.calls ensures EndedBy(w', done + [c], d) {
      assert EndedBy(w, done, d);
    }
  }

  lemma {:induction false} EndsInOrder(x: Setting, es: seq<Event>) returns (done: seq<nat>)
    requires Inv(x.cfg, x.w0) && Quiet(x) && Legal(x.cfg, x.w0, es)
    ensures Ended(x, Exec(x.cfg, x.w0, es), done)
  {
    done := [];
    if es != [] {
      var front, e := es[..|es| - 1], es[|es| - 1];
      done := EndsInOrder(x, front);
      RunKeepsInv(x.cfg, x.w0, front);
      match e
      case Begin(c, call) => EndsBegin(x, Exec(x.cfg, x.w0, front), done, c, call);
      case Step(c, env) => done := EndsStep(x, Exec(x.cfg, x.w0, front), done, c, env);
    }
  }

  // ------------------------------------------------------------------
  // One key's part of a run
  // ------------------------------------------------------------------

  // What a call holds is the record of the key its request is about; one about
  // no key is told so.
  predicate Placed(x: Setting, call: Call) {
    match call
    case Verify(req, stage) =>
      (match KeyOf(x, VerifyKey(req))
       case None => stage.Lookup? || (stage.Answered? && stage.outcome == RESPONSE_NOT_FOUND)
       case Some(k) => !Elsewhere(call, k) || stage.Lookup? || stage.Answered?)
    case Revoke(id, reply) => KeyOf(x, RevokeKey(id)).None? ==> reply.None? || reply.value == ToldNone(RevokeKey(id))
    case _ => false
  }

  lemma VerifyStepOn(x: Setting, s: State, t: State, call: Call, env: Env, k: string)
    requires Around(x, s) && Around(x, t) && SameOn(s, t, k) && Placed(x, call) && call.Verify? && !Finished(call)
    requires KeyOf(x, RequestOf(call)) == Some(k)
    ensures var eff := Advance(x.cfg, s, call, env);
            && eff == Advance(x.cfg, t, call, env) && eff.made.None? && eff.issue.None?
            && Placed(x, eff.call) && RequestOf(eff.call) == RequestOf(call)
            && (eff.op.Some? ==> (eff.op.value.OpDecrement? || eff.op.value.OpTouch?) && eff.op.value.id == k)
  {
    if call.verify.Spend? {
      DecrementOn(s, t, k, env.storeAt);
    }
  }

  lemma RevokeStepOn(x: Setting, s: State, t: State, call: Call, env: Env, k: string)
    requires Around(x, s) && Around(x, t) && SameOn(s, t, k) && Placed(x, call) && call.Revoke? && !Finished(call)
    requires KeyOf(x, RequestOf(call)) == Some(k)
    ensures var eff := Advance(x.cfg, s, call, env);
            && eff == Advance(x.cfg, t, call, env) && eff.made.None? && eff.issue.None?
            && Placed(x, eff.call) && RequestOf(eff.call) == RequestOf(call)
            && eff.op == Some(OpRevoke(k, env.storeAt))
  {
  }

  lemma OpOn(s: State, t: State, op: Op, k: string)
    requires SameOn(s, t, k) && (op.OpDecrement? || op.OpTouch? || op.OpRevoke?) && op.id == k
    ensures WritesOnly(s, Do(s, op), k) && SameOn(Do(s, op), Do(t, op), k)
  {
    assert s.keys[k := s.keys[k]] == s.keys;
  }

  // A step of a call about a key has the same effect on stores with the same
  // record of it, and none on other keys.
  lemma AdvanceOn(x: Setting, s: State, t: State, call: Call, env: Env, k: string)
    requires Around(x, s) && Around(x, t) && SameOn(s, t, k) && Placed(x, call) && !Finished(call)
    requires KeyOf(x, RequestOf(call)) == Some(k)
    ensures var eff := Advance(x.cfg, s, call, env);
            && eff == Advance(x.cfg, t, call, env) && eff.made.None? && eff.issue.None?
            && Placed(x, eff.call) && RequestOf(eff.call) == RequestOf(call)
            && WritesOnly(s, StoreAfter(s, eff), k) && SameOn(StoreAfter(s, eff), StoreAfter(t, eff), k)
  {
    if call.Verify? {
      VerifyStepOn(x, s, t, call, env, k);
    } else {
      RevokeStepOn(x, s, t, call, env, k);
    }
    var eff := Advance(x.cfg, s, call, env);
    assert s.keys[k := s.keys[k]] == s.keys;
    if eff.op.Some? {
      OpOn(s, t, eff.op.value, k);
    }
  }

  lemma AdvanceNone(x: Setting, s: State, call: Call, env: Env)
    requires Around(x, s) && Placed(x, call) && !Finished(call) && KeyOf(x, RequestOf(call)).None?
    ensures var eff := Advance(x.cfg, s, call, env);
            && eff.made.None? && eff.issue.None? && Placed(x, eff.call) && RequestOf(eff.call) == RequestOf(call)
            && StoreAfter(s, eff) == s
  {
  }

  ghost predicate Spread(x: Setting, w: World) {
    && Around(x, w.store) && (forall c <- x.w0.calls :: c in w.calls)
    && (forall c <- w.calls :: if c in x.w0.calls then Finished(w.calls[c]) else Placed(x, w.calls[c]))
  }

  // The calls begun since w0 about key k are those in part.
  predicate PartOf(x: Setting, part: set<nat>, k: string, c: nat, req: Request) {
    c !in x.w0.calls ==> (c in part <==> KeyOf(x, req) == Some(k))
  }

  // v is w with the calls of one key only, and w's record of that key.
  ghost predicate Beside(x: Setting, w: World, v: World, part: set<nat>, k: string) {
    && Around(x, v.store) && SameOn(w.store, v.store, k) && v.drawn <= w.drawn
    && (forall c :: c in v.calls <==> c in w.calls && (c in x.w0.calls || c in part))
    && (forall c <- v.calls :: v.calls[c] == w.calls[c])
    && (forall c <- part :: c in v.calls ==>
          c in v.before && c in w.before && v.before[c] * part == w.before[c] * part)
  }

  lemma BesideBegin(x: Setting, w: World, v: World, part: set<nat>, k: string, c: nat, call: Call)
    requires Beside(x, w, v, part, k) && Enabled(w, Begin(c, call)) && c in part
    ensures Enabled(v, Begin(c, call))
    ensures Beside(x, Apply(x.cfg, w, Begin(c, call)), Apply(x.cfg, v, Begin(c, call)), part, k)
  {
    assert FinishedCalls(v) * part == FinishedCalls(w) * part;
  }

  lemma BesideOtherBegin(x: Setting, w: World, v: World, part: set<nat>, k: string, c: nat, call: Call)
    requires Beside(x, w, v, part, k) && Enabled(w, Begin(c, call)) && c !in part && c !in x.w0.calls
    ensures Beside(x, Apply(x.cfg, w, Begin(c, call)), v, part, k)
  {
  }

  lemma StepOf(cfg: Config, w: World, c: nat, env: Env, eff: Effect)
    requires Enabled(w, Step(c, env)) && eff == Advance(cfg, w.store, w.calls[c], env) && eff.made.None? && eff.issue.None?
    ensures Apply(cfg, w, Step(c, env)) ==
              w.(store := StoreAfter(w.store, eff), calls := w.calls[c := eff.call],
                 drawn := if env.entropy.Some? then w.drawn + {env.entropy.value} else w.drawn)
  {
  }

  lemma StepsBoth(x: Setting, w: World, v: World, k: string, c: nat, env: Env)
    requires Around(x, w.store) && Around(x, v.store) && SameOn(w.store, v.store, k) && v.drawn <= w.drawn
    requires c in v.calls && Enabled(w, Step(c, env)) && v.calls[c] == w.calls[c] && Placed(x, w.calls[c])
    requires KeyOf(x, RequestOf(w.calls[c])) == Some(k)
    ensures Enabled(v, Step(c, env))
    ensures var w', v' := Apply(x.cfg, w, Step(c, env)), Apply(x.cfg, v, Step(c, env));
            && Around(x, v'.store) && SameOn(w'.store, v'.store, k) && v'.drawn <= w'.drawn
            && w'.calls == w.calls[c := w'.calls[c]] && v'.calls == v.calls[c := w'.calls[c]]
            && w'.before == w.before && v'.before == v.before
  {
    var eff := Advance(x.cfg, w.store, w.calls[c], env);
    AdvanceOn(x, w.store, v.store, w.calls[c], env, k);
    AdvanceOn(x, v.store, v.store, w.calls[c], env, k);
    WritesAround(x, v.store, StoreAfter(v.store, eff), k);
    StepOf(x.cfg, w, c, env, eff);
    StepOf(x.cfg, v, c, env, eff);
  }

  lemma BesideStep(x: Setting, w: World, v: World, part: set<nat>, k: string, c: nat, env: Env)
    requires Spread(x, w) && Beside(x, w, v, part, k) && Enabled(w, Step(c, env)) && c in part
    requires c !in x.w0.calls && KeyOf(x, RequestOf(w.calls[c])) == Some(k)
    ensures Enabled(v, Step(c, env))
    ensures Beside(x, Apply(x.cfg, w, Step(c, env)), Apply(x.cfg, v, Step(c, env)), part, k)
  {
    assert c in v.calls;
    StepsBoth(x, w, v, k, c, env);
    BesideMoved(x, w, v, Apply(x.cfg, w, Step(c, env)), Apply(x.cfg, v, Step(c, env)), part, k, c);
  }

  lemma BesideMoved(x: Setting, w: World, v: World, w': World, v': World, part: set<nat>, k: string, c: nat)
    requires Beside(x, w, v, part, k) && c in v.calls && c in w'.calls
    requires Around(x, v'.store) && SameOn(w'.store, v'.store, k) && v'.drawn <= w'.drawn
    requires w'.calls == w.calls[c := w'.calls[c]] && v'.calls == v.calls[c := w'.calls[c]]
    requires w'.before == w.before && v'.before == v.before
    ensures Beside(x, w', v', part, k)
  {
  }

  lemma StepsElsewhere(x: Setting, w: World, k: string, c: nat, env: Env)
    requires Around(x, w.store) && k in w.store.keys && Enabled(w, Step(c, env)) && Placed(x, w.calls[c])
    requires KeyOf(x, RequestOf(w.calls[c])) != Some(k)
    ensures var w' := Apply(x.cfg, w, Step(c, env));
            && SameOn(w.store, w'.store, k) && w.drawn <= w'.drawn && w'.before == w.before
            && w'.calls == w.calls[c := w'.calls[c]]
  {
    match KeyOf(x, RequestOf(w.calls[c]))
    case None => AdvanceNone(x, w.store, w.calls[c], env);
    case Some(j) =>
      AdvanceOn(x, w.store, w.store, w.calls[c], env, j);
      WritesAround(x, w.store, Apply(x.cfg, w, Step(c, env)).store, j);
  }

  lemma BesideOtherStep(x: Setting, w: World, v: World, part: set<nat>, k: string, c: nat, env: Env)
    requires Spread(x, w) && Beside(x, w, v, part, k) && Enabled(w, Step(c, env)) && c !in part && c !in x.w0.calls
    requires KeyOf(x, RequestOf(w.calls[c])) != Some(k)
    ensures Beside(x, Apply(x.cfg, w, Step(c, env)), v, part, k)
  {
    StepsElsewhere(x, w, k, c, env);
  }

  lemma SpreadStep(x: Setting, w: World, c: nat, env: Env)
    requires Spread(x, w) && Enabled(w, Step(c, env))
    ensures Spread(x, Apply(x.cfg, w, Step(c, env))) && RequestOf(Apply(x.cfg, w, Step(c, env)).calls[c]) == RequestOf(w.calls[c])
  {
    match KeyOf(x, RequestOf(w.calls[c]))
    case None => AdvanceNone(x, w.store, w.calls[c], env);
    case Some(j) =>
      AdvanceOn(x, w.store, w.store, w.calls[c], env, j);
      WritesAround(x, w.store, Apply(x.cfg, w, Step(c, env)).store, j);
  }

  lemma SpreadBegin(x: Setting, w: World, c: nat, call: Call)
    requires Spread(x, w) && Enabled(w, Begin(c, call)) && VerifyOrRevoke(RequestOf(call)) && c !in x.w0.calls
    ensures Spread(x, Apply(x.cfg, w, Begin(c, call)))
  {
  }

  function Only(es: seq<Event>, part: set<nat>): (kept: seq<Event>)
    ensures forall e <- kept :: e in es && e.c in part
  {
    if es == [] then []
    else
      var front, e := es[..|es| - 1], es[|es| - 1];
      Only(front, part) + if e.c in part then [e] else []
  }

  // Only verify and revoke calls begin, and those about key k are in part.
  ghost predicate Parted(x: Setting, es: seq<Event>, part: set<nat>, k: string) {
    && (forall e <- es :: e.Begin? ==> VerifyOrRevoke(RequestOf(e.call)) && PartOf(x, part, k, e.c, RequestOf(e.call)))
    && (forall c <- part :: c !in x.w0.calls)
  }

  ghost predicate ApartAt(x: Setting, w: World, v: World, part: set<nat>, k: string) {
    && Spread(x, w) && Beside(x, w, v, part, k)
    && (forall c <- w.calls :: PartOf(x, part, k, c, RequestOf(w.calls[c])))
    && (forall c <- part :: c !in x.w0.calls)
  }

  // The run of the calls in part alone, with its readings, ends in the record of
  // key k that the whole run ends in.
  ghost predicate Apart(x: Setting, es: seq<Event>, part: set<nat>, k: string)
    requires Legal(x.cfg, x.w0, es)
  {
    && Legal(x.cfg, x.w0, Only(es, part))
    && ApartAt(x, Exec(x.cfg, x.w0, es), Exec(x.cfg, x.w0, Only(es, part)), part, k)
    && (ReadsRun(x, es) ==> ReadsRun(x, Only(es, part)))
  }

  lemma ApartBegin(x: Setting, w: World, v: World, part: set<nat>, k: string, c: nat, call: Call)
    requires ApartAt(x, w, v, part, k) && Enabled(w, Begin(c, call)) && VerifyOrRevoke(RequestOf(call))
    requires PartOf(x, part, k, c, RequestOf(call))
    ensures if c in part then Enabled(v, Begin(c, call)) && ApartAt(x, Apply(x.cfg, w, Begin(c, call)), Apply(x.cfg, v, Begin(c, call)), part, k)
            else ApartAt(x, Apply(x.cfg, w, Begin(c, call)), v, part, k)
  {
    SpreadBegin(x, w, c, call);
    BeginPart(x, w, Apply(x.cfg, w, Begin(c, call)), part, k, c);
    if c in part {
      BesideBegin(x, w, v, part, k, c, call);
    } else {
      BesideOtherBegin(x, w, v, part, k, c, call);
    }
  }

  lemma ApartStep(x: Setting, w: World, v: World, part: set<nat>, k: string, c: nat, env: Env)
    requires ApartAt(x, w, v, part, k) && Enabled(w, Step(c, env))
    ensures if c in part then Enabled(v, Step(c, env)) && ApartAt(x, Apply(x.cfg, w, Step(c, env)), Apply(x.cfg, v, Step(c, env)), part, k)
            else ApartAt(x, Apply(x.cfg, w, Step(c, env)), v, part, k)
  {
    SpreadStep(x, w, c, env);
    StepPart(x, w, Apply(x.cfg, w, Step(c, env)), part, k, c);
    if c in part {
      BesideStep(x, w, v, part, k, c, env);
    } else {
      BesideOtherStep(x, w, v, part, k, c, env);
    }
  }

  lemma BeginPart(x: Setting, w: World, w': World, part: set<nat>, k: string, c: nat)
    requires forall d <- w.calls :: PartOf(x, part, k, d, RequestOf(w.calls[d]))
    requires c in w'.calls && w'.calls == w.calls[c := w'.calls[c]] && PartOf(x, part, k, c, RequestOf(w'.calls[c]))
    ensures forall d <- w'.calls :: PartOf(x, part, k, d, RequestOf(w'.calls[d]))
  {
  }

  lemma StepPart(x: Setting, w: World, w': World, part: set<nat>, k: string, c: nat)
    requires forall d <- w.calls :: PartOf(x, part, k, d, RequestOf(w.calls[d]))
    requires c in w.calls && c in w'.calls && w'.calls == w.calls[c := w'.calls[c]] && RequestOf(w'.calls[c]) == RequestOf(w.calls[c])
    ensures forall d <- w'.calls :: PartOf(x, part, k, d, RequestOf(w'.calls[d]))
  {
  }

  lemma EventApart(x: Setting, w: World, v: World, e: Event, part: set<nat>, k: string)
    requires ApartAt(x, w, v, part, k) && Enabled(w, e)
    requires e.Begin? ==> VerifyOrRevoke(RequestOf(e.call)) && PartOf(x, part, k, e.c, RequestOf(e.call))
    ensures if e.c in part then Enabled(v, e) && ApartAt(x, Apply(x.cfg, w, e), Apply(x.cfg, v, e), part, k)
            else ApartAt(x, Apply(x.cfg, w, e), v, part, k)
    ensures e.c in part && ReadsAt(x, w, e) ==> ReadsAt(x, v, e)
  {
    match e
    case Begin(c, call) => ApartBegin(x, w, v, part, k, c, call);
    case Step(c, env) =>
      ApartStep(x, w, v, part, k, c, env);
      assert c in part ==> c in v.calls;
  }

  lemma {:induction false} OneMore(x: Setting, es: seq<Event>, e: Event)
    requires Legal(x.cfg, x.w0, es) && Enabled(Exec(x.cfg, x.w0, es), e)
    ensures Legal(x.cfg, x.w0, es + [e]) && Exec(x.cfg, x.w0, es + [e]) == Apply(x.cfg, Exec(x.cfg, x.w0, es), e)
    ensures ReadsRun(x, es) && ReadsAt(x, Exec(x.cfg, x.w0, es), e) ==> ReadsRun(x, es + [e])
  {
    assert (es + [e])[..|es + [e]| - 1] == es;
  }

  lemma {:induction false} OnlyLast(es: seq<Event>, part: set<nat>)
    requires es != []
    ensures var kept, e := Only(es[..|es| - 1], part), es[|es| - 1];
            Only(es, part) == if e.c in part then kept + [e] else kept
  {
  }

  lemma {:induction false} ApartNext(x: Setting, front: seq<Event>, e: Event, part: set<nat>, k: string)
    requires Legal(x.cfg, x.w0, front) && Enabled(Exec(x.cfg, x.w0, front), e) && Apart(x, front, part, k)
    requires e.Begin? ==> VerifyOrRevoke(RequestOf(e.call)) && PartOf(x, part, k, e.c, RequestOf(e.call))
    ensures Legal(x.cfg, x.w0, front + [e]) && Apart(x, front + [e], part, k)
  {
    var w, v, kept := Exec(x.cfg, x.w0, front), Exec(x.cfg, x.w0, Only(front, part)), Only(front, part);
    EventApart(x, w, v, e, part, k);
    OneMore(x, front, e);
    OnlyLast(front + [e], part);
    assert (front + [e])[..|front + [e]| - 1] == front;
    if e.c in part {
      OneMore(x, kept, e);
    }
  }

  lemma {:induction false} RunApart(x: Setting, es: seq<Event>, part: set<nat>, k: string)
    requires Around(x, x.w0.store) && Quiet(x) && k in x.w0.store.keys
    requires Legal(x.cfg, x.w0, es) && Parted(x, es, part, k)
    ensures Apart(x, es, part, k)
  {
    if es == [] {
      assert ApartAt(x, x.w0, x.w0, part, k);
    } else {
      var front, e := es[..|es| - 1], es[|es| - 1];
      assert es == front + [e] && e in es && forall d <- front :: d in es;
      RunApart(x, front, part, k);
      ApartNext(x, front, e, part, k);
    }
  }

  // ------------------------------------------------------------------
  // One order for all keys
  // ------------------------------------------------------------------

  // An order of one key's calls.
  ghost predicate KeyOrder(x: Setting, w: World, k: string, order: seq<nat>) {
    && (forall c :: c in order <==> c in w.calls && c !in x.w0.calls && KeyOf(x, RequestOf(w.calls[c])) == Some(k))
    && Distinct(order) && InOrder(w, order) && (forall i :: 0 <= i < |order| ==> L.RepliesMatch(x, w, order, i))
    && k in w.store.keys
    && L.Status(Serial(x, Requests(w), order), k, w.store.keys[k].enabled, w.store.keys[k].remainingUses)
  }

  lemma {:induction false} SerialOtherId(x: Setting, y: Setting, reqs: map<nat, Request>, order: seq<nat>)
    requires y == x.(id := y.id) && forall c <- order :: c in reqs
    ensures Serial(x, reqs, order) == Serial(y, reqs, order)
  {
    if order != [] {
      assert forall c <- order[..|order| - 1] :: c in order;
      SerialOtherId(x, y, reqs, order[..|order| - 1]);
    }
  }

  // The replay does not depend on which of the two worlds lists the requests.
  lemma {:induction false} SameReplay(x: Setting, y: Setting, w: World, v: World, order: seq<nat>)
    requires y == x.(id := y.id) && forall c <- order :: c in w.calls && c in v.calls && v.calls[c] == w.calls[c]
    ensures Serial(x, Requests(w), order) == Serial(y, Requests(v), order)
    ensures forall i :: 0 <= i < |order| ==> SerialReply(x, Requests(w), order, i) == SerialReply(y, Requests(v), order, i)
  {
    SerialSameRequests(x, Requests(w), Requests(v), order);
    SerialOtherId(x, y, Requests(v), order);
    forall i | 0 <= i < |order| ensures SerialReply(x, Requests(w), order, i) == SerialReply(y, Requests(v), order, i) {
      assert order[i] in order && forall c <- order[..i] :: c in order;
      SerialSameRequests(x, Requests(w), Requests(v), order[..i]);
      SerialOtherId(x, y, Requests(v), order[..i]);
    }
  }

  lemma ApartLists(x: Setting, w: World, v: World, part: set<nat>, k: string, order: seq<nat>)
    requires ApartAt(x, w, v, part, k) && forall c :: c in order <==> c in v.calls && c !in x.w0.calls
    ensures forall c :: c in order <==> c in w.calls && c !in x.w0.calls && KeyOf(x, RequestOf(w.calls[c])) == Some(k)
    ensures forall c <- order :: c in v.calls && c in w.calls && c in part && v.calls[c] == w.calls[c]
  {
    forall c ensures c in order <==> c in w.calls && c !in x.w0.calls && KeyOf(x, RequestOf(w.calls[c])) == Some(k) {
      assert c in w.calls ==> PartOf(x, part, k, c, RequestOf(w.calls[c]));
    }
  }

  lemma ApartInOrder(x: Setting, w: World, v: World, part: set<nat>, k: string, order: seq<nat>)
    requires Beside(x, w, v, part, k) && InOrder(v, order) && forall c <- order :: c in v.calls && c in part
    ensures InOrder(w, order)
  {
    forall i, j | 0 <= i < j < |order| ensures MayPrecede(w, order[i], order[j]) {
      assert MayPrecede(v, order[i], order[j]) && order[i] in order && order[j] in order;
      assert order[j] !in v.before[order[i]] * part;
    }
  }

  lemma {:induction false} ApartAnswers(x: Setting, y: Setting, w: World, v: World, order: seq<nat>, i: nat)
    requires y == x.(id := y.id) && i < |order| && L.RepliesMatch(y, v, order, i)
    requires forall c <- order :: c in w.calls && c in v.calls && v.calls[c] == w.calls[c]
    ensures L.RepliesMatch(x, w, order, i)
  {
    SameReplay(x, y, w, v, order);
    assert order[i] in order;
  }

  lemma {:induction false} ApartOrder(x: Setting, w: World, v: World, part: set<nat>, k: string, order: seq<nat>)
    requires ApartAt(x, w, v, part, k) && L.Linearizes(x.(id := k), v, order)
    ensures KeyOrder(x, w, k, order)
  {
    var y := x.(id := k);
    ApartLists(x, w, v, part, k, order);
    ApartInOrder(x, w, v, part, k, order);
    SameReplay(x, y, w, v, order);
    forall i | 0 <= i < |order| ensures L.RepliesMatch(x, w, order, i) {
      ApartAnswers(x, y, w, v, order, i);
    }
  }

  // What is asked of the runs here: verify and revoke calls only, about any keys
  // or none, begun when nothing was in flight and all finished.
  ghost predicate VerifiesAndRevokes(x: Setting, es: seq<Event>) {
    && Legal(x.cfg, x.w0, es) && (forall e <- es :: e.Begin? ==> VerifyOrRevoke(RequestOf(e.call)))
    && (forall c <- Exec(x.cfg, x.w0, es).calls :: Finished(Exec(x.cfg, x.w0, es).calls[c]))
  }

  ghost function KeyPart(x: Setting, w: World, k: string): set<nat> {
    set c | c in w.calls && c !in x.w0.calls && KeyOf(x, RequestOf(w.calls[c])) == Some(k)
  }

  lemma {:induction false} KeyParted(x: Setting, es: seq<Event>, k: string)
    requires VerifiesAndRevokes(x, es)
    ensures Parted(x, es, KeyPart(x, Exec(x.cfg, x.w0, es), k), k)
  {
    var w := Exec(x.cfg, x.w0, es);
    AskedInRun(x.cfg, x.w0, es);
    forall e | e in es && e.Begin? ensures PartOf(x, KeyPart(x, w, k), k, e.c, RequestOf(e.call)) {
      assert AskedIn(x.w0, w, e);
    }
  }

  lemma {:induction false} ReadsOtherId(x: Setting, y: Setting, es: seq<Event>)
    requires y == x.(id := y.id) && Legal(x.cfg, x.w0, es) && ReadsRun(x, es)
    ensures ReadsRun(y, es)
  {
    if es != [] {
      ReadsOtherId(x, y, es[..|es| - 1]);
    }
  }

  lemma StoreAround(x: Setting)
    requires IndexAgrees(x.w0.store)
    ensures Around(x, x.w0.store)
  {
  }

  lemma KeptOnKey(x: Setting, es: seq<Event>, part: set<nat>, k: string)
    requires Parted(x, es, part, k)
    ensures L.OnlyOnTheKey(x.(id := k), Only(es, part))
  {
    forall e | e in Only(es, part) && e.Begin? ensures L.OnTheKey(x.(id := k), e.call) {
      assert PartOf(x, part, k, e.c, RequestOf(e.call));
    }
  }

  lemma ReadyOn(x: Setting, k: string)
    requires Around(x, x.w0.store) && Quiet(x) && k in x.w0.store.keys
    ensures L.Ready(x.(id := k))
  {
  }

  lemma {:induction false} PartOrderExists(x: Setting, kept: seq<Event>, k: string) returns (order: seq<nat>)
    requires Reachable(x.cfg, x.w0) && Around(x, x.w0.store) && Quiet(x) && k in x.w0.store.keys
    requires Legal(x.cfg, x.w0, kept) && ReadsRun(x, kept) && L.OnlyOnTheKey(x.(id := k), kept)
    requires forall c <- Exec(x.cfg, x.w0, kept).calls :: Finished(Exec(x.cfg, x.w0, kept).calls[c])
    ensures L.Linearizes(x.(id := k), Exec(x.cfg, x.w0, kept), order)
  {
    var y := x.(id := k);
    ReadyOn(x, k);
    ReadsOtherId(x, y, kept);
    L.ConfinedLinearizable(y, kept);
    order :| L.Linearizes(y, Exec(x.cfg, x.w0, kept), order);
  }

  lemma {:induction false} KeyOrderExists(x: Setting, es: seq<Event>, k: string)
    requires Reachable(x.cfg, x.w0) && Quiet(x) && VerifiesAndRevokes(x, es) && ReadsRun(x, es) && k in x.w0.store.keys
    ensures exists order :: KeyOrder(x, Exec(x.cfg, x.w0, es), k, order)
  {
    var part := KeyPart(x, Exec(x.cfg, x.w0, es), k);
    assert Around(x, x.w0.store) by {
      ReachableInv(x.cfg, x.w0);
      StoreAround(x);
    }
    KeyParted(x, es, k);
    RunApart(x, es, part, k);
    KeptOnKey(x, es, part, k);
    var order := PartOrderExists(x, Only(es, part), k);
    ApartOrder(x, Exec(x.cfg, x.w0, es), Exec(x.cfg, x.w0, Only(es, part)), part, k, order);
  }

  lemma {:induction false} MembersInOrder<G>(w: World, order: seq<nat>, group: nat -> G, g: G)
    requires Distinct(order) && InOrder(w, order)
    ensures Distinct(Members(order, group, g)) && InOrder(w, Members(order, group, g))
  {
    if order != [] {
      var front, c := order[..|order| - 1], order[|order| - 1];
      MembersInOrder(w, front, group, g);
      var part := Members(front, group, g);
      forall i | 0 <= i < |part| ensures part[i] != c && MayPrecede(w, part[i], c) {
        assert part[i] in part;
        var n :| 0 <= n < |front| && front[n] == part[i];
        assert MayPrecede(w, order[n], order[|order| - 1]);
      }
    }
  }

  // `order` lists the calls begun since w0, each once; no call comes before one
  // that had finished when it began; run alone in that order by the sequential
  // server, each gets the reply it got; and every key ends with the uses and the
  // enablement it ended with in the run.
  ghost predicate LinearizesAll(x: Setting, w: World, order: seq<nat>) {
    && (forall c :: c in order <==> c in w.calls && c !in x.w0.calls)
    && Distinct(order) && InOrder(w, order) && (forall i :: 0 <= i < |order| ==> L.RepliesMatch(x, w, order, i))
    && (forall k <- w.store.keys ::
          L.Status(Serial(x, Requests(w), order), k, w.store.keys[k].enabled, w.store.keys[k].remainingUses))
  }

  ghost function KeyOrderOf(x: Setting, w: World, k: string): (order: seq<nat>)
    requires exists order :: KeyOrder(x, w, k, order)
    ensures KeyOrder(x, w, k, order)
  {
    var order :| KeyOrder(x, w, k, order);
    order
  }

  ghost predicate KeysOrdered(x: Setting, w: World) {
    forall k <- x.w0.store.keys :: exists order :: KeyOrder(x, w, k, order)
  }

  // The orders to merge: one for each key, and the calls about no key in the
  // order they ended in.
  ghost function Parts(x: Setting, w: World, done: seq<nat>): map<Option<string>, seq<nat>>
    requires KeysOrdered(x, w)
  {
    (map k | k in set j | j in x.w0.store.keys :: Some(j) :: KeyOrderOf(x, w, k.value))
    [None := Members(done, GroupIn(x, Requests(w)), None)]
  }

  ghost function NewCalls(x: Setting, w: World): set<nat> {
    set c | c in w.calls && c !in x.w0.calls
  }

  lemma PlacedInKeyOrder(x: Setting, w: World, c: nat, k: string)
    requires Around(x, x.w0.store) && KeysOrdered(x, w) && c in w.calls && c !in x.w0.calls
    requires KeyOf(x, RequestOf(w.calls[c])) == Some(k)
    ensures k in x.w0.store.keys && c in KeyOrderOf(x, w, k)
  {
    assert k in x.w0.store.keys;
    assert KeyOrder(x, w, k, KeyOrderOf(x, w, k));
  }

  lemma PlacedInPart(x: Setting, w: World, done: seq<nat>, c: nat)
    requires Around(x, x.w0.store) && KeysOrdered(x, w) && Ended(x, w, done) && c in w.calls && c !in x.w0.calls && Finished(w.calls[c])
    ensures var g := GroupIn(x, Requests(w))(c); g in Parts(x, w, done) && c in Parts(x, w, done)[g]
  {
    match KeyOf(x, RequestOf(w.calls[c]))
    case None => assert c in done;
    case Some(k) => PlacedInKeyOrder(x, w, c, k);
  }

  lemma PartHolds(x: Setting, w: World, done: seq<nat>, g: Option<string>, c: nat)
    requires KeysOrdered(x, w) && Ended(x, w, done) && g in Parts(x, w, done) && c in Parts(x, w, done)[g]
    ensures c in NewCalls(x, w) && GroupIn(x, Requests(w))(c) == g
  {
    if g.Some? {
      assert KeyOrder(x, w, g.value, KeyOrderOf(x, w, g.value));
    } else {
      assert c in done;
    }
  }

  lemma PartsRemain(x: Setting, w: World, done: seq<nat>)
    requires Around(x, x.w0.store) && KeysOrdered(x, w) && Ended(x, w, done)
    requires forall c <- w.calls :: Finished(w.calls[c])
    ensures Remaining(NewCalls(x, w), Parts(x, w, done), GroupIn(x, Requests(w)))
  {
    var parts, group := Parts(x, w, done), GroupIn(x, Requests(w));
    forall c | c in NewCalls(x, w) ensures group(c) in parts && c in parts[group(c)] {
      PlacedInPart(x, w, done, c);
    }
    forall g, c | g in parts && c in parts[g] ensures c in NewCalls(x, w) && group(c) == g {
      PartHolds(x, w, done, g, c);
    }
  }

  lemma PartsInOrder(x: Setting, w: World, done: seq<nat>)
    requires KeysOrdered(x, w) && EndOrder(w, done)
    ensures PartsOk(w, Parts(x, w, done))
  {
    MembersInOrder(w, done, GroupIn(x, Requests(w)), None);
  }

  lemma AnswersNone(x: Setting, w: World, order: seq<nat>, i: nat)
    requires Around(x, x.w0.store) && i < |order| && (forall c <- order :: c in w.calls) && Asked(Requests(w), order)
    requires Finished(w.calls[order[i]]) && Placed(x, w.calls[order[i]]) && KeyOf(x, RequestOf(w.calls[order[i]])).None?
    ensures L.RepliesMatch(x, w, order, i)
  {
    ReplyNone(x, Requests(w), order, i);
  }

  lemma {:induction false} AnswersOn(x: Setting, w: World, order: seq<nat>, i: nat, k: string)
    requires Around(x, x.w0.store) && k in x.w0.store.keys && i < |order|
    requires (forall c <- order :: c in w.calls) && Asked(Requests(w), order) && KeyOf(x, RequestOf(w.calls[order[i]])) == Some(k)
    requires KeyOrder(x, w, k, Members(order, GroupIn(x, Requests(w)), Some(k)))
    ensures L.RepliesMatch(x, w, order, i)
  {
    var group := GroupIn(x, Requests(w));
    ReplyOn(x, Requests(w), order, i, k);
    assert L.RepliesMatch(x, w, Members(order, group, Some(k)), |Members(order[..i], group, Some(k))|);
  }

  lemma MergedKeyOrder(x: Setting, w: World, done: seq<nat>, order: seq<nat>, k: string)
    requires KeysOrdered(x, w) && k in x.w0.store.keys
    requires Merged(w, NewCalls(x, w), Parts(x, w, done), GroupIn(x, Requests(w)), order)
    ensures KeyOrder(x, w, k, Members(order, GroupIn(x, Requests(w)), Some(k)))
  {
    assert Some(k) in Parts(x, w, done) && Parts(x, w, done)[Some(k)] == KeyOrderOf(x, w, k);
  }

  lemma SpreadAsked(x: Setting, w: World, order: seq<nat>)
    requires Spread(x, w) && forall c <- order :: c in w.calls && c !in x.w0.calls
    ensures Asked(Requests(w), order) && forall c <- order :: Placed(x, w.calls[c])
  {
  }

  lemma MergedAnswers(x: Setting, w: World, done: seq<nat>, order: seq<nat>, i: nat)
    requires Around(x, x.w0.store) && KeysOrdered(x, w) && i < |order|
    requires Merged(w, NewCalls(x, w), Parts(x, w, done), GroupIn(x, Requests(w)), order)
    requires (forall c <- order :: c in w.calls) && Asked(Requests(w), order)
    requires Finished(w.calls[order[i]]) && Placed(x, w.calls[order[i]])
    ensures L.RepliesMatch(x, w, order, i)
  {
    match KeyOf(x, RequestOf(w.calls[order[i]]))
    case None => AnswersNone(x, w, order, i);
    case Some(k) =>
      MergedKeyOrder(x, w, done, order, k);
      AnswersOn(x, w, order, i, k);
  }

  lemma MergedStatus(x: Setting, w: World, done: seq<nat>, order: seq<nat>, k: string)
    requires Around(x, x.w0.store) && KeysOrdered(x, w) && k in x.w0.store.keys && k in w.store.keys
    requires Merged(w, NewCalls(x, w), Parts(x, w, done), GroupIn(x, Requests(w)), order)
    requires (forall c <- order :: c in w.calls) && Asked(Requests(w), order)
    ensures L.Status(Serial(x, Requests(w), order), k, w.store.keys[k].enabled, w.store.keys[k].remainingUses)
  {
    MergedKeyOrder(x, w, done, order, k);
    SerialOn(x, Requests(w), order, k);
  }

  // What the parts say of their calls the merged order says of all.
  lemma MergedLinearizes(x: Setting, w: World, done: seq<nat>, order: seq<nat>)
    requires Spread(x, w) && Around(x, x.w0.store) && KeysOrdered(x, w)
    requires forall c <- w.calls :: Finished(w.calls[c])
    requires Merged(w, NewCalls(x, w), Parts(x, w, done), GroupIn(x, Requests(w)), order)
    ensures LinearizesAll(x, w, order)
  {
    assert forall c <- order :: c in NewCalls(x, w);
    SpreadAsked(x, w, order);
    forall i | 0 <= i < |order| ensures L.RepliesMatch(x, w, order, i) {
      assert order[i] in order;
      MergedAnswers(x, w, done, order, i);
    }
    forall k | k in w.store.keys
      ensures L.Status(Serial(x, Requests(w), order), k, w.store.keys[k].enabled, w.store.keys[k].remainingUses)
    {
      MergedStatus(x, w, done, order, k);
    }
  }

  lemma {:induction false} RunSpread(x: Setting, es: seq<Event>)
    requires Around(x, x.w0.store) && Quiet(x) && Legal(x.cfg, x.w0, es)
    requires forall e <- es :: e.Begin? ==> VerifyOrRevoke(RequestOf(e.call))
    ensures Spread(x, Exec(x.cfg, x.w0, es))
  {
    if es != [] {
      var front, e := es[..|es| - 1], es[|es| - 1];
      assert e in es && forall d <- front :: d in es;
      RunSpread(x, front);
      match e
      case Begin(c, call) => SpreadBegin(x, Exec(x.cfg, x.w0, front), c, call);
      case Step(c, env) => SpreadStep(x, Exec(x.cfg, x.w0, front), c, env);
    }
  }

  lemma {:induction false} OrderForAll(x: Setting, es: seq<Event>) returns (order: seq<nat>)
    requires Reachable(x.cfg, x.w0) && Quiet(x) && VerifiesAndRevokes(x, es) && ReadsRun(x, es)
    ensures LinearizesAll(x, Exec(x.cfg, x.w0, es), order)
  {
    var w := Exec(x.cfg, x.w0, es);
    ReachableInv(x.cfg, x.w0);
    StoreAround(x);
    RunSpread(x, es);
    forall k | k in x.w0.store.keys ensures exists order :: KeyOrder(x, w, k, order) {
      KeyOrderExists(x, es, k);
    }
    var done := EndsInOrder(x, es);
    PartsRemain(x, w, done);
    PartsInOrder(x, w, done);
    order := Merge(w, done, NewCalls(x, w), Parts(x, w, done), GroupIn(x, Requests(w)));
    MergedLinearizes(x, w, done, order);
  }

  // For every complete run of verify and revoke calls, on however many keys and
  // none, begun when nothing was in flight, some sequential order of atomic calls
  // respects real time and gives every call the reply it got, each call checking
  // the clock and hearing from the limiter as it did in the run, and every key
  // the uses and the enablement it ended with.
  lemma {:induction false} AllKeysLinearizable(x: Setting, es: seq<Event>)
    requires Reachable(x.cfg, x.w0) && Quiet(x) && VerifiesAndRevokes(x, es)
    ensures exists y: Setting, order ::
              y == x.(envs := y.envs) && ReadsRun(y, es) && LinearizesAll(y, Exec(x.cfg, x.w0, es), order)
  {
    var y := ReadingsExist(x, es);
    var order := OrderForAll(y, es);
  }
}
