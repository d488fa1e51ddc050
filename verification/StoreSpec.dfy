/**
 The store as a value, and every atomic operation as a function on it. The
 in-memory driver holds a mutex for a whole operation, so each function below is
 one atomic step of that driver.
 */
module StoreSpec {
  import opened Domain

  datatype State = State(
    workspaces: map<string, Workspace>,
    apis: map<string, Api>,
    keys: map<string, Key>,
    hashIndex: map<Bytes, string>)

  const EMPTY := State(map[], map[], map[], map[])

  // ------------------------------------------------------------------
  // Operations
  // ------------------------------------------------------------------

  function CreateWorkspace(s: State, w: Workspace, id: string, now: Time): (State, Workspace) {
    var w' := w.(workspaceId := id, createdAt := now, updatedAt := now);
    (s.(workspaces := s.workspaces[id := w']), w')
  }

  function GetWorkspace(s: State, id: string): Result<Workspace> {
    if id in s.workspaces then Ok(s.workspaces[id]) else Err(NotFound)
  }

  function CreateApi(s: State, a: Api, id: string, now: Time): (State, Result<Api>) {
    if a.workspaceId !in s.workspaces then
      (s, Err(NotFound))
    else
      var a' := a.(apiId := id, createdAt := now, updatedAt := now);
      (s.(apis := s.apis[id := a']), Ok(a'))
  }

  function GetApi(s: State, id: string): Result<Api> {
    if id in s.apis then Ok(s.apis[id]) else Err(NotFound)
  }

  function CreateKey(s: State, k: Key, id: string, now: Time): (State, Result<Key>) {
    if k.apiId !in s.apis then
      (s, Err(NotFound))
    else if k.keyHash in s.hashIndex then
      (s, Err(Conflict))
    else
      var k' := k.(keyId := id, createdAt := now, updatedAt := now);
      (s.(keys := s.keys[id := k'], hashIndex := s.hashIndex[k.keyHash := id]), Ok(k'))
  }

  function GetKeyById(s: State, id: string): Result<Key> {
    if id in s.keys then Ok(s.keys[id]) else Err(NotFound)
  }

  function GetKeyByHash(s: State, hash: Bytes): Result<Key> {
    if hash !in s.hashIndex then
      Err(NotFound)
    else
      var id := s.hashIndex[hash];
      Ok(if id in s.keys then s.keys[id] else ZERO_KEY)
  }

  function RevokeKey(s: State, id: string, now: Time): (State, Option<StoreError>) {
    if id !in s.keys then
      (s, Some(NotFound))
    else if !s.keys[id].enabled then
      (s, None)
    else
      (s.(keys := s.keys[id := s.keys[id].(enabled := false, updatedAt := now)]), None)
  }

  function RotateKey(s: State, id: string, newHash: Bytes, now: Time): (State, Result<Key>) {
    if id !in s.keys then
      (s, Err(NotFound))
    else if newHash in s.hashIndex && s.hashIndex[newHash] != id then
      (s, Err(Conflict))
    else
      var k' := s.keys[id].(keyHash := newHash, updatedAt := now);
      var index := (s.hashIndex - {s.keys[id].keyHash})[newHash := id];
      (s.(keys := s.keys[id := k'], hashIndex := index), Ok(k'))
  }

  function TouchLastVerified(s: State, id: string, at: Time): (State, Option<StoreError>) {
    if id !in s.keys then
      (s, Some(NotFound))
    else
      (s.(keys := s.keys[id := s.keys[id].(lastVerifiedAt := Some(at))]), None)
  }

  function Decrement(s: State, id: string, now: Time): (State, DecrementReply) {
    if id !in s.keys then
      (s, DecrementReply(0, Some(NotFound)))
    else
      var k := s.keys[id];
      if k.remainingUses < 0 then
        (s, DecrementReply(-1, None))
      else if k.remainingUses == 0 then
        (s, DecrementReply(0, Some(Depleted)))
      else
        var k' := k.(remainingUses := k.remainingUses - 1, updatedAt := now);
        (s.(keys := s.keys[id := k']), DecrementReply(k'.remainingUses, None))
  }

  // A touch fails exactly without a key, and writes nothing but one stamp.
  lemma TouchStamps(s: State, id: string, at: Time)
    ensures var (s', e) := TouchLastVerified(s, id, at);
            && e == (if id in s.keys then None else Some(NotFound))
            && s'.workspaces == s.workspaces && s'.apis == s.apis && s'.hashIndex == s.hashIndex && s'.keys.Keys == s.keys.Keys
            && (forall other <- s.keys :: other != id ==> s'.keys[other] == s.keys[other])
            && (id in s.keys ==>
                  var k := s.keys[id];
                  s'.keys[id] == Key(k.keyId, k.apiId, k.workspaceId, k.ownerPrincipalId, k.name, k.keyHash, k.permissions,
                                     k.limitRefs, k.expiresAt, k.remainingUses, k.enabled, k.createdAt, k.updatedAt, Some(at),
                                     k.metadata))
  {
  }

  // A decrement reports the uses it leaves, -1 for an unlimited key, and an error
  // exactly when there is no key or no use left.
  lemma DecrementReports(s: State, id: string, now: Time)
    ensures var (s', r) := Decrement(s, id, now);
            && (r.error == Some(NotFound) <==> id !in s.keys)
            && (r.error == Some(Depleted) <==> id in s.keys && s.keys[id].remainingUses == 0)
            && (r.error.Some? ==> s' == s && r.remaining == 0)
            && (r.error.None? <==> id in s.keys && s.keys[id].remainingUses != 0)
            && (r.error.None? ==> r.remaining == if s.keys[id].remainingUses < 0 then -1 else s'.keys[id].remainingUses)
  {
  }

  // ------------------------------------------------------------------
  // Every writing operation as one datatype
  // ------------------------------------------------------------------

  // Identifiers and clock readings are inputs: the source draws them from a
  // UUID generator and the wall clock.
  datatype Op =
    | OpCreateWorkspace(w: Workspace, id: string, now: Time)
    | OpCreateApi(a: Api, id: string, now: Time)
    | OpCreateKey(k: Key, id: string, now: Time)
    | OpRevoke(id: string, now: Time)
    | OpRotate(id: string, newHash: Bytes, now: Time)
    | OpTouch(id: string, at: Time)
    | OpDecrement(id: string, now: Time)

  function Do(s: State, op: Op): State {
    match op
    case OpCreateWorkspace(w, id, now) => CreateWorkspace(s, w, id, now).0
    case OpCreateApi(a, id, now) => CreateApi(s, a, id, now).0
    case OpCreateKey(k, id, now) => CreateKey(s, k, id, now).0
    case OpRevoke(id, now) => RevokeKey(s, id, now).0
    case OpRotate(id, newHash, now) => RotateKey(s, id, newHash, now).0
    case OpTouch(id, at) => TouchLastVerified(s, id, at).0
    case OpDecrement(id, now) => Decrement(s, id, now).0
  }

  function DoAll(s: State, ops: seq<Op>): State {
    if ops == [] then s else Do(DoAll(s, ops[..|ops| - 1]), ops[|ops| - 1])
  }

  // The assumption on generated identifiers: non-empty and not yet in use.
  predicate Fresh(s: State, op: Op) {
    match op
    case OpCreateWorkspace(_, id, _) => id != "" && id !in s.workspaces
    case OpCreateApi(_, id, _) => id != "" && id !in s.apis
    case OpCreateKey(_, id, _) => id != "" && id !in s.keys
    case _ => true
  }

  predicate FreshAll(s: State, ops: seq<Op>) {
    ops == [] ||
    (FreshAll(s, ops[..|ops| - 1]) && Fresh(DoAll(s, ops[..|ops| - 1]), ops[|ops| - 1]))
  }

  // ------------------------------------------------------------------
  // The secondary index agrees with the key table
  // ------------------------------------------------------------------

  ghost predicate IndexAgrees(s: State) {
    && (forall id <- s.keys :: s.keys[id].keyId == id && id != "")
    && (forall h <- s.hashIndex :: s.hashIndex[h] in s.keys && s.keys[s.hashIndex[h]].keyHash == h)
    && (forall id <- s.keys :: s.keys[id].keyHash in s.hashIndex && s.hashIndex[s.keys[id].keyHash] == id)
  }

  lemma CreateKeepsIndex(s: State, op: Op)
    requires IndexAgrees(s) && Fresh(s, op) && op.OpCreateKey?
    ensures IndexAgrees(Do(s, op))
  {
  }

  // Also when the new hash is the old one, or is taken by another key.
  lemma RotateKeepsIndex(s: State, op: Op)
    requires IndexAgrees(s) && op.OpRotate?
    ensures IndexAgrees(Do(s, op))
  {
  }

  lemma SameHashKeepsIndex(s: State, id: string, k: Key)
    requires IndexAgrees(s) && id in s.keys && k.keyId == id && k.keyHash == s.keys[id].keyHash
    ensures IndexAgrees(s.(keys := s.keys[id := k]))
  {
  }

  lemma OtherKeepsIndex(s: State, op: Op)
    requires IndexAgrees(s) && !op.OpCreateKey? && !op.OpRotate?
    ensures IndexAgrees(Do(s, op))
  {
    var s' := Do(s, op);
    if s'.keys != s.keys {
      SameHashKeepsIndex(s, op.id, s'.keys[op.id]);
    }
  }

  lemma OpKeepsIndex(s: State, op: Op)
    requires IndexAgrees(s) && Fresh(s, op)
    ensures IndexAgrees(Do(s, op))
  {
    if op.OpCreateKey? {
      CreateKeepsIndex(s, op);
    } else if op.OpRotate? {
      RotateKeepsIndex(s, op);
    } else {
      OtherKeepsIndex(s, op);
    }
  }

  // From the empty store, through any sequence of operations, accepted or
  // rejected: hashIndex[h] is id exactly when key id exists and has hash h,
  // so looking a hash up in the index is the same as scanning all keys, and
  // no two keys share a hash.
  lemma {:induction false} IndexIsScan(ops: seq<Op>)
    requires FreshAll(EMPTY, ops)
    ensures var s := DoAll(EMPTY, ops);
            && IndexAgrees(s)
            && (forall h, id :: (h in s.hashIndex && s.hashIndex[h] == id) <==> (id in s.keys && s.keys[id].keyHash == h))
            && (forall h, k :: GetKeyByHash(s, h) == Ok(k) <==> k in s.keys.Values && k.keyHash == h)
            && (forall h :: GetKeyByHash(s, h) == Err(NotFound) <==> forall id <- s.keys :: s.keys[id].keyHash != h)
            && (forall i, j :: i in s.keys && j in s.keys && s.keys[i].keyHash == s.keys[j].keyHash ==> i == j)
  {
    if ops != [] {
      IndexIsScan(ops[..|ops| - 1]);
      OpKeepsIndex(DoAll(EMPTY, ops[..|ops| - 1]), ops[|ops| - 1]);
    }
    ScanAgrees(DoAll(EMPTY, ops));
  }

  lemma ScanAgrees(s: State)
    requires IndexAgrees(s)
    ensures forall h, k :: GetKeyByHash(s, h) == Ok(k) <==> k in s.keys.Values && k.keyHash == h
    ensures forall h :: GetKeyByHash(s, h) == Err(NotFound) <==> forall id <- s.keys :: s.keys[id].keyHash != h
  {
    forall h, k | k in s.keys.Values && k.keyHash == h
      ensures GetKeyByHash(s, h) == Ok(k)
    {
      var id :| id in s.keys && s.keys[id] == k;
    }
  }

  // ------------------------------------------------------------------
  // How a key may change over time
  // ------------------------------------------------------------------

  // The fields no operation ever changes.
  function Frozen(k: Key): Key {
    k.(keyHash := [], remainingUses := 0, enabled := true, updatedAt := 0, lastVerifiedAt := None)
  }

  predicate KeyEvolves(k: Key, k': Key) {
    && Frozen(k) == Frozen(k')
    && (k'.enabled ==> k.enabled)
    && (if k.remainingUses < 0 then k'.remainingUses == k.remainingUses
        else 0 <= k'.remainingUses <= k.remainingUses)
    && (k.lastVerifiedAt.Some? ==> k'.lastVerifiedAt.Some?)
  }

  // Workspaces and APIs never change or disappear, keys never disappear, and
  // each key only evolves.
  ghost predicate Evolves(s: State, s': State) {
    && (forall id <- s.workspaces :: id in s'.workspaces && s'.workspaces[id] == s.workspaces[id])
    && (forall id <- s.apis :: id in s'.apis && s'.apis[id] == s.apis[id])
    && (forall id <- s.keys :: id in s'.keys && KeyEvolves(s.keys[id], s'.keys[id]))
  }

  // One key put in place of itself, or a new one.
  lemma PutEvolves(s: State, s': State, id: string)
    requires s'.workspaces == s.workspaces && s'.apis == s.apis
    requires id in s'.keys && s'.keys == s.keys[id := s'.keys[id]]
    requires id in s.keys ==> KeyEvolves(s.keys[id], s'.keys[id])
    ensures Evolves(s, s')
  {
  }

  lemma OpEvolves(s: State, op: Op)
    requires Fresh(s, op)
    ensures Evolves(s, Do(s, op))
  {
    var s' := Do(s, op);
    if s'.keys != s.keys {
      PutEvolves(s, s', op.id);
    }
  }

  lemma EvolvesTransitive(a: State, b: State, c: State)
    requires Evolves(a, b) && Evolves(b, c)
    ensures Evolves(a, c)
  {
  }

  lemma {:induction false} OpsEvolve(s: State, ops: seq<Op>)
    requires FreshAll(s, ops)
    ensures Evolves(s, DoAll(s, ops))
    ensures IndexAgrees(s) ==> IndexAgrees(DoAll(s, ops))
  {
    if ops != [] {
      var before := DoAll(s, ops[..|ops| - 1]);
      OpsEvolve(s, ops[..|ops| - 1]);
      OpEvolves(before, ops[|ops| - 1]);
      EvolvesTransitive(s, before, Do(before, ops[|ops| - 1]));
      if IndexAgrees(s) {
        OpKeepsIndex(before, ops[|ops| - 1]);
      }
    }
  }

  // ------------------------------------------------------------------
  // Tenants
  // ------------------------------------------------------------------

  // Every API belongs to a workspace that exists, and every key to an API that
  // exists and names the same workspace.
  ghost predicate Tenancy(s: State) {
    && (forall id <- s.apis :: s.apis[id].apiId == id && s.apis[id].workspaceId in s.workspaces)
    && (forall id <- s.keys :: s.keys[id].apiId in s.apis && s.apis[s.keys[id].apiId].workspaceId == s.keys[id].workspaceId)
  }

  // A key is inserted under its own API's workspace.
  predicate InTenant(s: State, op: Op) {
    op.OpCreateKey? && op.k.apiId in s.apis ==> op.k.workspaceId == s.apis[op.k.apiId].workspaceId
  }

  lemma OpKeepsTenancy(s: State, op: Op)
    requires Tenancy(s) && Fresh(s, op) && InTenant(s, op)
    ensures Tenancy(Do(s, op))
  {
  }

  // ------------------------------------------------------------------
  // Frame and commutation
  // ------------------------------------------------------------------

  // Operations on one existing key, as issued by verify, revoke and rotate.
  predicate OnKey(op: Op, id: string) {
    (op.OpRevoke? || op.OpRotate? || op.OpTouch? || op.OpDecrement?) && op.id == id
  }

  // Equality up to the update stamp.
  ghost predicate SameButUpdated(s: State, t: State) {
    && s.workspaces == t.workspaces && s.apis == t.apis && s.hashIndex == t.hashIndex
    && s.keys.Keys == t.keys.Keys
    && forall id <- s.keys :: s.keys[id].(updatedAt := 0) == t.keys[id].(updatedAt := 0)
  }

  // What one operation does to the key it names, given whether a rotate's new
  // hash belongs to another key.
  function Landed(k: Key, op: Op, taken: bool): Key {
    match op
    case OpRevoke(_, now) => if k.enabled then k.(enabled := false, updatedAt := now) else k
    case OpRotate(_, h, now) => if taken then k else k.(keyHash := h, updatedAt := now)
    case OpTouch(_, at) => k.(lastVerifiedAt := Some(at))
    case OpDecrement(_, now) =>
      if k.remainingUses > 0 then k.(remainingUses := k.remainingUses - 1, updatedAt := now) else k
    case _ => k
  }

  predicate Taken(s: State, op: Op) {
    op.OpRotate? && op.newHash in s.hashIndex && s.hashIndex[op.newHash] != op.id
  }

  function Reindexed(s: State, op: Op): map<Bytes, string> {
    if op.OpRotate? && op.id in s.keys && !Taken(s, op)
    then (s.hashIndex - {s.keys[op.id].keyHash})[op.newHash := op.id]
    else s.hashIndex
  }

  lemma KeyOpShape(s: State, op: Op, id: string)
    requires id in s.keys && OnKey(op, id)
    ensures Do(s, op) == s.(keys := s.keys[id := Landed(s.keys[id], op, Taken(s, op))], hashIndex := Reindexed(s, op))
  {
    assert s.keys[id := s.keys[id]] == s.keys;
  }

  predicate Independent(a: Op, b: Op) {
    !(a.OpRotate? && b.OpRotate?) && !(a.OpTouch? && b.OpTouch?)
  }

  // Field by field: each operation writes its own.
  lemma LandedFields(k: Key, op: Op, taken: bool)
    ensures Landed(k, op, taken).(updatedAt := 0) == k.(
              enabled := k.enabled && !op.OpRevoke?,
              keyHash := if op.OpRotate? && !taken then op.newHash else k.keyHash,
              lastVerifiedAt := if op.OpTouch? then Some(op.at) else k.lastVerifiedAt,
              remainingUses := if op.OpDecrement? && k.remainingUses > 0 then k.remainingUses - 1 else k.remainingUses,
              updatedAt := 0)
  {
  }

  lemma LandedCommute(k: Key, a: Op, b: Op, takenA: bool, takenB: bool)
    requires Independent(a, b)
    ensures Landed(Landed(k, a, takenA), b, takenB).(updatedAt := 0)
         == Landed(Landed(k, b, takenB), a, takenA).(updatedAt := 0)
  {
    var ka, kb := Landed(k, a, takenA), Landed(k, b, takenB);
    LandedFields(k, a, takenA);
    LandedFields(k, b, takenB);
    LandedFields(ka, b, takenB);
    LandedFields(kb, a, takenA);
  }

  lemma OtherOpKeepsIndexing(s: State, a: Op, b: Op, id: string)
    requires id in s.keys && OnKey(a, id) && OnKey(b, id) && !b.OpRotate?
    ensures Taken(Do(s, b), a) == Taken(s, a) && Reindexed(Do(s, b), a) == Reindexed(s, a)
    ensures Reindexed(s, b) == s.hashIndex
  {
  }

  // Every pair of revoke, rotate, decrement and touch on one key commutes up to
  // the update stamp, except two writes of the same field: two rotates, or two
  // touches. No revoke, credit or hash write is lost whichever lands first.
  lemma KeyOpsCommute(s: State, a: Op, b: Op, id: string)
    requires id in s.keys && OnKey(a, id) && OnKey(b, id) && Independent(a, b)
    ensures SameButUpdated(Do(Do(s, a), b), Do(Do(s, b), a))
  {
    if b.OpRotate? {
      KeyOpsCommuteNoRotate(s, b, a, id);
    } else {
      KeyOpsCommuteNoRotate(s, a, b, id);
    }
  }

  lemma KeyOpsCommuteNoRotate(s: State, a: Op, b: Op, id: string)
    requires id in s.keys && OnKey(a, id) && OnKey(b, id) && Independent(a, b) && !b.OpRotate?
    ensures SameButUpdated(Do(Do(s, a), b), Do(Do(s, b), a))
  {
    var k, ta, tb, index := s.keys[id], Taken(s, a), Taken(s, b), Reindexed(s, a);
    var ka, kb := Landed(k, a, ta), Landed(k, b, tb);
    var sa, sb := s.(keys := s.keys[id := ka], hashIndex := index), s.(keys := s.keys[id := kb]);
    OtherOpKeepsIndexing(s, a, b, id);
    assert Do(s, a) == sa by { KeyOpShape(s, a, id); }
    assert Do(s, b) == sb by { KeyOpShape(s, b, id); }
    var kab, kba := Landed(ka, b, tb), Landed(kb, a, ta);
    assert Do(sa, b) == sa.(keys := sa.keys[id := kab]) by { KeyOpShape(sa, b, id); }
    assert Do(sb, a) == sb.(keys := sb.keys[id := kba], hashIndex := index) by { KeyOpShape(sb, a, id); }
    LandedCommute(k, a, b, ta, tb);
  }

  // A rotate replaces the hash and the update stamp of one key and moves that
  // key's index entry; every other key, entry and field is untouched. The new
  // hash resolves to the key and the old one, if different, to nothing.
  lemma RotateFrame(s: State, id: string, newHash: Bytes, now: Time)
    requires IndexAgrees(s) && id in s.keys
    ensures var (s', r) := RotateKey(s, id, newHash, now);
            && (r.Err? <==> exists other :: other in s.keys && other != id && s.keys[other].keyHash == newHash)
            && (r.Err? ==> s' == s)
            && (r.Ok? ==>
                  && s'.keys == s.keys[id := s.keys[id].(keyHash := newHash, updatedAt := now)]
                  && GetKeyByHash(s', newHash) == r
                  && (newHash != s.keys[id].keyHash ==> GetKeyByHash(s', s.keys[id].keyHash) == Err(NotFound))
                  && (forall h :: h != newHash && h != s.keys[id].keyHash ==> GetKeyByHash(s', h) == GetKeyByHash(s, h)))
  {
  }
}
