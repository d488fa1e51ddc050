/**
 The Postgres driver: tables with their constraints, each SQL statement one
 atomic step, and the driver's operations as one or two statements.
 */
module Postgres {
  import opened Domain
  import opened StoreSpec
  import Pagination

  datatype Table = Table(
    workspaces: map<string, Workspace>,
    apis: map<string, Api>,
    rows: map<string, Key>)

  datatype SqlOutcome = Success | UniqueViolation | ForeignKeyViolation

  // The unique constraint on the hash column.
  ghost predicate UniqueHashes(t: Table) {
    forall i, j :: i in t.rows && j in t.rows && t.rows[i].keyHash == t.rows[j].keyHash ==> i == j
  }

  ghost predicate HashTaken(t: Table, hash: Bytes, exceptId: string) {
    exists id :: id in t.rows && id != exceptId && t.rows[id].keyHash == hash
  }

  // ------------------------------------------------------------------
  // Statements
  // ------------------------------------------------------------------

  function InsertWorkspace(t: Table, w: Workspace): Table {
    t.(workspaces := t.workspaces[w.workspaceId := w])
  }

  function InsertApi(t: Table, a: Api): (Table, SqlOutcome) {
    if a.workspaceId !in t.workspaces then (t, ForeignKeyViolation)
    else (t.(apis := t.apis[a.apiId := a]), Success)
  }

  // Unique constraints are checked as the row goes in, references at the end
  // of the statement.
  ghost function InsertKey(t: Table, k: Key): (Table, SqlOutcome) {
    if k.keyId in t.rows || HashTaken(t, k.keyHash, k.keyId) then (t, UniqueViolation)
    else if k.apiId !in t.apis || k.workspaceId !in t.workspaces then (t, ForeignKeyViolation)
    else (t.(rows := t.rows[k.keyId := k]), Success)
  }

  ghost function UpdateHash(t: Table, id: string, hash: Bytes, now: Time): (Table, SqlOutcome) {
    if id !in t.rows then (t, Success)
    else if HashTaken(t, hash, id) then (t, UniqueViolation)
    else (t.(rows := t.rows[id := t.rows[id].(keyHash := hash, updatedAt := now)]), Success)
  }

  // Also matches a key that is already revoked, and stamps it again.
  function UpdateRevoke(t: Table, id: string, now: Time): (Table, bool) {
    if id !in t.rows then (t, false)
    else (t.(rows := t.rows[id := t.rows[id].(enabled := false, updatedAt := now)]), true)
  }

  function UpdateTouch(t: Table, id: string, at: Time): (Table, nat) {
    if id !in t.rows then (t, 0)
    else (t.(rows := t.rows[id := t.rows[id].(lastVerifiedAt := Some(at))]), 1)
  }

  function UpdateDecrement(t: Table, id: string, now: Time): (Table, Option<int>) {
    if id !in t.rows || t.rows[id].remainingUses <= 0 then (t, None)
    else
      var left := t.rows[id].remainingUses - 1;
      (t.(rows := t.rows[id := t.rows[id].(remainingUses := left, updatedAt := now)]), Some(left))
  }

  function SelectRemaining(t: Table, id: string): Option<int> {
    if id in t.rows then Some(t.rows[id].remainingUses) else None
  }

  function SelectById(t: Table, id: string): Result<Key> {
    if id in t.rows then Ok(t.rows[id]) else Err(NotFound)
  }

  ghost function SelectByHash(t: Table, hash: Bytes): Result<Key> {
    if k :| k in t.rows.Values && k.keyHash == hash then Ok(k) else Err(NotFound)
  }

  // SELECT ... WHERE the filter holds AND key_id > token ORDER BY key_id LIMIT n.
  ghost function SelectPage(t: Table, opts: ListOpts, limit: nat): (ks: seq<Key>)
    ensures |ks| <= limit
  {
    var ids := Pagination.SortedIds(Pagination.Remaining(AsState(t), opts));
    var n := if limit < |ids| then limit else |ids|;
    assert forall x <- ids[..n] :: x in Pagination.Elements(ids);
    Pagination.Keys(AsState(t), ids[..n])
  }

  // ------------------------------------------------------------------
  // Driver operations
  // ------------------------------------------------------------------

  function CreateWorkspace(t: Table, w: Workspace, id: string, now: Time): (Table, Workspace) {
    var w' := w.(workspaceId := id, createdAt := now, updatedAt := now);
    (InsertWorkspace(t, w'), w')
  }

  function GetWorkspace(t: Table, id: string): Result<Workspace> {
    if id in t.workspaces then Ok(t.workspaces[id]) else Err(NotFound)
  }

  function CreateApi(t: Table, a: Api, id: string, now: Time): (Table, Result<Api>) {
    var a' := a.(apiId := id, createdAt := now, updatedAt := now);
    var (t', outcome) := InsertApi(t, a');
    (t', if outcome.ForeignKeyViolation? then Err(NotFound) else Ok(a'))
  }

  function GetApi(t: Table, id: string): Result<Api> {
    if id in t.apis then Ok(t.apis[id]) else Err(NotFound)
  }

  ghost function CreateKey(t: Table, k: Key, id: string, now: Time): (Table, Result<Key>) {
    var k' := k.(keyId := id, createdAt := now, updatedAt := now);
    var (t', outcome) := InsertKey(t, k');
    (t', match outcome
         case ForeignKeyViolation => Err(NotFound)
         case UniqueViolation => Err(Conflict)
         case Success => Ok(k'))
  }

  function RevokeKey(t: Table, id: string, now: Time): (Table, Option<StoreError>) {
    var (t', found) := UpdateRevoke(t, id, now);
    (t', if found then None else Some(NotFound))
  }

  // Two statements: the update, then a read of the row.
  ghost function RotateKey(t: Table, id: string, hash: Bytes, now: Time): (Table, Result<Key>) {
    var (t', outcome) := UpdateHash(t, id, hash, now);
    (t', if outcome.UniqueViolation? then Err(Conflict) else SelectById(t', id))
  }

  function TouchLastVerified(t: Table, id: string, at: Time): (Table, Option<StoreError>) {
    var (t', affected) := UpdateTouch(t, id, at);
    (t', if affected == 0 then Some(NotFound) else None)
  }

  // What the driver makes of its two statements: the update's returned row if
  // there was one, and otherwise the value the later read found.
  function DecrementAnswer(updated: Option<int>, selected: Option<int>): DecrementReply {
    if updated.Some? then DecrementReply(updated.value, None)
    else if selected.None? then DecrementReply(0, Some(NotFound))
    else if selected.value < 0 then DecrementReply(-1, None)
    else DecrementReply(selected.value, Some(Depleted))
  }

  function Decrement(t: Table, id: string, now: Time): (Table, DecrementReply) {
    var (t', updated) := UpdateDecrement(t, id, now);
    (t', DecrementAnswer(updated, SelectRemaining(t', id)))
  }

  // Over-fetches by one row to learn whether another page follows.
  ghost function ListKeys(t: Table, opts: ListOpts): Page {
    var size := Pagination.PageSize(opts.pageSize);
    var rows := SelectPage(t, opts, size + 1);
    if |rows| > size then Page(rows[..size], rows[size - 1].keyId) else Page(rows, "")
  }

  // Rows are kept under their own primary key.
  ghost predicate KeyedRows(t: Table) {
    forall id <- t.rows :: t.rows[id].keyId == id
  }

  // Fetching one row too many gives the page, and the token, that sorting,
  // searching and slicing all matching identifiers gives.
  lemma OverFetch(t: Table, opts: ListOpts)
    requires KeyedRows(t)
    ensures ListKeys(t, opts) == Pagination.ListKeys(AsState(t), opts)
  {
    var rest, size := Pagination.SortedIds(Pagination.Remaining(AsState(t), opts)), Pagination.PageSize(opts.pageSize);
    var rows := SelectPage(t, opts, size + 1);
    Pagination.PageShape(AsState(t), opts);
    forall i | 0 <= i < |rest| ensures rest[i] in t.rows {
      assert rest[i] in Pagination.Elements(rest);
    }
    if |rest| > size {
      assert rows[size - 1].keyId == rest[size - 1];
      assert rows[..size] == Pagination.Keys(AsState(t), rest[..size]);
    }
  }

  // The driver's loop over the rows its query fetched, one more than the page
  // size, yields that page.
  method CollectPage(ghost t: Table, opts: ListOpts, rows: seq<Key>) returns (page: Page)
    requires KeyedRows(t) && rows == SelectPage(t, opts, Pagination.PageSize(opts.pageSize) + 1)
    ensures page == Pagination.ListKeys(AsState(t), opts)
  {
    var size := if opts.pageSize <= 0 then 50 else opts.pageSize;
    var out := [];
    for i := 0 to |rows|
      invariant out == rows[..i]
    {
      out := out + [rows[i]];
    }
    var next := "";
    if |out| > size {
      next := out[size - 1].keyId;
      out := out[..size];
    }
    page := Page(out, next);
    OverFetch(t, opts);
  }

  // ------------------------------------------------------------------
  // Interference between a driver operation's two statements
  // ------------------------------------------------------------------

  function AsState(t: Table): State {
    State(t.workspaces, t.apis, t.rows, map[])
  }

  // The writing statements other calls may run, one at a time.
  ghost function Exec(t: Table, op: Op): Table {
    match op
    case OpCreateWorkspace(w, id, now) => CreateWorkspace(t, w, id, now).0
    case OpCreateApi(a, id, now) => CreateApi(t, a, id, now).0
    case OpCreateKey(k, id, now) => CreateKey(t, k, id, now).0
    case OpRevoke(id, now) => UpdateRevoke(t, id, now).0
    case OpRotate(id, hash, now) => UpdateHash(t, id, hash, now).0
    case OpTouch(id, at) => UpdateTouch(t, id, at).0
    case OpDecrement(id, now) => UpdateDecrement(t, id, now).0
  }

  ghost function ExecAll(t: Table, ops: seq<Op>): Table {
    if ops == [] then t else Exec(ExecAll(t, ops[..|ops| - 1]), ops[|ops| - 1])
  }

  ghost predicate FreshOps(t: Table, ops: seq<Op>) {
    ops == [] ||
    (FreshOps(t, ops[..|ops| - 1]) && Fresh(AsState(ExecAll(t, ops[..|ops| - 1])), ops[|ops| - 1]))
  }

  lemma {:induction false} StatementsEvolve(t: Table, ops: seq<Op>)
    requires FreshOps(t, ops)
    ensures Evolves(AsState(t), AsState(ExecAll(t, ops)))
    ensures UniqueHashes(t) ==> UniqueHashes(ExecAll(t, ops))
    ensures KeyedRows(t) ==> KeyedRows(ExecAll(t, ops))
  {
    if ops != [] {
      var before := ExecAll(t, ops[..|ops| - 1]);
      StatementsEvolve(t, ops[..|ops| - 1]);
      StatementEvolves(before, ops[|ops| - 1]);
      StatementKeepsUnique(before, ops[|ops| - 1]);
      EvolvesTransitive(AsState(t), AsState(before), AsState(ExecAll(t, ops)));
    }
  }

  lemma StatementEvolves(t: Table, op: Op)
    requires Fresh(AsState(t), op)
    ensures Evolves(AsState(t), AsState(Exec(t, op)))
  {
    var t' := Exec(t, op);
    if t'.rows != t.rows {
      PutEvolves(AsState(t), AsState(t'), op.id);
    }
  }

  lemma StatementKeepsUnique(t: Table, op: Op)
    ensures UniqueHashes(t) ==> UniqueHashes(Exec(t, op))
    ensures KeyedRows(t) ==> KeyedRows(Exec(t, op))
  {
  }

  // The whole decrement when other calls' statements run between its two.
  ghost function DecrementAmid(t: Table, id: string, now: Time, others: seq<Op>): DecrementReply {
    var (t', updated) := UpdateDecrement(t, id, now);
    DecrementAnswer(updated, SelectRemaining(ExecAll(t', others), id))
  }

  // The call looks atomic: its reply and its write are those of the in-memory
  // decrement at the instant of its first statement, or it wrote nothing and
  // its reply is the one the in-memory decrement would have given, writing
  // nothing, at some instant before its last statement.
  ghost predicate LooksAtomic(t: Table, id: string, now: Time, others: seq<Op>) {
    var reply, t' := DecrementAmid(t, id, now, others), UpdateDecrement(t, id, now).0;
    || (StoreSpec.Decrement(AsState(t), id, now) == (AsState(t'), reply))
    || (t' == t && exists n :: 0 <= n <= |others| && AnswersAt(AsState(ExecAll(t, others[..n])), id, now, reply))
  }

  // In this state the in-memory decrement writes nothing and gives this reply.
  ghost predicate AnswersAt(s: State, id: string, now: Time, reply: DecrementReply) {
    StoreSpec.Decrement(s, id, now) == (s, reply)
  }

  // The later read finds a key that has been there all along no richer than
  // the update left it, and limited or unlimited as it was.
  lemma {:induction false} ReadAfterUpdate(t: Table, id: string, now: Time, others: seq<Op>)
    requires id in t.rows && FreshOps(UpdateDecrement(t, id, now).0, others)
    ensures var before, after := t.rows[id].remainingUses, SelectRemaining(ExecAll(UpdateDecrement(t, id, now).0, others), id);
            && after.Some?
            && (before < 0 ==> after.value == before)
            && (before == 0 ==> after.value == 0)
  {
    StatementsEvolve(UpdateDecrement(t, id, now).0, others);
  }

  // For a key that exists when the call starts, whatever runs in between, the
  // call looks atomic; indeed at its first statement.
  lemma {:induction false} DecrementAtomicForExistingKey(t: Table, id: string, now: Time, others: seq<Op>)
    requires id in t.rows && FreshOps(UpdateDecrement(t, id, now).0, others)
    ensures LooksAtomic(t, id, now, others)
    ensures StoreSpec.Decrement(AsState(t), id, now) == (AsState(UpdateDecrement(t, id, now).0), DecrementAmid(t, id, now, others))
  {
    ReadAfterUpdate(t, id, now, others);
  }

  // Not there at the update, there with credit at the read.
  predicate AppearedWithCredit(t: Table, id: string, end: Table) {
    id !in t.rows && id in end.rows && end.rows[id].remainingUses > 0
  }

  // In general it looks atomic except in one case: the key was absent at the
  // update and has credit at the read. Then the driver reports a depleted key
  // with credit left, which the in-memory decrement never does.
  lemma {:induction false} DecrementAtomicIff(t: Table, id: string, now: Time, others: seq<Op>)
    requires FreshOps(UpdateDecrement(t, id, now).0, others)
    ensures LooksAtomic(t, id, now, others) <==> !AppearedWithCredit(t, id, ExecAll(t, others))
  {
    if id in t.rows {
      DecrementAtomicForExistingKey(t, id, now, others);
    } else {
      var end := ExecAll(t, others);
      assert others[..|others|] == others;
      if id !in end.rows || end.rows[id].remainingUses <= 0 {
        assert AnswersAt(AsState(end), id, now, DecrementAmid(t, id, now, others));
      }
    }
  }

  // That does occur: one insert between the two statements.
  lemma DecrementAnomaly()
    ensures exists t: Table, id: string, others: seq<Op> ::
              FreshOps(UpdateDecrement(t, id, 0).0, others) && !LooksAtomic(t, id, 0, others)
  {
    var w, a := Workspace("w", "", "", 0, 0, map[]), Api("a", "w", "", "", 0, 0, map[]);
    var t := Table(map["w" := w], map["a" := a], map[]);
    var others := [OpCreateKey(ZERO_KEY.(apiId := "a", workspaceId := "w", remainingUses := 1), "k", 0)];
    assert others[..0] == [] && others[..|others| - 1] == [];
    assert ExecAll(t, []) == t && FreshOps(t, []);
    assert FreshOps(t, others);
    assert "k" in ExecAll(t, others).rows && ExecAll(t, others).rows["k"].remainingUses == 1;
    DecrementAtomicIff(t, "k", 0, others);
  }

  // The whole rotate when other calls' statements run between its two. The
  // driver does not look at how many rows its update matched.
  ghost function RotateAmid(t: Table, id: string, hash: Bytes, now: Time, others: seq<Op>): Result<Key> {
    var (t', outcome) := UpdateHash(t, id, hash, now);
    if outcome.UniqueViolation? then Err(Conflict) else SelectById(ExecAll(t', others), id)
  }

  // The call looks atomic at its update: refused or not as it was there, and
  // the record returned is the one written, moved on by what ran in between.
  ghost predicate RotateLooksAtomic(t: Table, id: string, hash: Bytes, now: Time, others: seq<Op>) {
    var written, reply := RotateKey(t, id, hash, now).1, RotateAmid(t, id, hash, now, others);
    if written.Ok? then reply.Ok? && KeyEvolves(written.value, reply.value) else reply == written
  }

  predicate Appeared(t: Table, id: string, end: Table) {
    id !in t.rows && id in end.rows
  }

  // It looks atomic except when the key was absent at the update and is there
  // at the read: then a record that was never rotated is returned as rotated. A
  // successful reply means the hash was written exactly when the key was there
  // at the update.
  lemma {:induction false} RotateAtomicIff(t: Table, id: string, hash: Bytes, now: Time, others: seq<Op>)
    requires FreshOps(UpdateHash(t, id, hash, now).0, others)
    ensures RotateLooksAtomic(t, id, hash, now, others) <==> !Appeared(t, id, ExecAll(t, others))
    ensures RotateAmid(t, id, hash, now, others).Ok? ==>
              var t' := UpdateHash(t, id, hash, now).0;
              if id in t.rows then t' == t.(rows := t.rows[id := t.rows[id].(keyHash := hash, updatedAt := now)])
              else t' == t && Appeared(t, id, ExecAll(t, others))
  {
    var t' := UpdateHash(t, id, hash, now).0;
    StatementsEvolve(t', others);
    if id in t.rows && HashTaken(t, hash, id) {
      assert RotateKey(t, id, hash, now).1 == RotateAmid(t, id, hash, now, others);
    }
  }

  // That does occur: one insert between the two statements.
  lemma RotateAnomaly()
    ensures exists t: Table, id: string, hash: Bytes, others: seq<Op> ::
              && FreshOps(UpdateHash(t, id, hash, 0).0, others) && !RotateLooksAtomic(t, id, hash, 0, others)
              && RotateAmid(t, id, hash, 0, others).Ok? && RotateAmid(t, id, hash, 0, others).value.keyHash != hash
  {
    var w, a := Workspace("w", "", "", 0, 0, map[]), Api("a", "w", "", "", 0, 0, map[]);
    var t := Table(map["w" := w], map["a" := a], map[]);
    var hash: Bytes := [0];
    var others := [OpCreateKey(ZERO_KEY.(apiId := "a", workspaceId := "w"), "k", 0)];
    assert others[..0] == [] && others[..|others| - 1] == [];
    assert ExecAll(t, []) == t && FreshOps(t, []);
    assert FreshOps(t, others);
    assert "k" in ExecAll(t, others).rows && ExecAll(t, others).rows["k"].keyHash == [];
    RotateAtomicIff(t, "k", hash, 0, others);
    assert RotateAmid(t, "k", hash, 0, others).value.keyHash != hash;
  }

  // The server reads the key before it rotates it, so for it the call always
  // looks atomic, whatever runs between the read and the update as well.
  lemma {:induction false} ServerRotateIsAtomic(t: Table, id: string, hash: Bytes, now: Time, meanwhile: seq<Op>, others: seq<Op>)
    requires SelectById(t, id).Ok? && FreshOps(t, meanwhile)
    requires FreshOps(UpdateHash(ExecAll(t, meanwhile), id, hash, now).0, others)
    ensures RotateLooksAtomic(ExecAll(t, meanwhile), id, hash, now, others)
  {
    StatementsEvolve(t, meanwhile);
    RotateAtomicIff(ExecAll(t, meanwhile), id, hash, now, others);
  }

  // So for the decrement, which a verify call makes only on a key it looked up.
  lemma {:induction false} ServerDecrementIsAtomic(t: Table, id: string, now: Time, meanwhile: seq<Op>, others: seq<Op>)
    requires SelectById(t, id).Ok? && FreshOps(t, meanwhile)
    requires FreshOps(UpdateDecrement(ExecAll(t, meanwhile), id, now).0, others)
    ensures LooksAtomic(ExecAll(t, meanwhile), id, now, others)
  {
    StatementsEvolve(t, meanwhile);
    DecrementAtomicForExistingKey(ExecAll(t, meanwhile), id, now, others);
  }
}
