/**
 The heap boundary of the in-memory driver over whole runs: a caller that keeps
 every record it ever passed in or got back, and writes into them at will
 between calls, never touches what the store keeps.
 */
module Isolation {
  import opened Domain
  import opened MemoryStore
  import P = Pagination
  import S = StoreSpec

  // What a record says.
  datatype Content = OfWorkspace(w: Workspace) | OfApi(a: Api) | OfKey(k: Key)

  ghost function GotWorkspace(r: Result<Workspace>): Option<Content> {
    if r.Ok? then Some(OfWorkspace(r.value)) else None
  }

  ghost function GotApi(r: Result<Api>): Option<Content> {
    if r.Ok? then Some(OfApi(r.value)) else None
  }

  ghost function GotKey(r: Result<Key>): Option<Content> {
    if r.Ok? then Some(OfKey(r.value)) else None
  }

  // A record in the caller's hands.
  datatype Held = HeldWorkspace(w: WorkspaceRec) | HeldApi(a: ApiRec) | HeldKey(k: KeyRec)
  {
    ghost predicate Outside(r: set<object>) {
      match this
      case HeldWorkspace(w) => w.Outside(r)
      case HeldApi(a) => a.Outside(r)
      case HeldKey(k) => k.Outside(r)
    }

    ghost function Foot(): set<object> {
      match this
      case HeldWorkspace(w) => w.Foot()
      case HeldApi(a) => a.Foot()
      case HeldKey(k) => k.Foot()
    }

    ghost function Value(): Content
      reads Foot()
    {
      match this
      case HeldWorkspace(w) => OfWorkspace(w.Value())
      case HeldApi(a) => OfApi(a.Value())
      case HeldKey(k) => OfKey(k.Value())
    }

    function Metadata(): MetaMap? {
      match this
      case HeldWorkspace(w) => w.metadata
      case HeldApi(a) => a.metadata
      case HeldKey(k) => k.metadata
    }
  }

  // One write through a reference the caller holds.
  datatype Write =
    | WriteHash(at: nat, b: byte)
    | WritePermission(at: nat, permission: string)
    | WriteLimit(at: nat, limit: LimitRef)
    | WriteExpiry(time: Time)
    | WriteVerified(time: Time)
    | WriteMetadata(entries: map<string, string>)

  method WriteMeta(m: MetaMap?, write: Write)
    modifies MetaFoot(m)
  {
    if m != null && write.WriteMetadata? {
      m.entries := write.entries;
    }
  }

  method WriteKey(k: KeyRec, write: Write)
    modifies k.Foot()
  {
    match write {
      case WriteHash(at, b) =>
        if at < k.keyHash.Length { k.keyHash[at] := b; }
      case WritePermission(at, permission) =>
        if at < k.permissions.Length { k.permissions[at] := permission; }
      case WriteLimit(at, limit) =>
        if at < k.limitRefs.Length { k.limitRefs[at] := limit; }
      case WriteExpiry(time) =>
        if k.expiresAt != null { k.expiresAt.at := time; }
      case WriteVerified(time) =>
        if k.lastVerifiedAt != null { k.lastVerifiedAt.at := time; }
      case WriteMetadata(_) =>
        WriteMeta(k.metadata, write);
    }
  }

  lemma {:induction false} DoneNext(ops: seq<S.Op>, op: S.Op)
    ensures S.DoAll(S.EMPTY, ops + [op]) == S.Do(S.DoAll(S.EMPTY, ops), op)
  {
    assert (ops + [op])[..|ops + [op]| - 1] == ops;
  }

  class Session {
    const store: Store
    var held: seq<Held>
    // The writing operations so far, with their arguments as they were when
    // each was called.
    ghost var ops: seq<S.Op>

    // Nothing mutable inside the store is in the caller's hands.
    ghost predicate Sealed()
      reads this, store
    {
      this !in store.Repr && forall h <- held :: h.Outside(store.Repr)
    }

    // And the store's contents are what the operations alone account for.
    ghost predicate Valid()
      reads this, store, store.Repr
    {
      Sealed() && store.Valid() && store.state == S.DoAll(S.EMPTY, ops)
    }

    // What the store allocates for itself was never in the caller's hands.
    twostate lemma StaysSealed()
      requires old(Sealed()) && unchanged(`held) && fresh(store.Repr - old(store.Repr))
      ensures Sealed()
    {
    }

    // Notes an operation, and keeps what it handed out.
    method Receive(got: seq<Held>, ghost op: S.Op)
      requires Sealed() && store.Valid() && store.state == S.Do(S.DoAll(S.EMPTY, ops), op)
      requires forall h <- got :: h.Outside(store.Repr)
      modifies this
      ensures Valid() && ops == old(ops) + [op] && held == old(held) + got
    {
      DoneNext(ops, op);
      held, ops := held + got, ops + [op];
    }

    method ReceiveApi(r: Result<ApiRec>, ghost v: Result<Api>, ghost op: S.Op)
      requires Sealed() && store.Valid() && store.state == S.Do(S.DoAll(S.EMPTY, ops), op)
      requires ApiValueOf(r) == v && (r.Ok? ==> r.value.Outside(store.Repr) && this !in r.value.Foot())
      modifies this
      ensures Valid() && ops == old(ops) + [op] && Gained(GotApi(v))
    {
      Receive(if r.Ok? then [HeldApi(r.value)] else [], op);
    }

    method ReceiveKey(r: Result<KeyRec>, ghost v: Result<Key>, ghost op: S.Op)
      requires Sealed() && store.Valid() && store.state == S.Do(S.DoAll(S.EMPTY, ops), op)
      requires ValueOf(r) == v && (r.Ok? ==> r.value.Outside(store.Repr) && this !in r.value.Foot())
      modifies this
      ensures Valid() && ops == old(ops) + [op] && Gained(GotKey(v))
    {
      Receive(if r.Ok? then [HeldKey(r.value)] else [], op);
    }

    // Keeps what a read handed out.
    method Keep(h: Held)
      requires Valid() && h.Outside(store.Repr)
      modifies this`held
      ensures Valid() && held == old(held) + [h]
    {
      held := held + [h];
    }

    constructor ()
      ensures Valid() && held == [] && ops == [] && fresh(store)
    {
      store := new Store();
      held, ops := [], [];
    }

    // The caller has what it had, and this on top, or nothing more.
    twostate predicate Gained(got: Option<Content>)
      reads this, if held != [] then held[|held| - 1].Foot() else {}
    {
      if got.None? then held == old(held)
      else held != [] && held[..|held| - 1] == old(held) && held[|held| - 1].Value() == got.value
    }

    // The caller allocates records of its own.
    method DraftWorkspace(v: Workspace)
      requires Valid()
      modifies this`held
      ensures Valid() && Gained(Some(OfWorkspace(v)))
    {
      var m := new MetaMap(v.metadata);
      held := held + [HeldWorkspace(WorkspaceRec(v.workspaceId, v.name, v.ownerPrincipalId, v.createdAt, v.updatedAt, m))];
    }

    method DraftApi(v: Api)
      requires Valid()
      modifies this`held
      ensures Valid() && Gained(Some(OfApi(v)))
    {
      var m := new MetaMap(v.metadata);
      held := held + [HeldApi(ApiRec(v.apiId, v.workspaceId, v.name, v.keyPrefix, v.createdAt, v.updatedAt, m))];
    }

    method DraftKey(v: Key)
      requires Valid()
      modifies this`held
      ensures Valid() && Gained(Some(OfKey(v)))
    {
      var k := NewKey(v);
      held := held + [HeldKey(k)];
    }

    // A write through any reference held leaves the store's contents alone.
    method Scribble(n: nat, write: Write)
      requires Valid() && n < |held|
      modifies if held[n].HeldKey? then held[n].k.Foot() else MetaFoot(held[n].Metadata())
      ensures Valid() && store.state == old(store.state)
      ensures forall o <- store.Repr :: unchanged(o)
    {
      assert held[n].Outside(store.Repr);
      if held[n].HeldKey? {
        WriteKey(held[n].k, write);
      } else {
        WriteMeta(held[n].Metadata(), write);
      }
      assert forall o <- store.Repr :: unchanged(o);
    }

    method CreateWorkspace(n: nat, freshId: string, now: Time)
      requires Valid() && n < |held| && held[n].HeldWorkspace? && freshId != "" && freshId !in store.workspaces
      modifies this, store
      ensures Valid() && ops == old(ops) + [S.OpCreateWorkspace(old(held[n].w.Value()), freshId, now)]
      ensures Gained(Some(OfWorkspace(S.CreateWorkspace(S.DoAll(S.EMPTY, old(ops)), old(held[n].w.Value()), freshId, now).1)))
    {
      ghost var op := S.OpCreateWorkspace(held[n].w.Value(), freshId, now);
      var r := store.CreateWorkspace(held[n].w, freshId, now);
      StaysSealed();
      Receive([HeldWorkspace(r)], op);
    }

    method CreateApi(n: nat, freshId: string, now: Time)
      requires Valid() && n < |held| && held[n].HeldApi? && freshId != "" && freshId !in store.apis
      modifies this, store
      ensures Valid() && ops == old(ops) + [S.OpCreateApi(old(held[n].a.Value()), freshId, now)]
      ensures Gained(GotApi(S.CreateApi(S.DoAll(S.EMPTY, old(ops)), old(held[n].a.Value()), freshId, now).1))
    {
      ghost var op := S.OpCreateApi(held[n].a.Value(), freshId, now);
      var r := store.CreateApi(held[n].a, freshId, now);
      StaysSealed();
      ReceiveApi(r, S.CreateApi(S.DoAll(S.EMPTY, ops), op.a, freshId, now).1, op);
    }

    method CreateKey(n: nat, freshId: string, now: Time)
      requires Valid() && n < |held| && held[n].HeldKey? && freshId != "" && freshId !in store.keys
      modifies this, store
      ensures Valid() && ops == old(ops) + [S.OpCreateKey(old(held[n].k.Value()), freshId, now)]
      ensures Gained(GotKey(S.CreateKey(S.DoAll(S.EMPTY, old(ops)), old(held[n].k.Value()), freshId, now).1))
    {
      ghost var op := S.OpCreateKey(held[n].k.Value(), freshId, now);
      var r := store.CreateKey(held[n].k, freshId, now);
      StaysSealed();
      ReceiveKey(r, S.CreateKey(S.DoAll(S.EMPTY, ops), op.k, freshId, now).1, op);
    }

    // Rotates to whatever hash bytes the n-th record holds now.
    method RotateKey(id: string, n: nat, now: Time)
      requires Valid() && n < |held| && held[n].HeldKey?
      modifies this, store
      ensures Valid() && ops == old(ops) + [S.OpRotate(id, old(held[n].k.keyHash[..]), now)]
      ensures Gained(GotKey(S.RotateKey(S.DoAll(S.EMPTY, old(ops)), id, old(held[n].k.keyHash[..]), now).1))
    {
      ghost var op := S.OpRotate(id, held[n].k.keyHash[..], now);
      var r := store.RotateKey(id, held[n].k.keyHash, now);
      StaysSealed();
      ReceiveKey(r, S.RotateKey(S.DoAll(S.EMPTY, ops), id, op.newHash, now).1, op);
    }

    method RevokeKey(id: string, now: Time)
      requires Valid()
      modifies this, store
      ensures Valid() && ops == old(ops) + [S.OpRevoke(id, now)] && held == old(held)
    {
      var e := store.RevokeKey(id, now);
      StaysSealed();
      Receive([], S.OpRevoke(id, now));
    }

    method TouchLastVerified(id: string, at: Time)
      requires Valid()
      modifies this, store
      ensures Valid() && ops == old(ops) + [S.OpTouch(id, at)] && held == old(held)
    {
      var e := store.TouchLastVerified(id, at);
      StaysSealed();
      Receive([], S.OpTouch(id, at));
    }

    method DecrementRemainingUses(id: string, now: Time)
      requires Valid()
      modifies this, store
      ensures Valid() && ops == old(ops) + [S.OpDecrement(id, now)] && held == old(held)
    {
      var r := store.DecrementRemainingUses(id, now);
      StaysSealed();
      Receive([], S.OpDecrement(id, now));
    }

    method GetWorkspace(id: string)
      requires Valid()
      modifies this`held
      ensures Valid() && Gained(GotWorkspace(S.GetWorkspace(S.DoAll(S.EMPTY, ops), id)))
    {
      var r := store.GetWorkspace(id);
      if r.Ok? {
        Keep(HeldWorkspace(r.value));
      }
    }

    method GetApi(id: string)
      requires Valid()
      modifies this`held
      ensures Valid() && Gained(GotApi(S.GetApi(S.DoAll(S.EMPTY, ops), id)))
    {
      var r := store.GetApi(id);
      if r.Ok? {
        Keep(HeldApi(r.value));
      }
    }

    // Keeps the key a read found, or nothing.
    method KeepKey(r: Result<KeyRec>, ghost v: Result<Key>)
      requires Valid() && ValueOf(r) == v && (r.Ok? ==> r.value.Outside(store.Repr))
      modifies this`held
      ensures Valid() && Gained(GotKey(v))
    {
      if r.Ok? {
        Keep(HeldKey(r.value));
      }
    }

    method GetKeyById(id: string)
      requires Valid()
      modifies this`held
      ensures Valid() && Gained(GotKey(S.GetKeyById(S.DoAll(S.EMPTY, ops), id)))
    {
      var r := store.GetKeyById(id);
      KeepKey(r, S.GetKeyById(S.DoAll(S.EMPTY, ops), id));
    }

    method GetKeyByHash(n: nat)
      requires Valid() && n < |held| && held[n].HeldKey?
      modifies this`held
      ensures Valid() && Gained(GotKey(S.GetKeyByHash(S.DoAll(S.EMPTY, ops), old(held[n].k.keyHash[..]))))
    {
      var r := store.GetKeyByHash(held[n].k.keyHash);
      KeepKey(r, S.GetKeyByHash(S.DoAll(S.EMPTY, ops), held[n].k.keyHash[..]));
    }

    method ListKeys(opts: ListOpts)
      requires Valid()
      modifies this`held
      ensures Valid()
      ensures var page := P.ListKeys(S.DoAll(S.EMPTY, ops), opts);
              && |held| == old(|held|) + |page.keys| && held[..old(|held|)] == old(held)
              && (forall i :: 0 <= i < |page.keys| ==>
                    held[old(|held|) + i].HeldKey? && held[old(|held|) + i].k.Value() == page.keys[i])
    {
      var page := store.ListKeys(opts);
      held := held + seq(|page.keys|, i requires 0 <= i < |page.keys| => HeldKey(page.keys[i]));
    }
  }
}
