/**
 The in-memory driver as it is in the heap: records copied by value that hold
 references to byte and string slices, optional times and metadata maps. The
 mutex makes each method one atomic step.

 `Repr` holds every mutable object the store keeps. Whatever enters it is
 allocated by the operation that adds it, and whatever is handed out is
 allocated for the caller, so the two never meet.
 */
module MemoryStore {
  import opened Domain
  import S = StoreSpec
  import P = Pagination

  // An optional time behind a pointer, and a metadata map.
  class TimeCell {
    var at: Time

    constructor (at: Time)
      ensures this.at == at
    {
      this.at := at;
    }
  }

  class MetaMap {
    var entries: map<string, string>

    constructor (entries: map<string, string>)
      ensures this.entries == entries
    {
      this.entries := entries;
    }
  }

  ghost function CellFoot(c: TimeCell?): set<object> {
    if c == null then {} else {c}
  }

  function CellValue(c: TimeCell?): Option<Time>
    reads c
  {
    if c == null then None else Some(c.at)
  }

  ghost function MetaFoot(m: MetaMap?): set<object> {
    if m == null then {} else {m}
  }

  function MetaValue(m: MetaMap?): map<string, string>
    reads m
  {
    if m == null then map[] else m.entries
  }

  datatype WorkspaceRec = WorkspaceRec(
    workspaceId: string, name: string, ownerPrincipalId: string, createdAt: Time, updatedAt: Time, metadata: MetaMap?)
  {
    ghost function Foot(): set<object> { MetaFoot(metadata) }

    ghost predicate Outside(r: set<object>) { metadata == null || metadata !in r }

    ghost predicate Inside(r: set<object>) { metadata == null || metadata in r }

    function Value(): Workspace
      reads metadata
    {
      Workspace(workspaceId, name, ownerPrincipalId, createdAt, updatedAt, MetaValue(metadata))
    }
  }

  datatype ApiRec = ApiRec(
    apiId: string, workspaceId: string, name: string, keyPrefix: string, createdAt: Time, updatedAt: Time, metadata: MetaMap?)
  {
    ghost function Foot(): set<object> { MetaFoot(metadata) }

    ghost predicate Outside(r: set<object>) { metadata == null || metadata !in r }

    ghost predicate Inside(r: set<object>) { metadata == null || metadata in r }

    function Value(): Api
      reads metadata
    {
      Api(apiId, workspaceId, name, keyPrefix, createdAt, updatedAt, MetaValue(metadata))
    }
  }

  datatype KeyRec = KeyRec(
    keyId: string, apiId: string, workspaceId: string, ownerPrincipalId: string, name: string,
    keyHash: array<byte>, permissions: array<string>, limitRefs: array<LimitRef>, expiresAt: TimeCell?,
    remainingUses: int, enabled: bool, createdAt: Time, updatedAt: Time, lastVerifiedAt: TimeCell?, metadata: MetaMap?)
  {
    ghost function Foot(): set<object> {
      {keyHash as object, permissions as object, limitRefs as object}
      + CellFoot(expiresAt) + CellFoot(lastVerifiedAt) + MetaFoot(metadata)
    }

    ghost predicate Outside(r: set<object>) {
      && keyHash !in r && permissions !in r && limitRefs !in r
      && (expiresAt == null || expiresAt !in r) && (lastVerifiedAt == null || lastVerifiedAt !in r)
      && (metadata == null || metadata !in r)
    }

    ghost predicate Inside(r: set<object>) {
      && keyHash in r && permissions in r && limitRefs in r
      && (expiresAt == null || expiresAt in r) && (lastVerifiedAt == null || lastVerifiedAt in r)
      && (metadata == null || metadata in r)
    }

    function Value(): Key
      reads keyHash, permissions, limitRefs, expiresAt, lastVerifiedAt, metadata
    {
      Key(keyId, apiId, workspaceId, ownerPrincipalId, name, keyHash[..], permissions[..], limitRefs[..],
          CellValue(expiresAt), remainingUses, enabled, createdAt, updatedAt, CellValue(lastVerifiedAt), MetaValue(metadata))
    }
  }

  // ------------------------------------------------------------------
  // Copies
  // ------------------------------------------------------------------

  method CloneSlice<T>(a: array<T>) returns (c: array<T>)
    ensures fresh(c) && c[..] == a[..]
  {
    c := new T[a.Length](i requires 0 <= i < a.Length reads a => a[i]);
  }

  method CloneCell(t: TimeCell?) returns (c: TimeCell?)
    ensures fresh(CellFoot(c)) && CellValue(c) == CellValue(t)
  {
    if t == null {
      return null;
    }
    c := new TimeCell(t.at);
  }

  method CloneMeta(m: MetaMap?) returns (c: MetaMap?)
    ensures fresh(MetaFoot(c)) && MetaValue(c) == MetaValue(m)
  {
    if m == null {
      return null;
    }
    c := new MetaMap(m.entries);
  }

  method CloneWorkspace(w: WorkspaceRec) returns (c: WorkspaceRec)
    ensures fresh(c.Foot()) && c.Value() == w.Value()
  {
    var metadata := CloneMeta(w.metadata);
    c := w.(metadata := metadata);
  }

  method CloneApi(a: ApiRec) returns (c: ApiRec)
    ensures fresh(c.Foot()) && c.Value() == a.Value()
  {
    var metadata := CloneMeta(a.metadata);
    c := a.(metadata := metadata);
  }

  method CloneKey(k: KeyRec) returns (c: KeyRec)
    ensures fresh(c.Foot()) && c.Value() == k.Value()
  {
    var keyHash := CloneSlice(k.keyHash);
    var permissions := CloneSlice(k.permissions);
    var limitRefs := CloneSlice(k.limitRefs);
    var expiresAt := CloneCell(k.expiresAt);
    var lastVerifiedAt := CloneCell(k.lastVerifiedAt);
    var metadata := CloneMeta(k.metadata);
    c := k.(keyHash := keyHash, permissions := permissions, limitRefs := limitRefs,
            expiresAt := expiresAt, lastVerifiedAt := lastVerifiedAt, metadata := metadata);
  }

  // The record with its own copy of a new hash; the other objects stay shared.
  method Rehash(k: KeyRec, newHash: array<byte>, now: Time) returns (c: KeyRec)
    ensures fresh(c.keyHash) && c == k.(keyHash := c.keyHash, updatedAt := now)
    ensures c.Value() == k.Value().(keyHash := newHash[..], updatedAt := now)
  {
    var keyHash := CloneSlice(newHash);
    c := k.(keyHash := keyHash, updatedAt := now);
  }

  // The record with a new cell for the verification time.
  method Stamp(k: KeyRec, at: Time) returns (c: KeyRec)
    ensures c.lastVerifiedAt != null && fresh(c.lastVerifiedAt) && c == k.(lastVerifiedAt := c.lastVerifiedAt)
    ensures c.Value() == k.Value().(lastVerifiedAt := Some(at))
  {
    var cell := new TimeCell(at);
    c := k.(lastVerifiedAt := cell);
  }

  method CloneEach(keys: map<string, KeyRec>, ids: seq<string>, ghost values: seq<Key>) returns (out: seq<KeyRec>)
    requires |values| == |ids|
    requires forall i :: 0 <= i < |ids| ==> ids[i] in keys && keys[ids[i]].Value() == values[i]
    ensures |out| == |ids|
    ensures forall i :: 0 <= i < |ids| ==> fresh(out[i].Foot()) && out[i].Value() == values[i]
  {
    out := [];
    for n := 0 to |ids|
      invariant |out| == n
      invariant forall i :: 0 <= i < n ==> fresh(out[i].Foot()) && out[i].Value() == values[i]
    {
      var c := CloneKey(keys[ids[n]]);
      out := out + [c];
    }
  }

  // ------------------------------------------------------------------
  // Records from values
  // ------------------------------------------------------------------

  method NewSlice<T>(s: seq<T>) returns (a: array<T>)
    ensures fresh(a) && a[..] == s
  {
    a := new T[|s|](i requires 0 <= i < |s| => s[i]);
  }

  method NewCell(time: Option<Time>) returns (c: TimeCell?)
    ensures fresh(CellFoot(c)) && CellValue(c) == time
  {
    if time == None {
      return null;
    }
    c := new TimeCell(time.value);
  }

  method NewKey(v: Key) returns (k: KeyRec)
    ensures fresh(k.Foot()) && k.Value() == v
  {
    var h := NewSlice(v.keyHash);
    var p := NewSlice(v.permissions);
    var l := NewSlice(v.limitRefs);
    var expires := NewCell(v.expiresAt);
    var verified := NewCell(v.lastVerifiedAt);
    var m := new MetaMap(v.metadata);
    k := KeyRec(v.keyId, v.apiId, v.workspaceId, v.ownerPrincipalId, v.name, h, p, l, expires,
                v.remainingUses, v.enabled, v.createdAt, v.updatedAt, verified, m);
  }

  // What reading an absent map entry yields.
  method ZeroKey() returns (k: KeyRec)
    ensures fresh(k.Foot()) && k.Value() == ZERO_KEY
  {
    var keyHash, permissions, limitRefs := new byte[0], new string[0], new LimitRef[0];
    k := KeyRec("", "", "", "", "", keyHash, permissions, limitRefs, null, 0, false, 0, 0, null, null);
  }

  ghost function ValueOf(r: Result<KeyRec>): Result<Key>
    reads if r.Ok? then r.value.Foot() else {}
  {
    if r.Ok? then Ok(r.value.Value()) else Err(r.error)
  }

  ghost function WorkspaceValueOf(r: Result<WorkspaceRec>): Result<Workspace>
    reads if r.Ok? then r.value.Foot() else {}
  {
    if r.Ok? then Ok(r.value.Value()) else Err(r.error)
  }

  ghost function ApiValueOf(r: Result<ApiRec>): Result<Api>
    reads if r.Ok? then r.value.Foot() else {}
  {
    if r.Ok? then Ok(r.value.Value()) else Err(r.error)
  }

  // The first position of a sorted list not below x, by bisection.
  method Search(ids: seq<string>, x: string) returns (i: nat)
    requires P.Sorted(ids)
    ensures i == P.SearchStrings(ids, x)
  {
    i := 0;
    var j := |ids|;
    while i < j
      invariant 0 <= i <= j <= |ids|
      invariant forall l :: 0 <= l < i ==> P.Less(ids[l], x)
      invariant j < |ids| ==> !P.Less(ids[j], x)
    {
      var h := (i + j) / 2;
      if P.Less(ids[h], x) {
        forall l | 0 <= l < h ensures P.Less(ids[l], x) {
          P.LessTransitive(ids[l], ids[h], x);
        }
        i := h + 1;
      } else {
        j := h;
      }
    }
  }

  // The first position of a sorted list strictly above the token.
  method After(ids: seq<string>, token: string) returns (start: nat)
    requires P.Sorted(ids)
    ensures start == P.StartIndex(ids, token)
  {
    start := 0;
    if token != "" {
      var i := Search(ids, token);
      if i < |ids| && ids[i] == token {
        i := i + 1;
      }
      start := i;
    }
  }

  // Sorting erases the order the map was iterated in.
  method SortIds(ids: seq<string>) returns (sorted: seq<string>)
    requires P.Distinct(ids)
    ensures sorted == P.SortedIds(P.Elements(ids))
  {
    sorted := P.SortStrings(ids);
    P.SortStringsSorts(ids);
    P.SortedUnique(sorted, P.SortedIds(P.Elements(ids)));
  }

  ghost predicate IsCut(ids: seq<string>, opts: ListOpts, here: seq<string>, next: string) {
    var start, size := P.StartIndex(ids, opts.pageToken), P.PageSize(opts.pageSize);
    var end := if start + size > |ids| then |ids| else start + size;
    here == ids[start..end] && next == if end < |ids| then ids[end - 1] else ""
  }

  // One page of a sorted list, with the token of the next.
  method Cut(ids: seq<string>, opts: ListOpts) returns (here: seq<string>, next: string)
    requires P.Sorted(ids)
    ensures IsCut(ids, opts, here, next)
  {
    var start := After(ids, opts.pageToken);
    var pageSize := opts.pageSize;
    if pageSize <= 0 {
      pageSize := P.DEFAULT_PAGE_SIZE;
    }
    var end := start + pageSize;
    if end > |ids| {
      end := |ids|;
    }
    here, next := ids[start..end], "";
    if end < |ids| {
      next := ids[end - 1];
    }
  }

  datatype PageRec = PageRec(keys: seq<KeyRec>, nextToken: string)

  // ------------------------------------------------------------------
  // The store
  // ------------------------------------------------------------------

  class Store {
    var workspaces: map<string, WorkspaceRec>
    var apis: map<string, ApiRec>
    var keys: map<string, KeyRec>
    var hashIndex: map<Bytes, string>
    // The contents as a value.
    ghost var state: S.State
    ghost var Repr: set<object>

    ghost predicate Mirrors()
      reads this, Repr
    {
      && workspaces.Keys == state.workspaces.Keys && apis.Keys == state.apis.Keys && keys.Keys == state.keys.Keys
      && hashIndex == state.hashIndex
      && (forall id <- workspaces :: workspaces[id].Inside(Repr) && workspaces[id].Value() == state.workspaces[id])
      && (forall id <- apis :: apis[id].Inside(Repr) && apis[id].Value() == state.apis[id])
      && (forall id <- keys :: keys[id].Inside(Repr) && keys[id].Value() == state.keys[id])
    }

    ghost predicate Valid()
      reads this, Repr
    {
      this !in Repr && Mirrors()
    }

    constructor ()
      ensures Valid() && state == S.EMPTY && Repr == {}
    {
      workspaces, apis, keys, hashIndex := map[], map[], map[], map[];
      state, Repr := S.EMPTY, {};
    }

    // After one key record has been put in place, whatever was allocated in
    // between, the store still mirrors its contents.
    twostate lemma PutKeepsMirror(id: string, new k: KeyRec)
      requires old(Valid()) && this !in Repr && old(Repr) <= Repr
      requires forall o <- old(Repr) :: unchanged(o)
      requires workspaces == old(workspaces) && apis == old(apis) && keys == old(keys)[id := k] && k.Inside(Repr)
      requires state.workspaces == old(state).workspaces && state.apis == old(state).apis
      requires state.keys == old(state).keys[id := k.Value()] && hashIndex == state.hashIndex
      ensures Valid()
    {
    }

    // Stores one key record with the index that goes with it; the objects in
    // `more` become the store's.
    method PutKey(id: string, k: KeyRec, index: map<Bytes, string>, ghost value: Key, ghost more: set<object>)
      requires Valid() && this !in more && k.Inside(Repr + more) && k.Value() == value
      modifies this`keys, this`hashIndex, this`state, this`Repr
      ensures Valid() && Repr == old(Repr) + more
      ensures state == old(state).(keys := old(state).keys[id := value], hashIndex := index)
    {
      keys, hashIndex := keys[id := k], index;
      state := state.(keys := state.keys[id := value], hashIndex := index);
      Repr := Repr + more;
      PutKeepsMirror(id, k);
    }

    // A copy to hand out: it shares nothing with the store.
    method CopyOut(k: KeyRec) returns (c: KeyRec)
      requires Valid()
      ensures fresh(c.Foot()) && c.Outside(Repr) && c.Value() == k.Value()
    {
      c := CloneKey(k);
    }

    // Stores one key record and hands out a copy of it.
    method PutAndCopy(id: string, k: KeyRec, index: map<Bytes, string>, ghost value: Key, ghost more: set<object>) returns (c: KeyRec)
      requires Valid() && this !in more && k.Inside(Repr + more) && k.Value() == value
      modifies this`keys, this`hashIndex, this`state, this`Repr
      ensures Valid() && Repr == old(Repr) + more && fresh(c.Foot()) && c.Outside(Repr) && c.Value() == value
      ensures state == old(state).(keys := old(state).keys[id := value], hashIndex := index)
    {
      PutKey(id, k, index, value, more);
      c := CopyOut(k);
    }

    twostate lemma PutWorkspaceKeepsMirror(id: string, new w: WorkspaceRec)
      requires old(Valid()) && this !in Repr && old(Repr) <= Repr
      requires forall o <- old(Repr) :: unchanged(o)
      requires workspaces == old(workspaces)[id := w] && w.Inside(Repr) && unchanged(`apis, `keys, `hashIndex)
      requires state == old(state).(workspaces := old(state).workspaces[id := w.Value()])
      ensures Valid()
    {
    }

    method PutWorkspace(id: string, w: WorkspaceRec, ghost value: Workspace, ghost more: set<object>)
      returns (c: WorkspaceRec)
      requires Valid() && this !in more && w.Inside(Repr + more) && w.Value() == value
      modifies this`workspaces, this`state, this`Repr
      ensures Valid() && Repr == old(Repr) + more && fresh(c.Foot()) && c.Outside(Repr) && c.Value() == value
      ensures state == old(state).(workspaces := old(state).workspaces[id := value])
    {
      workspaces := workspaces[id := w];
      state := state.(workspaces := state.workspaces[id := value]);
      Repr := Repr + more;
      PutWorkspaceKeepsMirror(id, w);
      c := CloneWorkspace(w);
    }

    twostate lemma PutApiKeepsMirror(id: string, new a: ApiRec)
      requires old(Valid()) && this !in Repr && old(Repr) <= Repr
      requires forall o <- old(Repr) :: unchanged(o)
      requires apis == old(apis)[id := a] && a.Inside(Repr) && unchanged(`workspaces, `keys, `hashIndex)
      requires state == old(state).(apis := old(state).apis[id := a.Value()])
      ensures Valid()
    {
    }

    method PutApi(id: string, a: ApiRec, ghost value: Api, ghost more: set<object>) returns (c: ApiRec)
      requires Valid() && this !in more && a.Inside(Repr + more) && a.Value() == value
      modifies this`apis, this`state, this`Repr
      ensures Valid() && Repr == old(Repr) + more && fresh(c.Foot()) && c.Outside(Repr) && c.Value() == value
      ensures state == old(state).(apis := old(state).apis[id := value])
    {
      apis := apis[id := a];
      state := state.(apis := state.apis[id := value]);
      Repr := Repr + more;
      PutApiKeepsMirror(id, a);
      c := CloneApi(a);
    }

    method CreateWorkspace(w: WorkspaceRec, freshId: string, now: Time) returns (r: WorkspaceRec)
      requires Valid() && freshId != "" && freshId !in workspaces
      modifies this
      ensures Valid() && fresh(Repr - old(Repr)) && fresh(r.Foot()) && r.Outside(Repr)
      ensures (state, r.Value()) == S.CreateWorkspace(old(state), old(w.Value()), freshId, now)
    {
      ghost var value := w.Value().(workspaceId := freshId, createdAt := now, updatedAt := now);
      var kept := CloneWorkspace(w.(workspaceId := freshId, createdAt := now, updatedAt := now));
      r := PutWorkspace(freshId, kept, value, kept.Foot());
    }

    method GetWorkspace(id: string) returns (r: Result<WorkspaceRec>)
      requires Valid()
      ensures Valid() && (r.Ok? ==> fresh(r.value.Foot()) && r.value.Outside(Repr))
      ensures WorkspaceValueOf(r) == S.GetWorkspace(state, id)
    {
      if id !in workspaces {
        return Err(NotFound);
      }
      var copy := CloneWorkspace(workspaces[id]);
      r := Ok(copy);
    }

    method CreateApi(a: ApiRec, freshId: string, now: Time) returns (r: Result<ApiRec>)
      requires Valid() && freshId != "" && freshId !in apis
      modifies this
      ensures Valid() && fresh(Repr - old(Repr)) && (r.Ok? ==> fresh(r.value.Foot()) && r.value.Outside(Repr))
      ensures (state, ApiValueOf(r)) == S.CreateApi(old(state), old(a.Value()), freshId, now)
    {
      if a.workspaceId !in workspaces {
        return Err(NotFound);
      }
      ghost var value := a.Value().(apiId := freshId, createdAt := now, updatedAt := now);
      var kept := CloneApi(a.(apiId := freshId, createdAt := now, updatedAt := now));
      var copy := PutApi(freshId, kept, value, kept.Foot());
      r := Ok(copy);
    }

    method GetApi(id: string) returns (r: Result<ApiRec>)
      requires Valid()
      ensures Valid() && (r.Ok? ==> fresh(r.value.Foot()) && r.value.Outside(Repr))
      ensures ApiValueOf(r) == S.GetApi(state, id)
    {
      if id !in apis {
        return Err(NotFound);
      }
      var copy := CloneApi(apis[id]);
      r := Ok(copy);
    }

    method CreateKey(k: KeyRec, freshId: string, now: Time) returns (r: Result<KeyRec>)
      requires Valid() && freshId != "" && freshId !in keys
      modifies this
      ensures Valid() && fresh(Repr - old(Repr)) && (r.Ok? ==> fresh(r.value.Foot()) && r.value.Outside(Repr))
      ensures (state, ValueOf(r)) == S.CreateKey(old(state), old(k.Value()), freshId, now)
    {
      if k.apiId !in apis {
        return Err(NotFound);
      }
      var hashKey := k.keyHash[..];
      if hashKey in hashIndex {
        return Err(Conflict);
      }
      ghost var value := k.Value().(keyId := freshId, createdAt := now, updatedAt := now);
      var kept := CloneKey(k.(keyId := freshId, createdAt := now, updatedAt := now));
      var copy := PutAndCopy(freshId, kept, hashIndex[hashKey := freshId], value, kept.Foot());
      r := Ok(copy);
    }

    method GetKeyById(id: string) returns (r: Result<KeyRec>)
      requires Valid()
      ensures Valid() && (r.Ok? ==> fresh(r.value.Foot()) && r.value.Outside(Repr))
      ensures ValueOf(r) == S.GetKeyById(state, id)
    {
      if id !in keys {
        return Err(NotFound);
      }
      var copy := CopyOut(keys[id]);
      r := Ok(copy);
    }

    method GetKeyByHash(hash: array<byte>) returns (r: Result<KeyRec>)
      requires Valid()
      ensures Valid() && (r.Ok? ==> fresh(r.value.Foot()) && r.value.Outside(Repr))
      ensures ValueOf(r) == S.GetKeyByHash(state, hash[..])
    {
      if hash[..] !in hashIndex {
        return Err(NotFound);
      }
      var id := hashIndex[hash[..]];
      var copy: KeyRec;
      if id in keys {
        copy := CopyOut(keys[id]);
      } else {
        copy := ZeroKey();
      }
      r := Ok(copy);
    }

    method RevokeKey(id: string, now: Time) returns (e: Option<StoreError>)
      requires Valid()
      modifies this`keys, this`hashIndex, this`state, this`Repr
      ensures Valid() && Repr == old(Repr)
      ensures (state, e) == S.RevokeKey(old(state), id, now)
    {
      if id !in keys {
        return Some(NotFound);
      }
      var k := keys[id];
      if !k.enabled {
        return None;
      }
      k := k.(enabled := false, updatedAt := now);
      PutKey(id, k, hashIndex, state.keys[id].(enabled := false, updatedAt := now), {});
      e := None;
    }

    method RotateKey(id: string, newHash: array<byte>, now: Time) returns (r: Result<KeyRec>)
      requires Valid()
      modifies this
      ensures Valid() && fresh(Repr - old(Repr)) && (r.Ok? ==> fresh(r.value.Foot()) && r.value.Outside(Repr))
      ensures (state, ValueOf(r)) == S.RotateKey(old(state), id, old(newHash[..]), now)
    {
      if id !in keys {
        return Err(NotFound);
      }
      var k, newHashKey := keys[id], newHash[..];
      if newHashKey in hashIndex && hashIndex[newHashKey] != id {
        return Err(Conflict);
      }
      var index := hashIndex - {k.keyHash[..]};
      k := Rehash(k, newHash, now);
      var copy := PutAndCopy(id, k, index[newHashKey := id], state.keys[id].(keyHash := newHashKey, updatedAt := now), {k.keyHash});
      r := Ok(copy);
    }

    // The identifiers that match, in whatever order the map is iterated.
    method CollectIds(opts: ListOpts) returns (ids: seq<string>)
      requires Valid()
      ensures P.Distinct(ids) && P.Elements(ids) == P.Matching(state, opts)
      ensures forall id :: id in ids <==>
                id in state.keys && state.keys[id].apiId == opts.apiId &&
                (opts.ownerPrincipalId == "" || state.keys[id].ownerPrincipalId == opts.ownerPrincipalId)
    {
      ids := [];
      var todo := keys.Keys;
      while todo != {}
        invariant todo <= keys.Keys && P.Distinct(ids)
        invariant forall id :: id in ids <==> id in keys && id !in todo && P.Matches(state.keys[id], opts)
        decreases |todo|
      {
        var id :| id in todo;
        todo := todo - {id};
        var k := keys[id];
        assert k.Value() == state.keys[id];
        if k.apiId != opts.apiId {
          continue;
        }
        if opts.ownerPrincipalId != "" && k.ownerPrincipalId != opts.ownerPrincipalId {
          continue;
        }
        ids := ids + [id];
      }
    }

    // The records under these identifiers are the page's, in order.
    ghost predicate LooksLike(here: seq<string>, next: string, page: Page)
      reads this, Repr
      requires Valid()
    {
      && next == page.nextToken && |here| == |page.keys|
      && (forall i :: 0 <= i < |here| ==> here[i] in keys && keys[here[i]].Value() == page.keys[i])
    }

    // The identifiers of one page, in order, with the token of the next.
    method SelectPage(opts: ListOpts) returns (here: seq<string>, next: string)
      requires Valid()
      ensures LooksLike(here, next, P.ListKeys(state, opts))
    {
      var ids := CollectIds(opts);
      ids := SortIds(ids);
      here, next := Cut(ids, opts);
      PageMirrors(opts, ids, here, next);
    }

    lemma PageMirrors(opts: ListOpts, ids: seq<string>, here: seq<string>, next: string)
      requires Valid() && ids == P.SortedIds(P.Matching(state, opts)) && IsCut(ids, opts, here, next)
      ensures LooksLike(here, next, P.ListKeys(state, opts))
    {
      var page := P.ListKeys(state, opts);
      forall i | 0 <= i < |here| ensures here[i] in keys && keys[here[i]].Value() == page.keys[i] {
        assert here[i] in P.Elements(ids);
        assert page.keys[i] == state.keys[here[i]] && keys[here[i]].Value() == state.keys[here[i]];
      }
    }

    method ListKeys(opts: ListOpts) returns (r: PageRec)
      requires Valid()
      ensures var page := P.ListKeys(state, opts);
              && r.nextToken == page.nextToken && |r.keys| == |page.keys|
              && (forall i :: 0 <= i < |page.keys| ==> r.keys[i].Value() == page.keys[i])
      ensures forall i :: 0 <= i < |r.keys| ==>
                r.keys[i].apiId == opts.apiId && (opts.ownerPrincipalId == "" || r.keys[i].ownerPrincipalId == opts.ownerPrincipalId)
      ensures forall i :: 0 <= i < |r.keys| ==> fresh(r.keys[i].Foot()) && r.keys[i].Outside(Repr)
    {
      P.PageFiltered(state, opts);
      var here, next := SelectPage(opts);
      ghost var page := P.ListKeys(state, opts);
      var out := CloneEach(keys, here, page.keys);
      r := PageRec(out, next);
    }

    method TouchLastVerified(id: string, at: Time) returns (e: Option<StoreError>)
      requires Valid()
      modifies this`keys, this`hashIndex, this`state, this`Repr
      ensures Valid() && fresh(Repr - old(Repr))
      ensures (state, e) == S.TouchLastVerified(old(state), id, at)
    {
      if id !in keys {
        return Some(NotFound);
      }
      var k := Stamp(keys[id], at);
      PutKey(id, k, hashIndex, state.keys[id].(lastVerifiedAt := Some(at)), {k.lastVerifiedAt});
      e := None;
    }

    method DecrementRemainingUses(id: string, now: Time) returns (r: DecrementReply)
      requires Valid()
      modifies this`keys, this`hashIndex, this`state, this`Repr
      ensures Valid() && Repr == old(Repr)
      ensures (state, r) == S.Decrement(old(state), id, now)
    {
      if id !in keys {
        return DecrementReply(0, Some(NotFound));
      }
      var k := keys[id];
      if k.remainingUses < 0 {
        return DecrementReply(-1, None);
      }
      if k.remainingUses == 0 {
        return DecrementReply(0, Some(Depleted));
      }
      k := k.(remainingUses := k.remainingUses - 1, updatedAt := now);
      PutKey(id, k, hashIndex, state.keys[id].(remainingUses := k.remainingUses, updatedAt := now), {});
      r := DecrementReply(k.remainingUses, None);
    }
  }
}
