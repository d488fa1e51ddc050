/**
 The values the key service stores and passes around: workspaces, APIs, keys,
 and the errors a store reports.
 */
module Domain {

  type byte = bv8

  type Bytes = seq<byte>

  // An instant, counted from some fixed origin.
  type Time = int

  datatype Option<+T> = None | Some(value: T)

  datatype StoreError = NotFound | Conflict | Depleted

  datatype Result<+T> = Ok(value: T) | Err(error: StoreError)

  datatype LimitRef = LimitRef(limitId: string, scopeKey: string)

  datatype Workspace = Workspace(
    workspaceId: string,
    name: string,
    ownerPrincipalId: string,
    createdAt: Time,
    updatedAt: Time,
    metadata: map<string, string>)

  datatype Api = Api(
    apiId: string,
    workspaceId: string,
    name: string,
    keyPrefix: string,
    createdAt: Time,
    updatedAt: Time,
    metadata: map<string, string>)

  // remainingUses < 0 means unlimited; otherwise it is a hard credit.
  datatype Key = Key(
    keyId: string,
    apiId: string,
    workspaceId: string,
    ownerPrincipalId: string,
    name: string,
    keyHash: Bytes,
    permissions: seq<string>,
    limitRefs: seq<LimitRef>,
    expiresAt: Option<Time>,
    remainingUses: int,
    enabled: bool,
    createdAt: Time,
    updatedAt: Time,
    lastVerifiedAt: Option<Time>,
    metadata: map<string, string>)

  // Equal, up to the update stamp.
  predicate SameKey(a: Key, b: Key) {
    a.(updatedAt := b.updatedAt) == b
  }

  // The record a lookup yields when it falls through to an absent map entry.
  const ZERO_KEY := Key("", "", "", "", "", [], [], [], None, 0, false, 0, 0, None, map[])

  // What a decrement returns: the remaining uses together with an optional error.
  datatype DecrementReply = DecrementReply(remaining: int, error: Option<StoreError>)

  datatype ListOpts = ListOpts(apiId: string, ownerPrincipalId: string, pageSize: int, pageToken: string)

  datatype Page = Page(keys: seq<Key>, nextToken: string)
}
