/**
 Keyset pagination: byte-lexicographic order on identifiers, one page of a
 listing, and a walk that follows page tokens, over a store that stands still
 and over one that changes between pages.
 */
module Pagination {
  import opened Domain
  import opened StoreSpec

  // ------------------------------------------------------------------
  // Order and sorting
  // ------------------------------------------------------------------

  predicate Less(a: string, b: string) {
    b != [] && (a == [] || a[0] < b[0] || (a[0] == b[0] && Less(a[1..], b[1..])))
  }

  lemma {:induction false} LessTotal(a: string, b: string)
    ensures !(Less(a, b) && Less(b, a))
    ensures a == b <==> !Less(a, b) && !Less(b, a)
  {
    if a != [] && b != [] && a[0] == b[0] {
      LessTotal(a[1..], b[1..]);
      assert a == [a[0]] + a[1..] && b == [b[0]] + b[1..];
    }
  }

  lemma {:induction false} LessTransitive(a: string, b: string, c: string)
    requires Less(a, b) && Less(b, c)
    ensures Less(a, c)
  {
    if a != [] && a[0] == b[0] && b[0] == c[0] {
      LessTransitive(a[1..], b[1..], c[1..]);
    }
  }

  // Strictly increasing, hence free of duplicates.
  ghost predicate Sorted(ids: seq<string>) {
    forall i, j :: 0 <= i < j < |ids| ==> Less(ids[i], ids[j])
  }

  function Elements<T>(xs: seq<T>): set<T> {
    set x | x in xs
  }

  ghost predicate Distinct<T(!new)>(xs: seq<T>) {
    forall i, j :: 0 <= i < j < |xs| ==> xs[i] != xs[j]
  }

  lemma NoElements<T>(xs: seq<T>)
    ensures xs == [] <==> Elements(xs) == {}
  {
    if xs != [] {
      assert xs[0] in Elements(xs);
    }
  }

  // A strictly increasing sequence is determined by its elements.
  lemma {:induction false} SortedUnique(a: seq<string>, b: seq<string>)
    requires Sorted(a) && Sorted(b) && Elements(a) == Elements(b)
    ensures a == b
  {
    if a == [] || b == [] {
      NoElements(a);
      NoElements(b);
    } else {
      HeadIsLeast(a);
      HeadIsLeast(b);
      assert a[0] in Elements(b) && b[0] in Elements(a);
      LessTotal(a[0], b[0]);
      assert Elements(a[1..]) == Elements(a) - {a[0]};
      assert Elements(b[1..]) == Elements(b) - {b[0]};
      SortedUnique(a[1..], b[1..]);
      assert a == [a[0]] + a[1..] && b == [b[0]] + b[1..];
    }
  }

  lemma HeadIsLeast(a: seq<string>)
    requires a != [] && Sorted(a)
    ensures forall x <- Elements(a) :: x == a[0] || Less(a[0], x)
    ensures a[0] !in Elements(a[1..])
  {
    forall j | 0 < j < |a| ensures a[j] != a[0] {
      LessTotal(a[0], a[j]);
    }
  }

  function Insert(x: string, ids: seq<string>): (r: seq<string>)
    ensures multiset(r) == multiset(ids) + multiset{x}
  {
    if ids == [] || !Less(ids[0], x) then
      [x] + ids
    else
      assert ids == [ids[0]] + ids[1..];
      [ids[0]] + Insert(x, ids[1..])
  }

  lemma {:induction false} InsertSorted(x: string, ids: seq<string>)
    requires Sorted(ids) && x !in ids
    ensures Sorted(Insert(x, ids))
  {
    if ids == [] {
    } else if !Less(ids[0], x) {
      LessTotal(ids[0], x);
      forall j | 0 < j < |ids| ensures Less(x, ids[j]) {
        LessTransitive(x, ids[0], ids[j]);
      }
    } else {
      InsertSorted(x, ids[1..]);
      var tail := Insert(x, ids[1..]);
      forall j | 0 <= j < |tail| ensures Less(ids[0], tail[j]) {
        assert tail[j] in multiset(tail);
      }
    }
  }

  // What sorting a slice of strings yields.
  function SortStrings(ids: seq<string>): (r: seq<string>)
    ensures multiset(r) == multiset(ids)
  {
    if ids == [] then
      []
    else
      assert ids == [ids[0]] + ids[1..];
      Insert(ids[0], SortStrings(ids[1..]))
  }

  lemma {:induction false} SortStringsSorts(ids: seq<string>)
    requires Distinct(ids)
    ensures Sorted(SortStrings(ids)) && Elements(SortStrings(ids)) == Elements(ids)
  {
    if ids != [] {
      SortStringsSorts(ids[1..]);
      assert ids[0] !in Elements(ids[1..]);
      assert ids[0] !in SortStrings(ids[1..]);
      InsertSorted(ids[0], SortStrings(ids[1..]));
    }
    forall x ensures x in SortStrings(ids) <==> x in ids {
      assert x in multiset(SortStrings(ids)) <==> x in multiset(ids);
    }
  }

  lemma {:induction false} SortedExists(S: set<string>) returns (ids: seq<string>)
    ensures Sorted(ids) && Elements(ids) == S
  {
    if S == {} {
      ids := [];
    } else {
      var x :| x in S;
      var rest := SortedExists(S - {x});
      assert x !in Elements(rest);
      assert Distinct(rest) by {
        forall i, j | 0 <= i < j < |rest| ensures rest[i] != rest[j] { LessTotal(rest[i], rest[j]); }
      }
      assert forall y :: y in [x] + rest <==> y == x || y in Elements(rest);
      SortStringsSorts([x] + rest);
      ids := SortStrings([x] + rest);
    }
  }

  // The identifiers of a set in increasing order.
  ghost function SortedIds(S: set<string>): (ids: seq<string>)
    ensures Sorted(ids) && Elements(ids) == S
  {
    assert exists r :: Sorted(r) && Elements(r) == S by { var r := SortedExists(S); }
    var ids :| Sorted(ids) && Elements(ids) == S;
    ids
  }

  // ------------------------------------------------------------------
  // One page
  // ------------------------------------------------------------------

  const DEFAULT_PAGE_SIZE := 50

  function PageSize(requested: int): (n: nat)
    ensures n > 0
  {
    if requested <= 0 then DEFAULT_PAGE_SIZE else requested
  }

  // An empty owner means any owner.
  predicate Matches(k: Key, opts: ListOpts) {
    k.apiId == opts.apiId && (opts.ownerPrincipalId == "" || k.ownerPrincipalId == opts.ownerPrincipalId)
  }

  ghost function Matching(s: State, opts: ListOpts): set<string> {
    set id | id in s.keys && Matches(s.keys[id], opts)
  }

  // The insertion index of x: the first position not below x.
  function SearchStrings(ids: seq<string>, x: string): (i: nat)
    ensures i <= |ids|
    ensures forall j :: 0 <= j < i ==> Less(ids[j], x)
    ensures i < |ids| ==> !Less(ids[i], x)
  {
    if ids == [] || !Less(ids[0], x) then 0 else 1 + SearchStrings(ids[1..], x)
  }

  function StartIndex(ids: seq<string>, token: string): (i: nat)
    ensures i <= |ids|
  {
    if token == "" then
      0
    else
      var i := SearchStrings(ids, token);
      if i < |ids| && ids[i] == token then i + 1 else i
  }

  ghost function Keys(s: State, ids: seq<string>): (ks: seq<Key>)
    requires Elements(ids) <= s.keys.Keys
    ensures |ks| == |ids|
  {
    seq(|ids|, i requires 0 <= i < |ids| =>
      assert ids[i] in Elements(ids);
      s.keys[ids[i]])
  }

  // Sort the matching identifiers, find the token, slice a page, and hand out
  // its last identifier as the next token when more remain.
  ghost function ListKeys(s: State, opts: ListOpts): Page {
    var ids := SortedIds(Matching(s, opts));
    var start, size := StartIndex(ids, opts.pageToken), PageSize(opts.pageSize);
    var end := if start + size > |ids| then |ids| else start + size;
    assert forall x <- ids[start..end] :: x in Elements(ids);
    Page(Keys(s, ids[start..end]), if end < |ids| then ids[end - 1] else "")
  }

  // The matching identifiers still to come after a token.
  ghost function Remaining(s: State, opts: ListOpts): set<string> {
    set id | id in Matching(s, opts) && (opts.pageToken == "" || Less(opts.pageToken, id))
  }

  // A page is the first identifiers above the token, whether or not the token
  // is a real identifier, and the next token is empty exactly on the last page.
  lemma PageShape(s: State, opts: ListOpts)
    ensures var rest, size := SortedIds(Remaining(s, opts)), PageSize(opts.pageSize);
            var n := if size < |rest| then size else |rest|;
            Elements(rest[..n]) <= s.keys.Keys &&
            ListKeys(s, opts) == Page(Keys(s, rest[..n]), if size < |rest| then rest[size - 1] else "")
  {
    var ids, rest := SortedIds(Matching(s, opts)), SortedIds(Remaining(s, opts));
    var start := StartIndex(ids, opts.pageToken);
    RestIsSuffix(ids, opts.pageToken);
    assert Elements(ids[start..]) == Elements(rest);
    SortedUnique(ids[start..], rest);
    var size := PageSize(opts.pageSize);
    var n := if size < |rest| then size else |rest|;
    assert ids[start..start + n] == rest[..n];
    assert forall x <- rest[..n] :: x in Elements(rest);
  }

  // ------------------------------------------------------------------
  // What a page holds, spelled out
  // ------------------------------------------------------------------

  // Byte by byte, a shorter string before those it begins.
  ghost predicate Precedes(a: string, b: string) {
    exists n :: SplitAt(a, b, n)
  }

  predicate SplitAt(a: string, b: string, n: int) {
    0 <= n <= |a| && n < |b| && a[..n] == b[..n] && (n == |a| || a[n] < b[n])
  }

  lemma FirstByte(a: string, b: string, n: nat)
    requires n <= |a| && n <= |b| && a[..n] == b[..n]
    ensures n == 0 || a[0] == b[0]
  {
    assert n == 0 || (a[0] == a[..n][0] && b[0] == b[..n][0]);
  }

  lemma {:induction false} LessIsByteOrder(a: string, b: string)
    ensures Less(a, b) <==> Precedes(a, b)
  {
    if a != [] && b != [] && a[0] == b[0] {
      LessIsByteOrder(a[1..], b[1..]);
      if n :| SplitAt(a[1..], b[1..], n) {
        assert a[..n + 1] == [a[0]] + a[1..][..n] && b[..n + 1] == [b[0]] + b[1..][..n];
        assert SplitAt(a, b, n + 1);
      }
      if n :| SplitAt(a, b, n) {
        assert n > 0;
        assert a[1..][..n - 1] == a[..n][1..] && b[1..][..n - 1] == b[..n][1..];
        assert SplitAt(a[1..], b[1..], n - 1);
      }
    } else if b != [] {
      assert Less(a, b) ==> SplitAt(a, b, 0);
      if n :| SplitAt(a, b, n) {
        FirstByte(a, b, n);
      }
    }
  }

  // The key asked for by a listing: under this API, of this owner if one is
  // given, and above the token if there is one.
  ghost predicate Asked(id: string, k: Key, opts: ListOpts) {
    && k.apiId == opts.apiId && (opts.ownerPrincipalId != "" ==> k.ownerPrincipalId == opts.ownerPrincipalId)
    && (opts.pageToken != "" ==> Precedes(opts.pageToken, id))
  }

  lemma AskedRemain(s: State, opts: ListOpts, id: string)
    ensures id in Remaining(s, opts) <==> id in s.keys && Asked(id, s.keys[id], opts)
  {
    LessIsByteOrder(opts.pageToken, id);
  }

  // A page holds stored keys that were asked for, in byte order of identifier,
  // at most as many as its size, and 50 when no positive size is asked for. It
  // holds all of them when there is no next token. Otherwise it is full, the next
  // token is its last identifier, and the keys it leaves out, of which there are
  // some, are those above it.
  lemma PageHolds(s: State, opts: ListOpts)
    requires IndexAgrees(s)
    ensures var page, size := ListKeys(s, opts), if opts.pageSize <= 0 then 50 else opts.pageSize;
            && |page.keys| <= size
            && (forall i :: 0 <= i < |page.keys| ==> Held(s, opts, page.keys[i]))
            && (forall i, j :: 0 <= i < j < |page.keys| ==> Precedes(page.keys[i].keyId, page.keys[j].keyId))
            && (page.nextToken == "" ==> forall id <- s.keys :: Asked(id, s.keys[id], opts) ==> s.keys[id] in page.keys)
            && (page.nextToken != "" ==>
                  && |page.keys| == size && page.nextToken == page.keys[size - 1].keyId
                  && (forall id <- s.keys :: Asked(id, s.keys[id], opts) ==> s.keys[id] in page.keys || Precedes(page.nextToken, id))
                  && (exists id <- s.keys :: Asked(id, s.keys[id], opts) && Precedes(page.nextToken, id)))
  {
    PageShape(s, opts);
    var rest, page := SortedIds(Remaining(s, opts)), ListKeys(s, opts);
    var size := PageSize(opts.pageSize);
    NextTokenNonEmpty(s, opts, rest);
    forall i | 0 <= i < |rest| ensures rest[i] in s.keys && Asked(rest[i], s.keys[rest[i]], opts) {
      assert rest[i] in Elements(rest);
      AskedRemain(s, opts, rest[i]);
    }
    forall i, j | 0 <= i < j < |rest| ensures Precedes(rest[i], rest[j]) {
      LessIsByteOrder(rest[i], rest[j]);
    }
    forall id | id in s.keys && Asked(id, s.keys[id], opts)
      ensures s.keys[id] in page.keys || (size < |rest| && Precedes(rest[size - 1], id))
    {
      AskedRemain(s, opts, id);
      assert id in Elements(rest);
      var n :| 0 <= n < |rest| && rest[n] == id;
      assert n < |page.keys| ==> page.keys[n] == s.keys[id];
    }
    assert size < |rest| ==> Precedes(rest[size - 1], rest[size]);
  }

  lemma PageFiltered(s: State, opts: ListOpts)
    ensures forall k <- ListKeys(s, opts).keys ::
              k.apiId == opts.apiId && (opts.ownerPrincipalId == "" || k.ownerPrincipalId == opts.ownerPrincipalId)
  {
    PageShape(s, opts);
    var rest, page := SortedIds(Remaining(s, opts)), ListKeys(s, opts);
    forall i | 0 <= i < |page.keys| ensures Matches(page.keys[i], opts) {
      assert rest[i] in Elements(rest);
    }
  }

  // A stored key, and one asked for.
  ghost predicate Held(s: State, opts: ListOpts, k: Key) {
    k.keyId in s.keys && s.keys[k.keyId] == k && Asked(k.keyId, k, opts)
  }

  lemma RestIsSuffix(ids: seq<string>, token: string)
    requires Sorted(ids)
    ensures forall x :: x in ids[StartIndex(ids, token)..] <==> x in ids && (token == "" || Less(token, x))
  {
    var start := StartIndex(ids, token);
    forall j | 0 <= j < |ids| ensures j >= start <==> (token == "" || Less(token, ids[j])) {
      if token != "" {
        var i := SearchStrings(ids, token);
        LessTotal(token, ids[j]);
        if i < j {
          LessTotal(ids[i], token);
          if Less(token, ids[i]) { LessTransitive(token, ids[i], ids[j]); }
        }
      }
    }
    forall x | x in ids && (token == "" || Less(token, x)) ensures x in ids[start..] {
      var j :| 0 <= j < |ids| && ids[j] == x;
      assert ids[start..][j - start] == x;
    }
  }

  // ------------------------------------------------------------------
  // Walks
  // ------------------------------------------------------------------

  // Page i is requested when the store is states[i]. The walk stops at an
  // empty next token.
  ghost function Walk(states: seq<State>, sizes: seq<int>, opts: ListOpts): seq<Key>
    requires |states| == |sizes|
  {
    if states == [] then
      []
    else
      var page := ListKeys(states[0], opts.(pageSize := sizes[0]));
      page.keys +
      if page.nextToken == "" then [] else Walk(states[1..], sizes[1..], opts.(pageToken := page.nextToken))
  }

  ghost predicate Ends(states: seq<State>, sizes: seq<int>, opts: ListOpts)
    requires |states| == |sizes|
  {
    states != [] &&
    var page := ListKeys(states[0], opts.(pageSize := sizes[0]));
    page.nextToken == "" || Ends(states[1..], sizes[1..], opts.(pageToken := page.nextToken))
  }

  // Between pages the store moves on by any operations.
  ghost predicate Timeline(states: seq<State>) {
    && (forall i :: 0 <= i < |states| ==> IndexAgrees(states[i]))
    && (forall i :: 0 < i < |states| ==> Evolves(states[i - 1], states[i]))
  }

  ghost function Ids(ks: seq<Key>): (ids: seq<string>)
    ensures |ids| == |ks|
  {
    seq(|ks|, i requires 0 <= i < |ks| => ks[i].keyId)
  }

  // Every returned key is one the store held, under that identifier, when
  // some page was fetched, and it matches the filter.
  ghost predicate Seen(k: Key, states: seq<State>, opts: ListOpts) {
    Matches(k, opts) && exists i :: 0 <= i < |states| && k.keyId in states[i].keys && states[i].keys[k.keyId] == k
  }

  // A walk that ends returns keys in strictly increasing order of identifier,
  // so none twice; every key that matched when the walk began; and only keys
  // that match the filter.
  lemma {:induction false} WalkIsComplete(states: seq<State>, sizes: seq<int>, opts: ListOpts)
    requires |states| == |sizes| && Timeline(states) && Ends(states, sizes, opts)
    ensures var ids := Ids(Walk(states, sizes, opts));
            && Sorted(ids)
            && Remaining(states[0], opts) <= Elements(ids)
            && (forall id <- ids :: opts.pageToken == "" || Less(opts.pageToken, id))
            && (forall k <- Walk(states, sizes, opts) :: Seen(k, states, opts))
  {
    var here := opts.(pageSize := sizes[0]);
    PageShape(states[0], here);
    var rest, size := SortedIds(Remaining(states[0], opts)), PageSize(sizes[0]);
    assert Remaining(states[0], here) == Remaining(states[0], opts);
    var page := ListKeys(states[0], here);
    FirstPage(states, opts, rest, |page.keys|);
    if page.nextToken == "" {
      NextTokenNonEmpty(states[0], opts, rest);
      assert page.keys == Keys(states[0], rest);
      assert Ids(page.keys) == rest;
      assert Walk(states, sizes, opts) == page.keys;
    } else {
      var next := opts.(pageToken := page.nextToken);
      WalkIsComplete(states[1..], sizes[1..], next);
      JoinPages(states, opts, rest, size, Walk(states[1..], sizes[1..], next));
    }
  }

  // Spelled out: in byte order of identifier, so none twice; each of them asked
  // for, and stored as returned when some page was fetched; and every key that was
  // stored and asked for when the walk began.
  lemma {:induction false} WalkHolds(states: seq<State>, sizes: seq<int>, opts: ListOpts)
    requires |states| == |sizes| && Timeline(states) && Ends(states, sizes, opts)
    ensures var got := Walk(states, sizes, opts);
            && (forall i, j :: 0 <= i < j < |got| ==> Precedes(got[i].keyId, got[j].keyId))
            && (forall i :: 0 <= i < |got| ==> exists n :: 0 <= n < |states| && Held(states[n], opts, got[i]))
            && (forall id <- states[0].keys :: Asked(id, states[0].keys[id], opts) ==> id in Ids(got))
  {
    WalkIsComplete(states, sizes, opts);
    var got := Walk(states, sizes, opts);
    forall i, j | 0 <= i < j < |got| ensures Precedes(got[i].keyId, got[j].keyId) {
      LessIsByteOrder(Ids(got)[i], Ids(got)[j]);
      assert Less(Ids(got)[i], Ids(got)[j]);
    }
    forall i | 0 <= i < |got| ensures exists n :: 0 <= n < |states| && Held(states[n], opts, got[i]) {
      assert got[i] in got && Ids(got)[i] in Ids(got);
      SeenIsHeld(states, opts, got[i]);
    }
    forall id | id in states[0].keys && Asked(id, states[0].keys[id], opts) ensures id in Ids(got) {
      AskedRemain(states[0], opts, id);
      assert id in Elements(Ids(got));
    }
  }

  lemma SeenIsHeld(states: seq<State>, opts: ListOpts, k: Key)
    requires Seen(k, states, opts) && (opts.pageToken == "" || Less(opts.pageToken, k.keyId))
    ensures exists n :: 0 <= n < |states| && Held(states[n], opts, k)
  {
    LessIsByteOrder(opts.pageToken, k.keyId);
    var n :| 0 <= n < |states| && k.keyId in states[n].keys && states[n].keys[k.keyId] == k;
    assert Held(states[n], opts, k);
  }

  lemma FirstPage(states: seq<State>, opts: ListOpts, rest: seq<string>, n: nat)
    requires states != [] && Timeline(states) && n <= |rest|
    requires rest == SortedIds(Remaining(states[0], opts))
    ensures Elements(rest[..n]) <= states[0].keys.Keys
    ensures Ids(Keys(states[0], rest[..n])) == rest[..n]
    ensures forall k <- Keys(states[0], rest[..n]) :: Seen(k, states, opts)
    ensures forall id <- rest :: opts.pageToken == "" || Less(opts.pageToken, id)
  {
    forall i | 0 <= i < |rest| ensures rest[i] in Remaining(states[0], opts) {
      assert rest[i] in Elements(rest);
    }
  }

  lemma NextTokenNonEmpty(s: State, opts: ListOpts, rest: seq<string>)
    requires IndexAgrees(s) && rest == SortedIds(Remaining(s, opts))
    ensures "" !in rest
  {
    assert "" in rest ==> "" in Elements(rest);
  }

  lemma JoinSorted(a: seq<string>, b: seq<string>)
    requires a != [] && Sorted(a) && Sorted(b) && forall id <- b :: Less(a[|a| - 1], id)
    ensures Sorted(a + b)
  {
    var ids := a + b;
    forall i, j | 0 <= i < j < |ids| ensures Less(ids[i], ids[j]) {
      if i < |a| <= j {
        assert ids[j] in b;
        if i < |a| - 1 { LessTransitive(a[i], a[|a| - 1], ids[j]); }
      }
    }
  }

  lemma JoinPages(states: seq<State>, opts: ListOpts, rest: seq<string>, size: nat, tail: seq<Key>)
    requires |states| > 1 && Timeline(states)
    requires rest == SortedIds(Remaining(states[0], opts)) && 0 < size < |rest|
    requires Elements(rest[..size]) <= states[0].keys.Keys
    requires Ids(Keys(states[0], rest[..size])) == rest[..size]
    requires forall k <- Keys(states[0], rest[..size]) :: Seen(k, states, opts)
    requires forall id <- rest :: opts.pageToken == "" || Less(opts.pageToken, id)
    requires var next := opts.(pageToken := rest[size - 1]);
             && Sorted(Ids(tail)) && Remaining(states[1], next) <= Elements(Ids(tail))
             && (forall id <- Ids(tail) :: Less(rest[size - 1], id))
             && (forall k <- tail :: Seen(k, states[1..], next))
    ensures var all := Keys(states[0], rest[..size]) + tail;
            && Sorted(Ids(all))
            && Remaining(states[0], opts) <= Elements(Ids(all))
            && (forall id <- Ids(all) :: opts.pageToken == "" || Less(opts.pageToken, id))
            && (forall k <- all :: Seen(k, states, opts))
  {
    var last, page := rest[size - 1], Keys(states[0], rest[..size]);
    var ids := rest[..size] + Ids(tail);
    assert Ids(page + tail) == ids;
    JoinSorted(rest[..size], Ids(tail));
    forall id | id in Remaining(states[0], opts) ensures id in ids {
      assert id in Elements(rest);
      var i :| 0 <= i < |rest| && rest[i] == id;
      if i < size {
        assert ids[i] == id;
      } else {
        assert Less(last, id);
        assert Evolves(states[1 - 1], states[1]);
        assert id in Remaining(states[1], opts.(pageToken := last));
      }
    }
    forall id | id in ids ensures opts.pageToken == "" || Less(opts.pageToken, id) {
      if id in Ids(tail) && opts.pageToken != "" {
        assert last in rest;
        LessTransitive(opts.pageToken, last, id);
      }
    }
    forall k | k in tail ensures Seen(k, states, opts) {
      var i :| 0 <= i < |states[1..]| && k.keyId in states[1..][i].keys && states[1..][i].keys[k.keyId] == k;
      assert states[i + 1].keys[k.keyId] == k;
    }
  }

  // Over a store that stands still, whatever the page sizes, the pages
  // concatenate to the matching keys in increasing order of identifier.
  lemma {:induction false} FixedStoreWalk(s: State, sizes: seq<int>, opts: ListOpts)
    requires IndexAgrees(s) && opts.pageToken == ""
    requires Ends(seq(|sizes|, _ => s), sizes, opts)
    ensures var all := SortedIds(Matching(s, opts));
            Elements(all) <= s.keys.Keys && Walk(seq(|sizes|, _ => s), sizes, opts) == Keys(s, all)
  {
    var states := seq(|sizes|, _ => s);
    var got, all := Walk(states, sizes, opts), SortedIds(Matching(s, opts));
    WalkIsComplete(states, sizes, opts);
    assert states[0] == s && Remaining(s, opts) == Matching(s, opts);
    assert forall k <- got :: Seen(k, states, opts);
    assert forall k <- got :: k.keyId in s.keys && s.keys[k.keyId] == k && Matches(k, opts);
    KeysInOrder(s, got, opts);
  }

  lemma KeysInOrder(s: State, got: seq<Key>, opts: ListOpts)
    requires forall k <- got :: k.keyId in s.keys && s.keys[k.keyId] == k && Matches(k, opts)
    requires Sorted(Ids(got)) && Matching(s, opts) <= Elements(Ids(got))
    ensures var all := SortedIds(Matching(s, opts));
            Elements(all) <= s.keys.Keys && got == Keys(s, all)
  {
    var all := SortedIds(Matching(s, opts));
    forall i | 0 <= i < |got| ensures Ids(got)[i] in Matching(s, opts) && got[i] == s.keys[Ids(got)[i]] {
      assert got[i] in got;
    }
    assert Elements(Ids(got)) == Elements(all);
    SortedUnique(Ids(got), all);
  }

  // With a constant page size the walk over n matching keys takes exactly
  // max(1, ceil(n / size)) calls: it has ended after that many and no fewer.
  lemma WalkCalls(s: State, calls: nat, size: int, opts: ListOpts)
    requires IndexAgrees(s) && opts.pageToken == ""
    ensures var n, p := |set id | id in s.keys && Asked(id, s.keys[id], opts)|, if size <= 0 then 50 else size;
            Ends(seq(calls, _ => s), seq(calls, _ => size), opts) <==> calls >= 1 && calls >= (n + p - 1) / p
  {
    var p, rest := PageSize(size), SortedIds(Remaining(s, opts));
    forall id | id in s.keys ensures id in Remaining(s, opts) <==> Asked(id, s.keys[id], opts) {
      AskedRemain(s, opts, id);
    }
    assert Remaining(s, opts) == set id | id in s.keys && Asked(id, s.keys[id], opts);
    SortedCount(rest);
    EndsCount(s, calls, size, opts);
    CeilingDivision(|rest|, p, calls);
  }

  lemma {:induction false} SortedCount(ids: seq<string>)
    requires Sorted(ids)
    ensures |Elements(ids)| == |ids|
  {
    if ids != [] {
      HeadIsLeast(ids);
      SortedCount(ids[1..]);
      assert Elements(ids) == {ids[0]} + Elements(ids[1..]);
    }
  }

  lemma CeilingDivision(n: nat, p: nat, calls: nat)
    requires p > 0
    ensures n <= calls * p <==> (n + p - 1) / p <= calls
  {
    var q := (n + p - 1) / p;
    assert q * p <= n + p - 1 < q * p + p;
    if calls < q {
      assert calls * p <= (q - 1) * p;
    } else {
      assert q * p <= calls * p;
    }
  }

  lemma {:induction false} EndsCount(s: State, calls: nat, size: int, opts: ListOpts)
    requires IndexAgrees(s)
    ensures Ends(seq(calls, _ => s), seq(calls, _ => size), opts)
       <==> calls >= 1 && |SortedIds(Remaining(s, opts))| <= calls * PageSize(size)
  {
    if calls > 0 {
      var rest, p := SortedIds(Remaining(s, opts)), PageSize(size);
      EndsUnfold(s, calls, size, opts);
      if p < |rest| {
        var next := opts.(pageToken := rest[p - 1]);
        NextTokenNonEmpty(s, opts, rest);
        assert rest[p - 1] in rest;
        EndsCount(s, calls - 1, size, next);
        RestAfterPage(s, opts, rest, p);
        assert calls * p == (calls - 1) * p + p;
      } else {
        assert calls * p >= p;
      }
    }
  }

  lemma EndsUnfold(s: State, calls: nat, size: int, opts: ListOpts)
    requires calls > 0
    ensures var rest, p := SortedIds(Remaining(s, opts)), PageSize(size);
            Ends(seq(calls, _ => s), seq(calls, _ => size), opts) <==>
            |rest| <= p || rest[p - 1] == "" ||
            Ends(seq(calls - 1, _ => s), seq(calls - 1, _ => size), opts.(pageToken := rest[p - 1]))
  {
    var states, sizes := seq(calls, _ => s), seq(calls, _ => size);
    var here := opts.(pageSize := size);
    PageShape(s, here);
    assert Remaining(s, here) == Remaining(s, opts);
    assert states[1..] == seq(calls - 1, _ => s) && sizes[1..] == seq(calls - 1, _ => size);
  }

  lemma RestAfterPage(s: State, opts: ListOpts, rest: seq<string>, p: nat)
    requires rest == SortedIds(Remaining(s, opts)) && 0 < p < |rest| && rest[p - 1] != ""
    ensures SortedIds(Remaining(s, opts.(pageToken := rest[p - 1]))) == rest[p..]
  {
    var next := opts.(pageToken := rest[p - 1]);
    forall id ensures id in Remaining(s, next) <==> id in rest[p..] {
      assert id in rest[p..] ==> id in Elements(rest);
      if id in Remaining(s, next) {
        if opts.pageToken != "" {
          assert rest[p - 1] in Elements(rest);
          LessTransitive(opts.pageToken, rest[p - 1], id);
        }
        assert id in Elements(rest);
        var i :| 0 <= i < |rest| && rest[i] == id;
        LessTotal(rest[i], rest[p - 1]);
        assert rest[p..][i - p] == id;
      }
    }
    SortedUnique(SortedIds(Remaining(s, next)), rest[p..]);
  }
}
