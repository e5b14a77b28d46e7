/**
 Loading a status column page by page (packages/core/issues/queries.ts:48-76,
 packages/core/issues/mutations.ts:52-95).
 */
module Paging {
  import opened Wrappers
  import opened IssueCache
  import Sorting

  const ISSUE_PAGE_SIZE: nat := 50

  /** The server's list of each status, fixed while the client pages through it. */
  type Server = map<Status, seq<Issue>>

  datatype Response = Response(issues: seq<Issue>, total: nat)

  function Min(a: nat, b: nat): nat {
    if a < b then a else b
  }

  function ServerList(server: Server, s: Status): seq<Issue> {
    if s in server then server[s] else []
  }

  /** `listIssues` for one status. */
  function Page(all: seq<Issue>, offset: nat): Response {
    Response(all[Min(offset, |all|)..Min(offset + ISSUE_PAGE_SIZE, |all|)], |all|)
  }

  method FetchFirstPages(server: Server) returns (c: ListCache)
    ensures forall s :: Visible(s) ==> s in c.byStatus && var p := Page(ServerList(server, s), 0); c.byStatus[s] == Bucket(p.issues, p.total)
    ensures forall s :: !Visible(s) ==> s !in c.byStatus
  {
    var byStatus: map<Status, Bucket> := map[];
    for i := 0 to |PAGINATED_STATUSES|
      invariant forall s :: s in byStatus <==> s in PAGINATED_STATUSES[..i]
      invariant forall s :: s in byStatus ==> var p := Page(ServerList(server, s), 0); byStatus[s] == Bucket(p.issues, p.total)
    {
      var res := Page(ServerList(server, PAGINATED_STATUSES[i]), 0);
      byStatus := byStatus[PAGINATED_STATUSES[i] := Bucket(res.issues, res.total)];
    }
    assert PAGINATED_STATUSES[..|PAGINATED_STATUSES|] == PAGINATED_STATUSES;
    forall s {
      VisibleIsPaginated(s);
    }
    c := ListCache(byStatus);
  }

  /** The issues of the page whose id is not loaded yet. */
  function Fresh(loaded: seq<Issue>, page: seq<Issue>): seq<Issue> {
    if page == [] then []
    else if HasId(loaded, page[0].id) then Fresh(loaded, page[1..])
    else [page[0]] + Fresh(loaded, page[1..])
  }

  function Received(prev: Bucket, res: Response): Bucket {
    Bucket(prev.issues + Fresh(prev.issues, res.issues), res.total)
  }

  predicate HasMore(b: Bucket) {
    |b.issues| < b.total
  }

  /** One load of a column against the server's list. */
  function Load(b: Bucket, all: seq<Issue>): Bucket {
    if HasMore(b) then Received(b, Page(all, |b.issues|)) else b
  }

  /** One column's hook: the cached list and whether a page is on its way. */
  class Pager {
    const status: Status
    var cache: Option<ListCache>
    var isLoading: bool

    constructor (status: Status, cache: Option<ListCache>)
      ensures this.status == status && this.cache == cache && !isLoading
    {
      this.status := status;
      this.cache := cache;
      isLoading := false;
    }

    function Column(): Bucket
      reads this
    {
      if cache.Some? then GetBucket(cache.value, status) else EMPTY_BUCKET
    }

    /** The request that `loadMore` sends: its offset, or nothing. */
    method Request() returns (offset: Option<nat>)
      modifies this`isLoading
      ensures offset == if old(isLoading) || !HasMore(Column()) then None else Some(|Column().issues|)
      ensures isLoading == (old(isLoading) || HasMore(Column()))
    {
      if isLoading || !HasMore(Column()) {
        return None;
      }
      isLoading := true;
      return Some(|Column().issues|);
    }

    /** The response, appended to whatever the column holds by then. */
    method Receive(res: Response)
      modifies this
      ensures !isLoading
      ensures cache == if old(cache).None? then None
                       else Some(SetBucket(old(cache).value, status, Received(old(Column()), res)))
    {
      if cache.Some? {
        var prev := GetBucket(cache.value, status);
        cache := Some(SetBucket(cache.value, status, Received(prev, res)));
      }
      isLoading := false;
    }

    /** One whole load with no other writer in between. */
    method LoadMore(all: seq<Issue>)
      requires !isLoading
      modifies this
      ensures !isLoading && Column() == Load(old(Column()), all)
    {
      var offset := Request();
      if offset.Some? {
        Receive(Page(all, offset.value));
      }
    }

    /** Loading until there is no more ends, and ends with the server's whole list. */
    method LoadAll(all: seq<Issue>)
      requires !isLoading && DistinctIds(all)
      requires Column().total == |all| && Column().issues <= all
      modifies this
      ensures Column() == Bucket(all, |all|) && !HasMore(Column())
    {
      while HasMore(Column())
        invariant !isLoading && Column().total == |all| && Column().issues <= all
        decreases Column().total - |Column().issues|
      {
        LoadKeepsPrefix(Column(), all);
        LoadMore(all);
      }
    }
  }

  // ------------------------------------------------------------ completeness

  lemma {:induction false} FreshAll(loaded: seq<Issue>, page: seq<Issue>)
    requires forall x :: x in page ==> !HasId(loaded, x.id)
    ensures Fresh(loaded, page) == page
  {
    if page != [] {
      assert page[0] in page;
      assert forall x :: x in page[1..] ==> x in page;
      FreshAll(loaded, page[1..]);
    }
  }

  lemma {:induction false} FreshMembers(loaded: seq<Issue>, page: seq<Issue>)
    ensures forall x :: x in Fresh(loaded, page) <==> x in page && !HasId(loaded, x.id)
  {
    if page != [] {
      FreshMembers(loaded, page[1..]);
      assert page == [page[0]] + page[1..];
    }
  }

  /** A response puts what is not loaded yet behind what is, in the order of the page, and its total replaces the old one. */
  lemma ReceivedIs(prev: Bucket, res: Response)
    ensures Received(prev, res) ==
            Bucket(prev.issues + Sorting.Filter(res.issues, (x: Issue) => !HasId(prev.issues, x.id)), res.total)
  {
    FreshFilters(prev.issues, res.issues);
  }

  lemma {:induction false} FreshFilters(loaded: seq<Issue>, page: seq<Issue>)
    ensures Fresh(loaded, page) == Sorting.Filter(page, (x: Issue) => !HasId(loaded, x.id))
  {
    if page != [] {
      FreshFilters(loaded, page[1..]);
      Sorting.FilterCons(page[0], page[1..], (x: Issue) => !HasId(loaded, x.id));
      assert page == [page[0]] + page[1..];
    }
  }

  lemma PrefixApart(all: seq<Issue>, k: nat, m: nat)
    requires DistinctIds(all) && k <= m <= |all|
    ensures forall x :: x in all[k..m] ==> !HasId(all[..k], x.id)
  {
    forall x | x in all[k..m] ensures !HasId(all[..k], x.id) {
      var i :| 0 <= i < m - k && all[k..m][i] == x;
      assert all[k + i] == x;
      forall y | y in all[..k] ensures y.id != x.id {
        var j :| 0 <= j < k && all[..k][j] == y;
        assert all[j] == y;
      }
    }
  }

  lemma Adjoin(all: seq<Issue>, k: nat, m: nat)
    requires k <= m <= |all|
    ensures all[..k] + all[k..m] == all[..m]
  {
  }

  lemma FreshPage(all: seq<Issue>, k: nat, m: nat)
    requires DistinctIds(all) && k <= m <= |all|
    ensures all[..k] + Fresh(all[..k], all[k..m]) == all[..m]
  {
    PrefixApart(all, k, m);
    FreshAll(all[..k], all[k..m]);
    Adjoin(all, k, m);
  }

  /** A column that is a prefix of the server's list stays one, a page longer. */
  lemma LoadKeepsPrefix(b: Bucket, all: seq<Issue>)
    requires DistinctIds(all) && b.issues <= all && b.total == |all|
    ensures Load(b, all) == Bucket(all[..Min(|b.issues| + ISSUE_PAGE_SIZE, |all|)], |all|)
    ensures HasMore(b) ==> |b.issues| < |Load(b, all).issues|
  {
    var k := |b.issues|;
    assert b.issues == all[..k];
    FreshPage(all, k, Min(k + ISSUE_PAGE_SIZE, |all|));
  }

  function LoadTimes(b: Bucket, all: seq<Issue>, n: nat): Bucket {
    if n == 0 then b else Load(LoadTimes(b, all, n - 1), all)
  }

  /**
   From the first page, `n` more loads give the first `n + 1` pages, and there is
   no more exactly when the column is the server's list.
   */
  lemma {:induction false} PagingIsComplete(all: seq<Issue>, n: nat)
    requires DistinctIds(all)
    ensures var first := Bucket(Page(all, 0).issues, Page(all, 0).total);
            var b := LoadTimes(first, all, n);
            && b == Bucket(all[..Min((n + 1) * ISSUE_PAGE_SIZE, |all|)], |all|)
            && (HasMore(b) <==> b.issues != all)
            && (HasMore(b) <==> (n + 1) * ISSUE_PAGE_SIZE < |all|)
  {
    if n > 0 {
      PagingIsComplete(all, n - 1);
      LoadKeepsPrefix(LoadTimes(Bucket(Page(all, 0).issues, Page(all, 0).total), all, n - 1), all);
    } else {
      assert all[0..Min(ISSUE_PAGE_SIZE, |all|)] == all[..Min(ISSUE_PAGE_SIZE, |all|)];
    }
  }

  /** Every issue of `part` is loaded. */
  predicate Covers(loaded: seq<Issue>, part: seq<Issue>) {
    forall x :: x in part ==> HasId(loaded, x.id)
  }

  lemma ReceivedHas(b: Bucket, res: Response, id: Id)
    ensures HasId(Received(b, res).issues, id) <==> HasId(b.issues, id) || HasId(res.issues, id)
  {
    FreshMembers(b.issues, res.issues);
    var r := Received(b, res).issues;
    if HasId(res.issues, id) && !HasId(b.issues, id) {
      var x :| x in res.issues && x.id == id;
      assert x in Fresh(b.issues, res.issues) && x in r;
    }
    if HasId(b.issues, id) {
      var x :| x in b.issues && x.id == id;
      assert x in r;
    }
  }

  /**
   Without the prefix: a load covers the server's list as far as its page reaches
   exactly when the column, in whatever order, already covered the list as far as
   its own length. Paging by offset skips what is missing before that.
   */
  lemma LoadCoversWhen(b: Bucket, all: seq<Issue>)
    requires DistinctIds(all) && HasMore(b) && b.total == |all|
    ensures var k := |b.issues|;
            Covers(Load(b, all).issues, all[..Min(k + ISSUE_PAGE_SIZE, |all|)]) <==> Covers(b.issues, all[..k])
  {
    var k := |b.issues|;
    var m := Min(k + ISSUE_PAGE_SIZE, |all|);
    var res := Page(all, k);
    assert all[..m] == all[..k] + res.issues;
    PrefixApart(all, k, m);
    forall x | x in all[..m] ensures HasId(Load(b, all).issues, x.id) <==> HasId(b.issues, x.id) || HasId(res.issues, x.id) {
      ReceivedHas(b, res, x.id);
    }
    if Covers(b.issues, all[..k]) {
      forall x | x in all[..m] ensures HasId(Load(b, all).issues, x.id) {
        if x in all[..k] { assert HasId(b.issues, x.id); } else { assert x in res.issues; }
      }
    }
    if Covers(Load(b, all).issues, all[..m]) {
      forall x | x in all[..k] ensures HasId(b.issues, x.id) {
        assert x in all[..m] && HasId(all[..k], x.id);
        NotOnPage(all, k, m, x);
      }
    }
  }

  lemma NotOnPage(all: seq<Issue>, k: nat, m: nat, x: Issue)
    requires DistinctIds(all) && k <= m <= |all| && x in all[..k]
    ensures !HasId(all[k..m], x.id)
  {
    PrefixApart(all, k, m);
    forall y | y in all[k..m] ensures y.id != x.id {
      assert !HasId(all[..k], y.id);
    }
  }

  /** A column that lacks only the first issue never gets it: each load fetches what it has, and there is always more. */
  lemma LoadCanStall(all: seq<Issue>)
    requires DistinctIds(all) && |all| >= 2
    ensures var b := Bucket(all[1..], |all|); HasMore(b) && Load(b, all) == b
  {
    var b := Bucket(all[1..], |all|);
    var page := Page(all, |all| - 1).issues;
    assert page == [all[|all| - 1]];
    assert all[1..][|all| - 2] == all[|all| - 1] && HasId(b.issues, page[0].id);
    assert page[1..] == [] && Fresh(b.issues, page) == [];
    assert b.issues + [] == b.issues;
  }
}
