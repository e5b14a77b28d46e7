/**
 The bucketed issue cache and its pure helpers
 (packages/core/issues/cache-helpers.ts, packages/core/issues/queries.ts:49-62).
 */
module IssueCache {
  import opened Wrappers

  type Id = string

  datatype Status = Backlog | Todo | InProgress | InReview | Done | Blocked | Cancelled

  const ALL_STATUSES: seq<Status> := [Backlog, Todo, InProgress, InReview, Done, Blocked, Cancelled]

  /** The board's columns; `Cancelled` has a bucket but no column. */
  const PAGINATED_STATUSES: seq<Status> := [Backlog, Todo, InProgress, InReview, Done, Blocked]

  datatype Label = Label(id: Id, name: string, color: string)

  /** `title` stands for every field that the cache only copies. */
  datatype Issue = Issue(id: Id, status: Status, parentId: Option<Id>, labels: Option<seq<Label>>, title: string)

  /** `Partial<Issue>`: the fields to overwrite. */
  datatype Patch = Patch(
    status: Option<Status>, parentId: Option<Option<Id>>, labels: Option<seq<Label>>, title: Option<string>)

  datatype Bucket = Bucket(issues: seq<Issue>, total: int)

  datatype ListCache = ListCache(byStatus: map<Status, Bucket>)

  datatype Location = Location(status: Status, issue: Issue)

  const EMPTY_BUCKET := Bucket([], 0)

  /** `{ ...issue, ...patch }` */
  function Merge(issue: Issue, patch: Patch): Issue {
    Issue(
      issue.id,
      if patch.status.Some? then patch.status.value else issue.status,
      if patch.parentId.Some? then patch.parentId.value else issue.parentId,
      if patch.labels.Some? then patch.labels else issue.labels,
      if patch.title.Some? then patch.title.value else issue.title)
  }

  function GetBucket(c: ListCache, s: Status): Bucket {
    if s in c.byStatus then c.byStatus[s] else EMPTY_BUCKET
  }

  function SetBucket(c: ListCache, s: Status, b: Bucket): ListCache {
    ListCache(c.byStatus[s := b])
  }

  /** The first issue with the id. */
  function FindIn(issues: seq<Issue>, id: Id): Option<Issue> {
    if issues == [] then None
    else if issues[0].id == id then Some(issues[0])
    else FindIn(issues[1..], id)
  }

  predicate HasId(issues: seq<Issue>, id: Id) {
    exists x :: x in issues && x.id == id
  }

  function Without(issues: seq<Issue>, id: Id): seq<Issue> {
    if issues == [] then []
    else if issues[|issues| - 1].id == id then Without(issues[..|issues| - 1], id)
    else Without(issues[..|issues| - 1], id) + [issues[|issues| - 1]]
  }

  function Replace(issues: seq<Issue>, id: Id, issue: Issue): (r: seq<Issue>)
  {
    if issues == [] then []
    else
      var last := issues[|issues| - 1];
      Replace(issues[..|issues| - 1], id, issue) + [if last.id == id then issue else last]
  }

  function FindAmong(c: ListCache, statuses: seq<Status>, id: Id): Option<Location> {
    if statuses == [] then None
    else
      var found := FindIn(GetBucket(c, statuses[0]).issues, id);
      if found.Some? then Some(Location(statuses[0], found.value)) else FindAmong(c, statuses[1..], id)
  }

  function FindIssueLocation(c: ListCache, id: Id): Option<Location> {
    FindAmong(c, PAGINATED_STATUSES, id)
  }

  function AddIssue(c: ListCache, issue: Issue): ListCache {
    var bucket := GetBucket(c, issue.status);
    if HasId(bucket.issues, issue.id) then c
    else SetBucket(c, issue.status, Bucket(bucket.issues + [issue], bucket.total + 1))
  }

  function Decrement(total: int): int {
    if total - 1 < 0 then 0 else total - 1
  }

  /** The bucket with the id taken out and one less in its total. */
  function TakeOut(bucket: Bucket, id: Id): Bucket {
    Bucket(Without(bucket.issues, id), Decrement(bucket.total))
  }

  function RemoveIssue(c: ListCache, id: Id): ListCache {
    var loc := FindIssueLocation(c, id);
    if loc.None? then c
    else SetBucket(c, loc.value.status, TakeOut(GetBucket(c, loc.value.status), id))
  }

  function PatchIssue(c: ListCache, id: Id, patch: Patch): ListCache {
    var loc := FindIssueLocation(c, id);
    if loc.None? then c
    else
      var Location(from, issue) := loc.value;
      var merged := Merge(issue, patch);
      var to := if patch.status.Some? then patch.status.value else from;
      var bucket := GetBucket(c, from);
      if to == from then SetBucket(c, from, bucket.(issues := Replace(bucket.issues, id, merged)))
      else
        var target := GetBucket(c, to);
        SetBucket(SetBucket(c, from, TakeOut(bucket, id)), to, Bucket(target.issues + [merged], target.total + 1))
  }

  // ------------------------------------------------------------------- views

  function FlattenFrom(c: ListCache, statuses: seq<Status>): seq<Issue> {
    if statuses == [] then []
    else FlattenFrom(c, statuses[..|statuses| - 1]) + GetBucket(c, statuses[|statuses| - 1]).issues
  }

  function Flatten(c: ListCache): seq<Issue> {
    FlattenFrom(c, PAGINATED_STATUSES)
  }

  method FlattenIssueBuckets(data: ListCache) returns (out: seq<Issue>)
    ensures out == Flatten(data)
  {
    out := [];
    for i := 0 to |PAGINATED_STATUSES|
      invariant out == FlattenFrom(data, PAGINATED_STATUSES[..i])
    {
      var status := PAGINATED_STATUSES[i];
      assert PAGINATED_STATUSES[..i + 1][..i] == PAGINATED_STATUSES[..i];
      if status in data.byStatus {
        out := out + data.byStatus[status].issues;
      }
    }
    assert PAGINATED_STATUSES[..|PAGINATED_STATUSES|] == PAGINATED_STATUSES;
  }

  /** Whether the status has a column. */
  predicate Visible(s: Status) {
    s != Cancelled
  }

  lemma VisibleIsPaginated(s: Status)
    ensures Visible(s) <==> s in PAGINATED_STATUSES
  {
    assert PAGINATED_STATUSES[0] == Backlog && PAGINATED_STATUSES[1] == Todo && PAGINATED_STATUSES[2] == InProgress;
    assert PAGINATED_STATUSES[3] == InReview && PAGINATED_STATUSES[4] == Done && PAGINATED_STATUSES[5] == Blocked;
  }

  function IssuesAt(c: ListCache, s: Status): seq<Issue> {
    GetBucket(c, s).issues
  }

  // -------------------------------------------------------------- invariant

  predicate DistinctIds(issues: seq<Issue>) {
    forall i, j :: 0 <= i < j < |issues| ==> issues[i].id != issues[j].id
  }

  predicate Apart(a: seq<Issue>, b: seq<Issue>) {
    forall x, y :: x in a && y in b ==> x.id != y.id
  }

  /** Every issue has the bucket's status, and the total counts at least those loaded. */
  predicate Tallied(b: Bucket, s: Status) {
    |b.issues| <= b.total && forall x :: x in b.issues ==> x.status == s
  }

  ghost predicate WellFormed(c: ListCache) {
    && (forall s :: Tallied(GetBucket(c, s), s))
    && (forall s :: Visible(s) ==> DistinctIds(IssuesAt(c, s)))
    && (forall s, t :: Visible(s) && Visible(t) && s != t ==> Apart(IssuesAt(c, s), IssuesAt(c, t)))
  }

  /** Whatever is in sight is in the table. */
  ghost predicate Records(issues: seq<Issue>, t: map<Id, Issue>) {
    forall x :: x in issues ==> x.id in t && t[x.id] == x
  }

  /** The table's entry for `id` is in sight, in the bucket of its status. */
  ghost predicate Shows(c: ListCache, t: map<Id, Issue>, id: Id) {
    id in t && t[id].id == id && Visible(t[id].status) && t[id] in IssuesAt(c, t[id].status)
  }

  /** `t` is the id table that the visible buckets of `c` hold. */
  ghost predicate Represents(c: ListCache, t: map<Id, Issue>) {
    && (forall s :: Visible(s) ==> Records(IssuesAt(c, s), t))
    && (forall id :: id in t ==> Shows(c, t, id))
  }

  // ------------------------------------------------------- helpers, by lemma

  lemma {:induction false} FindInFinds(issues: seq<Issue>, id: Id)
    ensures FindIn(issues, id).None? <==> !HasId(issues, id)
    ensures FindIn(issues, id).Some? ==> FindIn(issues, id).value in issues && FindIn(issues, id).value.id == id
  {
    if issues != [] {
      if issues[0].id != id {
        FindInFinds(issues[1..], id);
        assert issues == [issues[0]] + issues[1..];
      }
    }
  }

  lemma {:induction false} FindAmongFinds(c: ListCache, statuses: seq<Status>, id: Id)
    ensures var loc := FindAmong(c, statuses, id);
            if loc.None? then forall s :: s in statuses ==> !HasId(IssuesAt(c, s), id)
            else loc.value.status in statuses && loc.value.issue in IssuesAt(c, loc.value.status) && loc.value.issue.id == id
  {
    if statuses != [] {
      FindInFinds(GetBucket(c, statuses[0]).issues, id);
      if FindIn(GetBucket(c, statuses[0]).issues, id).None? {
        FindAmongFinds(c, statuses[1..], id);
        assert statuses == [statuses[0]] + statuses[1..];
      }
    }
  }

  /** The search scans exactly the visible buckets. */
  lemma LocationFinds(c: ListCache, id: Id)
    ensures var loc := FindIssueLocation(c, id);
            if loc.None? then forall s :: Visible(s) ==> !HasId(IssuesAt(c, s), id)
            else && Visible(loc.value.status) && loc.value.issue.id == id
                 && loc.value.issue in IssuesAt(c, loc.value.status) && HasId(IssuesAt(c, loc.value.status), id)
  {
    FindAmongFinds(c, PAGINATED_STATUSES, id);
    var loc := FindIssueLocation(c, id);
    forall s ensures Visible(s) <==> s in PAGINATED_STATUSES {
      VisibleIsPaginated(s);
    }
  }

  lemma {:induction false} WithoutMembers(issues: seq<Issue>, id: Id)
    ensures forall x :: x in Without(issues, id) <==> x in issues && x.id != id
    ensures HasId(issues, id) ==> |Without(issues, id)| < |issues|
    ensures !HasId(issues, id) ==> Without(issues, id) == issues
    ensures |Without(issues, id)| <= |issues|
  {
    if issues != [] {
      var front, last := issues[..|issues| - 1], issues[|issues| - 1];
      WithoutMembers(front, id);
      assert issues == front + [last];
    }
  }

  lemma {:induction false} WithoutDistinct(issues: seq<Issue>, id: Id)
    requires DistinctIds(issues)
    ensures DistinctIds(Without(issues, id))
  {
    if issues != [] {
      var front, last := issues[..|issues| - 1], issues[|issues| - 1];
      WithoutDistinct(front, id);
      WithoutMembers(front, id);
      var r := Without(front, id);
      forall i | 0 <= i < |r| ensures r[i].id != last.id {
        assert r[i] in front;
      }
    }
  }

  lemma {:induction false} WithoutConcat(a: seq<Issue>, b: seq<Issue>, id: Id)
    ensures Without(a + b, id) == Without(a, id) + Without(b, id)
  {
    if b == [] {
      assert a + b == a;
    } else {
      assert (a + b)[..|a + b| - 1] == a + b[..|b| - 1];
      WithoutConcat(a, b[..|b| - 1], id);
    }
  }

  lemma {:induction false} ReplaceAt(issues: seq<Issue>, id: Id, issue: Issue)
    ensures |Replace(issues, id, issue)| == |issues|
    ensures forall i :: 0 <= i < |issues| ==> Replace(issues, id, issue)[i] == if issues[i].id == id then issue else issues[i]
  {
    if issues != [] {
      ReplaceAt(issues[..|issues| - 1], id, issue);
    }
  }

  lemma ReplaceMembers(issues: seq<Issue>, id: Id, issue: Issue)
    requires issue.id == id && HasId(issues, id)
    ensures forall x :: x in Replace(issues, id, issue) <==> (x in issues && x.id != id) || x == issue
  {
    var r := Replace(issues, id, issue);
    ReplaceAt(issues, id, issue);
    var i :| 0 <= i < |issues| && issues[i].id == id;
    assert r[i] == issue;
    forall x | x in issues && x.id != id ensures x in r {
      var j :| 0 <= j < |issues| && issues[j] == x;
      assert r[j] == x;
    }
  }

  lemma OneById(issues: seq<Issue>, x: Issue, y: Issue)
    requires DistinctIds(issues) && x in issues && y in issues && x.id == y.id
    ensures x == y
  {
  }

  // -------------------------------------------------- the invariant is kept

  /** The two buckets of a location-independent view. */
  lemma SetBucketKeeps(c: ListCache, s: Status, b: Bucket)
    requires WellFormed(c) && Tallied(b, s)
    requires Visible(s) ==> DistinctIds(b.issues) && forall t :: Visible(t) && t != s ==> Apart(b.issues, IssuesAt(c, t))
    ensures WellFormed(SetBucket(c, s, b))
  {
    var c' := SetBucket(c, s, b);
    forall u ensures Tallied(GetBucket(c', u), u) {
      assert Tallied(GetBucket(c, u), u);
    }
    forall u | Visible(u) ensures DistinctIds(IssuesAt(c', u)) {
      assert DistinctIds(IssuesAt(c, u));
    }
    forall u, v | Visible(u) && Visible(v) && u != v ensures Apart(IssuesAt(c', u), IssuesAt(c', v)) {
      assert Apart(IssuesAt(c, u), IssuesAt(c, v));
    }
  }

  lemma TakeOutKeeps(c: ListCache, s: Status, id: Id)
    requires WellFormed(c) && Visible(s) && HasId(IssuesAt(c, s), id)
    ensures WellFormed(SetBucket(c, s, TakeOut(GetBucket(c, s), id)))
  {
    var issues := IssuesAt(c, s);
    WithoutMembers(issues, id);
    WithoutDistinct(issues, id);
    assert Tallied(GetBucket(c, s), s);
    forall t | Visible(t) && t != s ensures Apart(Without(issues, id), IssuesAt(c, t)) {
      assert Apart(issues, IssuesAt(c, t));
    }
    SetBucketKeeps(c, s, TakeOut(GetBucket(c, s), id));
  }

  lemma RemoveKeepsInvariant(c: ListCache, id: Id)
    requires WellFormed(c)
    ensures WellFormed(RemoveIssue(c, id))
  {
    LocationFinds(c, id);
    var loc := FindIssueLocation(c, id);
    if loc.Some? {
      TakeOutKeeps(c, loc.value.status, id);
    }
  }

  lemma AppendKeeps(c: ListCache, issue: Issue)
    requires WellFormed(c)
    requires Visible(issue.status) ==> forall t :: Visible(t) ==> !HasId(IssuesAt(c, t), issue.id)
    ensures var b := GetBucket(c, issue.status);
            WellFormed(SetBucket(c, issue.status, Bucket(b.issues + [issue], b.total + 1)))
  {
    var s, b := issue.status, GetBucket(c, issue.status);
    assert Tallied(b, s);
    if Visible(s) {
      assert !HasId(IssuesAt(c, s), issue.id);
      assert DistinctIds(b.issues);
      forall t | Visible(t) && t != s ensures Apart(b.issues + [issue], IssuesAt(c, t)) {
        assert Apart(b.issues, IssuesAt(c, t)) && !HasId(IssuesAt(c, t), issue.id);
      }
    }
    SetBucketKeeps(c, s, Bucket(b.issues + [issue], b.total + 1));
  }

  lemma ReplaceKeeps(c: ListCache, s: Status, id: Id, issue: Issue)
    requires WellFormed(c) && Visible(s) && HasId(IssuesAt(c, s), id) && issue.id == id && issue.status == s
    ensures var b := GetBucket(c, s); WellFormed(SetBucket(c, s, b.(issues := Replace(b.issues, id, issue))))
  {
    var b := GetBucket(c, s);
    ReplaceAt(b.issues, id, issue);
    ReplaceMembers(b.issues, id, issue);
    assert Tallied(b, s) && DistinctIds(b.issues);
    forall t | Visible(t) && t != s ensures Apart(Replace(b.issues, id, issue), IssuesAt(c, t)) {
      assert Apart(b.issues, IssuesAt(c, t));
    }
    SetBucketKeeps(c, s, b.(issues := Replace(b.issues, id, issue)));
  }

  /** Nothing visible but the issue's own bucket has its id. */
  ghost predicate NotElsewhere(c: ListCache, issue: Issue) {
    Visible(issue.status) ==> forall t :: Visible(t) && t != issue.status ==> !HasId(IssuesAt(c, t), issue.id)
  }

  lemma AddDuplicates(c: ListCache, issue: Issue, t: Status)
    requires Visible(issue.status) && Visible(t) && t != issue.status
    requires HasId(IssuesAt(c, t), issue.id) && !HasId(IssuesAt(c, issue.status), issue.id)
    ensures !WellFormed(AddIssue(c, issue))
  {
    var s, c' := issue.status, AddIssue(c, issue);
    var x :| x in IssuesAt(c, t) && x.id == issue.id;
    assert IssuesAt(c', t) == IssuesAt(c, t) && issue in IssuesAt(c', s);
    assert !Apart(IssuesAt(c', s), IssuesAt(c', t));
  }

  /**
   Adding checks the issue's own bucket only: the invariant survives exactly when
   no other visible bucket holds the id, or the own one does.
   */
  lemma AddKeepsInvariant(c: ListCache, issue: Issue)
    requires WellFormed(c)
    ensures WellFormed(AddIssue(c, issue)) <==> NotElsewhere(c, issue) || HasId(IssuesAt(c, issue.status), issue.id)
  {
    var s := issue.status;
    if HasId(IssuesAt(c, s), issue.id) {
    } else if NotElsewhere(c, issue) {
      AppendKeeps(c, issue);
    } else {
      var t :| Visible(t) && t != s && HasId(IssuesAt(c, t), issue.id);
      AddDuplicates(c, issue, t);
    }
  }

  lemma PatchKeepsInvariant(c: ListCache, id: Id, patch: Patch)
    requires WellFormed(c)
    ensures WellFormed(PatchIssue(c, id, patch))
  {
    LocationFinds(c, id);
    var loc := FindIssueLocation(c, id);
    if loc.Some? {
      var Location(from, issue) := loc.value;
      var merged := Merge(issue, patch);
      assert Tallied(GetBucket(c, from), from);
      if merged.status == from {
        ReplaceKeeps(c, from, id, merged);
      } else {
        var bucket := GetBucket(c, from);
        var c1 := SetBucket(c, from, TakeOut(bucket, id));
        TakeOutKeeps(c, from, id);
        forall t | Visible(t) ensures !HasId(IssuesAt(c1, t), id) {
          WithoutMembers(bucket.issues, id);
          assert t != from ==> Apart(IssuesAt(c, t), IssuesAt(c, from));
        }
        AppendKeeps(c1, merged);
      }
    }
  }

  // ------------------------------------------- the cache refines an id table

  /** What a patch does to a table: update in place, or delete when the issue goes out of sight. */
  function PatchTable(t: map<Id, Issue>, id: Id, patch: Patch): map<Id, Issue> {
    if id !in t then t
    else if Visible(Merge(t[id], patch).status) then t[id := Merge(t[id], patch)]
    else t - {id}
  }

  function AddTable(t: map<Id, Issue>, issue: Issue): map<Id, Issue> {
    if !Visible(issue.status) || issue.id in t then t else t[issue.id := issue]
  }

  /** A cache holds at most one table ... */
  lemma TableIsUnique(c: ListCache, t: map<Id, Issue>, u: map<Id, Issue>)
    requires Represents(c, t) && Represents(c, u)
    ensures t == u
  {
    forall id | id in t ensures id in u && u[id] == t[id] {
      assert Shows(c, t, id) && Records(IssuesAt(c, t[id].status), u);
    }
    forall id | id in u ensures id in t {
      assert Shows(c, u, id) && Records(IssuesAt(c, u[id].status), t);
    }
  }

  /** ... and a well-formed one holds one. */
  ghost function Table(c: ListCache): (t: map<Id, Issue>)
    requires WellFormed(c)
    ensures Represents(c, t)
  {
    TableExists(c);
    var t :| Represents(c, t);
    t
  }

  /** The ids in sight. */
  ghost function Ids(c: ListCache): set<Id> {
    set x | x in Flatten(c) :: x.id
  }

  lemma {:induction false} FlattenMembers(c: ListCache, statuses: seq<Status>)
    ensures forall x :: x in FlattenFrom(c, statuses) <==> exists s :: s in statuses && x in IssuesAt(c, s)
  {
    if statuses != [] {
      var front, last := statuses[..|statuses| - 1], statuses[|statuses| - 1];
      FlattenMembers(c, front);
      assert statuses == front + [last];
      forall x ensures x in FlattenFrom(c, statuses) <==> exists s :: s in statuses && x in IssuesAt(c, s) {
        if x in IssuesAt(c, last) {
          assert last in statuses;
        }
      }
    }
  }

  /** The table that the search gives. */
  ghost function FoundTable(c: ListCache): map<Id, Issue> {
    map id | id in Ids(c) && FindIssueLocation(c, id).Some? :: FindIssueLocation(c, id).value.issue
  }

  lemma FoundTableRecords(c: ListCache, s: Status)
    requires WellFormed(c) && Visible(s)
    ensures Records(IssuesAt(c, s), FoundTable(c))
  {
    TableIsInjective(c);
    FlattenMembers(c, PAGINATED_STATUSES);
    VisibleIsPaginated(s);
    forall x | x in IssuesAt(c, s) ensures x.id in FoundTable(c) && FoundTable(c)[x.id] == x {
      assert x in Flatten(c);
      LocationFinds(c, x.id);
    }
  }

  lemma TableExists(c: ListCache)
    requires WellFormed(c)
    ensures exists t :: Represents(c, t)
  {
    var t := FoundTable(c);
    forall s | Visible(s) ensures Records(IssuesAt(c, s), t) {
      FoundTableRecords(c, s);
    }
    TableIsInjective(c);
    forall id | id in t ensures Shows(c, t, id) {
      LocationFinds(c, id);
    }
    assert Represents(c, t);
  }

  lemma TableIsInjective(c: ListCache)
    requires WellFormed(c)
    ensures forall s, x, u, y :: Visible(s) && x in IssuesAt(c, s) && Visible(u) && y in IssuesAt(c, u) && x.id == y.id ==> x == y
    ensures forall s, x :: Visible(s) && x in IssuesAt(c, s) ==> x.status == s
  {
    forall s, x | Visible(s) && x in IssuesAt(c, s) ensures x.status == s {
      assert Tallied(GetBucket(c, s), s);
    }
    forall s, x, u, y | Visible(s) && x in IssuesAt(c, s) && Visible(u) && y in IssuesAt(c, u) && x.id == y.id
      ensures x == y
    {
      if s == u {
        OneById(IssuesAt(c, s), x, y);
      }
    }
  }

  lemma LocationInTable(c: ListCache, t: map<Id, Issue>, id: Id)
    requires WellFormed(c) && Represents(c, t)
    ensures FindIssueLocation(c, id) == if id in t then Some(Location(t[id].status, t[id])) else None
  {
    LocationFinds(c, id);
    var loc := FindIssueLocation(c, id);
    if loc.Some? {
      var s := loc.value.status;
      assert Tallied(GetBucket(c, s), s) && Records(IssuesAt(c, s), t);
    } else if id in t {
      assert Shows(c, t, id);
    }
  }

  lemma RemoveRefines(c: ListCache, t: map<Id, Issue>, id: Id)
    requires WellFormed(c) && Represents(c, t)
    ensures Represents(RemoveIssue(c, id), t - {id})
  {
    LocationInTable(c, t, id);
    if id in t {
      TakeOutRefines(c, t, id);
    } else {
      assert t - {id} == t;
    }
  }

  /** Writing bucket `s`, seen from the table. */
  lemma SetBucketRefines(c: ListCache, s: Status, b: Bucket, t: map<Id, Issue>)
    requires forall u :: Visible(u) && u != s ==> Records(IssuesAt(c, u), t)
    requires Visible(s) ==> Records(b.issues, t)
    requires forall id :: id in t ==> if t[id].status == s then t[id].id == id && Visible(s) && t[id] in b.issues else Shows(c, t, id)
    ensures Represents(SetBucket(c, s, b), t)
  {
    var c' := SetBucket(c, s, b);
    forall u | Visible(u) ensures Records(IssuesAt(c', u), t) {
      assert u != s ==> IssuesAt(c', u) == IssuesAt(c, u);
    }
    forall id | id in t ensures Shows(c', t, id) {
      assert t[id].status != s ==> IssuesAt(c', t[id].status) == IssuesAt(c, t[id].status);
    }
  }

  /** The other buckets do not mind a change at an id that this one holds. */
  lemma OtherBucketsRecord(c: ListCache, t: map<Id, Issue>, t': map<Id, Issue>, id: Id)
    requires WellFormed(c) && Represents(c, t) && id in t
    requires forall i :: i in t && i != id ==> i in t' && t'[i] == t[i]
    ensures forall u :: Visible(u) && u != t[id].status ==> Records(IssuesAt(c, u), t')
  {
    assert Shows(c, t, id);
    forall u | Visible(u) && u != t[id].status ensures Records(IssuesAt(c, u), t') {
      assert Records(IssuesAt(c, u), t) && Apart(IssuesAt(c, u), IssuesAt(c, t[id].status));
    }
  }

  lemma TakeOutRefines(c: ListCache, t: map<Id, Issue>, id: Id)
    requires WellFormed(c) && Represents(c, t) && id in t
    ensures var s := t[id].status; Represents(SetBucket(c, s, TakeOut(GetBucket(c, s), id)), t - {id})
  {
    var s := t[id].status;
    var t' := t - {id};
    WithoutMembers(IssuesAt(c, s), id);
    assert Shows(c, t, id) && Records(IssuesAt(c, s), t);
    OtherBucketsRecord(c, t, t', id);
    forall i | i in t'
      ensures if t'[i].status == s then t'[i].id == i && t'[i] in Without(IssuesAt(c, s), id) else Shows(c, t', i)
    {
      assert Shows(c, t, i);
    }
    SetBucketRefines(c, s, TakeOut(GetBucket(c, s), id), t');
  }

  /** The bucket of `issue` with the issue put at its end. */
  function Append(c: ListCache, issue: Issue): ListCache {
    var b := GetBucket(c, issue.status);
    SetBucket(c, issue.status, Bucket(b.issues + [issue], b.total + 1))
  }

  lemma AppendRefines(c: ListCache, t: map<Id, Issue>, issue: Issue)
    requires Represents(c, t) && (Visible(issue.status) ==> issue.id !in t)
    ensures Represents(Append(c, issue), if Visible(issue.status) then t[issue.id := issue] else t)
  {
    var s, b := issue.status, GetBucket(c, issue.status);
    var t' := if Visible(s) then t[issue.id := issue] else t;
    forall u | Visible(u) && u != s ensures Records(IssuesAt(c, u), t') {
      assert Records(IssuesAt(c, u), t);
    }
    if Visible(s) {
      assert Records(IssuesAt(c, s), t);
    }
    forall i | i in t'
      ensures if t'[i].status == s then t'[i].id == i && Visible(s) && t'[i] in b.issues + [issue] else Shows(c, t', i)
    {
      assert i in t ==> Shows(c, t, i);
    }
    SetBucketRefines(c, s, Bucket(b.issues + [issue], b.total + 1), t');
  }

  lemma ReplaceRecords(issues: seq<Issue>, t: map<Id, Issue>, id: Id, issue: Issue)
    requires Records(issues, t) && id in t && t[id] in issues && t[id].id == id && issue.id == id
    ensures Records(Replace(issues, id, issue), t[id := issue])
    ensures forall i :: i in t && t[i] in issues && t[i].id == i ==> t[id := issue][i] in Replace(issues, id, issue)
  {
    ReplaceMembers(issues, id, issue);
  }

  lemma ReplaceRefines(c: ListCache, t: map<Id, Issue>, id: Id, issue: Issue)
    requires WellFormed(c) && Represents(c, t) && id in t && issue.id == id && issue.status == t[id].status
    ensures var b := GetBucket(c, issue.status);
            Represents(SetBucket(c, issue.status, b.(issues := Replace(b.issues, id, issue))), t[id := issue])
  {
    var s := issue.status;
    var b := GetBucket(c, s);
    var r, t' := Replace(b.issues, id, issue), t[id := issue];
    assert Shows(c, t, id) && Records(b.issues, t);
    ReplaceRecords(b.issues, t, id, issue);
    OtherBucketsRecord(c, t, t', id);
    forall i | i in t' ensures if t'[i].status == s then t'[i].id == i && t'[i] in r else Shows(c, t', i) {
      assert Shows(c, t, i);
    }
    SetBucketRefines(c, s, b.(issues := r), t');
  }

  lemma NewlyAddedIsUnknown(c: ListCache, t: map<Id, Issue>, issue: Issue)
    requires WellFormed(c) && Represents(c, t) && WellFormed(AddIssue(c, issue))
    requires Visible(issue.status) && !HasId(IssuesAt(c, issue.status), issue.id)
    ensures issue.id !in t
  {
    AddKeepsInvariant(c, issue);
    if issue.id in t {
      assert Shows(c, t, issue.id);
      assert HasId(IssuesAt(c, t[issue.id].status), issue.id);
    }
  }

  lemma KnownIsRecorded(c: ListCache, t: map<Id, Issue>, issue: Issue)
    requires Represents(c, t) && HasId(IssuesAt(c, issue.status), issue.id)
    ensures AddTable(t, issue) == t
  {
    if Visible(issue.status) {
      assert Records(IssuesAt(c, issue.status), t);
    }
  }

  lemma AddRefines(c: ListCache, t: map<Id, Issue>, issue: Issue)
    requires WellFormed(c) && Represents(c, t) && WellFormed(AddIssue(c, issue))
    ensures Represents(AddIssue(c, issue), AddTable(t, issue))
  {
    var s := issue.status;
    if HasId(IssuesAt(c, s), issue.id) {
      KnownIsRecorded(c, t, issue);
    } else {
      if Visible(s) {
        NewlyAddedIsUnknown(c, t, issue);
      }
      AppendRefines(c, t, issue);
      assert AddIssue(c, issue) == Append(c, issue);
    }
  }

  lemma MoveRefines(c: ListCache, t: map<Id, Issue>, id: Id, merged: Issue)
    requires WellFormed(c) && Represents(c, t) && id in t && merged.id == id
    ensures var from := t[id].status;
            Represents(Append(SetBucket(c, from, TakeOut(GetBucket(c, from), id)), merged),
              if Visible(merged.status) then t[id := merged] else t - {id})
  {
    var from := t[id].status;
    TakeOutRefines(c, t, id);
    AppendRefines(SetBucket(c, from, TakeOut(GetBucket(c, from), id)), t - {id}, merged);
    assert (t - {id})[id := merged] == t[id := merged];
  }

  /** A patch replaces the issue where it stands, or takes it out and appends it elsewhere. */
  lemma PatchIs(c: ListCache, id: Id, patch: Patch, issue: Issue)
    requires FindIssueLocation(c, id) == Some(Location(issue.status, issue))
    ensures var from, merged := issue.status, Merge(issue, patch);
            PatchIssue(c, id, patch) ==
            if merged.status == from then
              SetBucket(c, from, GetBucket(c, from).(issues := Replace(IssuesAt(c, from), id, merged)))
            else Append(SetBucket(c, from, TakeOut(GetBucket(c, from), id)), merged)
  {
  }

  lemma PatchRefines(c: ListCache, t: map<Id, Issue>, id: Id, patch: Patch)
    requires WellFormed(c) && Represents(c, t)
    ensures Represents(PatchIssue(c, id, patch), PatchTable(t, id, patch))
  {
    LocationInTable(c, t, id);
    if id in t {
      var merged := Merge(t[id], patch);
      PatchIs(c, id, patch, t[id]);
      if merged.status == t[id].status {
        assert Shows(c, t, id);
        ReplaceRefines(c, t, id, merged);
      } else {
        MoveRefines(c, t, id, merged);
      }
    }
  }
}
