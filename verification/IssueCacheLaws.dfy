/**
 Laws of the bucketed cache: what it shows, what it counts, and what repeated
 and batched writes come to (packages/core/issues/cache-helpers.ts:40-100,
 packages/core/issues/mutations.ts:256-261 and 340-345).
 */
module IssueCacheLaws {
  import opened Wrappers
  import opened IssueCache
  import Sorting

  // ------------------------------------------------------ what tables become

  /**
   Each helper keeps the invariant and acts on the id table as the table
   operation of its name; a patch that hides an issue acts as a delete.
   */
  lemma HelpersRefineTable(c: ListCache, id: Id, patch: Patch)
    requires WellFormed(c)
    ensures WellFormed(RemoveIssue(c, id)) && Table(RemoveIssue(c, id)) == Table(c) - {id}
    ensures WellFormed(PatchIssue(c, id, patch)) && Table(PatchIssue(c, id, patch)) == PatchTable(Table(c), id, patch)
  {
    RemoveKeepsInvariant(c, id);
    RemoveRefines(c, Table(c), id);
    TableIsUnique(RemoveIssue(c, id), Table(RemoveIssue(c, id)), Table(c) - {id});
    PatchKeepsInvariant(c, id, patch);
    PatchRefines(c, Table(c), id, patch);
    TableIsUnique(PatchIssue(c, id, patch), Table(PatchIssue(c, id, patch)), PatchTable(Table(c), id, patch));
  }

  /** Each field is the patch's where the patch names it, and the old one where it does not; the id stays. */
  predicate Overwrites(before: Issue, patch: Patch, after: Issue) {
    && after.id == before.id
    && after.status == StatusAfter(before, patch)
    && (patch.parentId.Some? ==> after.parentId == patch.parentId.value)
    && (patch.parentId.None? ==> after.parentId == before.parentId)
    && (patch.labels.Some? ==> after.labels == patch.labels)
    && (patch.labels.None? ==> after.labels == before.labels)
    && (patch.title.Some? ==> after.title == patch.title.value)
    && (patch.title.None? ==> after.title == before.title)
  }

  function StatusAfter(before: Issue, patch: Patch): Status {
    if patch.status.Some? then patch.status.value else before.status
  }

  /** The issues of the set are overwritten, or gone when that hides them; no other entry changes. */
  ghost predicate TableWritten(before: map<Id, Issue>, ids: set<Id>, patch: Patch, after: map<Id, Issue>) {
    && (forall id :: id in after <==> id in before && (id in ids ==> Visible(StatusAfter(before[id], patch))))
    && (forall id :: id in after ==> if id in ids then Overwrites(before[id], patch, after[id]) else after[id] == before[id])
  }

  lemma TablesWrite(t: map<Id, Issue>, id: Id, ids: set<Id>, patch: Patch)
    ensures TableWritten(t, {id}, patch, PatchTable(t, id, patch))
    ensures TableWritten(t, ids, patch, PatchTableAll(t, ids, patch))
  {
  }

  /** A patch overwrites just its issue, wherever the board shows it. */
  lemma PatchWrites(c: ListCache, id: Id, patch: Patch)
    requires WellFormed(c)
    ensures WellFormed(PatchIssue(c, id, patch))
    ensures TableWritten(Table(c), {id}, patch, Table(PatchIssue(c, id, patch)))
  {
    HelpersRefineTable(c, id, patch);
    TablesWrite(Table(c), id, {id}, patch);
  }

  /**
   Adding is a table insert exactly when the id is not shown under another
   status; a late echo of a creation, after a move, breaks the invariant.
   */
  lemma AddRefinesTable(c: ListCache, issue: Issue)
    requires WellFormed(c)
    ensures WellFormed(AddIssue(c, issue)) <==>
            (Visible(issue.status) && issue.id in Table(c) ==> Table(c)[issue.id].status == issue.status)
    ensures WellFormed(AddIssue(c, issue)) ==> Table(AddIssue(c, issue)) == AddTable(Table(c), issue)
  {
    var t := Table(c);
    AddKeepsInvariant(c, issue);
    if issue.id in t {
      assert Shows(c, t, issue.id);
      assert HasId(IssuesAt(c, t[issue.id].status), issue.id);
    }
    forall s, x | Visible(s) && x in IssuesAt(c, s) && x.id == issue.id ensures issue.id in t && t[issue.id].status == s {
      assert Records(IssuesAt(c, s), t) && Tallied(GetBucket(c, s), s);
    }
    if WellFormed(AddIssue(c, issue)) {
      AddRefines(c, t, issue);
      TableIsUnique(AddIssue(c, issue), Table(AddIssue(c, issue)), AddTable(t, issue));
    }
  }

  /** The broken case by example: the issue was moved to `Done`, then its creation is echoed. */
  lemma LateCreateEchoDuplicates(x: Issue)
    requires x.status == Todo
    ensures var c := ListCache(map[Done := Bucket([x.(status := Done)], 1)]);
            WellFormed(c) && !WellFormed(AddIssue(c, x))
  {
    var y := x.(status := Done);
    var c := ListCache(map[Done := Bucket([y], 1)]);
    assert y in IssuesAt(c, Done) && HasId(IssuesAt(c, Done), x.id);
    AddKeepsInvariant(c, x);
  }

  // ------------------------------------------------------ what the list shows

  lemma {:induction false} WithoutReplace(issues: seq<Issue>, id: Id, issue: Issue)
    requires issue.id == id
    ensures Without(Replace(issues, id, issue), id) == Without(issues, id)
  {
    if issues != [] {
      var front := issues[..|issues| - 1];
      WithoutReplace(front, id, issue);
      assert Replace(issues, id, issue)[..|Replace(issues, id, issue)| - 1] == Replace(front, id, issue);
    }
  }

  lemma WithoutSnoc(issues: seq<Issue>, issue: Issue)
    ensures Without(issues + [issue], issue.id) == Without(issues, issue.id)
  {
    assert (issues + [issue])[..|issues|] == issues;
  }

  lemma WithoutTwice(issues: seq<Issue>, id: Id)
    ensures Without(Without(issues, id), id) == Without(issues, id)
  {
    WithoutMembers(issues, id);
    WithoutMembers(Without(issues, id), id);
  }

  lemma {:induction false} FlattenWithout(c: ListCache, c': ListCache, statuses: seq<Status>, id: Id)
    requires forall s :: s in statuses ==> Without(IssuesAt(c', s), id) == Without(IssuesAt(c, s), id)
    ensures Without(FlattenFrom(c', statuses), id) == Without(FlattenFrom(c, statuses), id)
  {
    if statuses != [] {
      var front, last := statuses[..|statuses| - 1], statuses[|statuses| - 1];
      FlattenWithout(c, c', front, id);
      WithoutConcat(FlattenFrom(c, front), IssuesAt(c, last), id);
      WithoutConcat(FlattenFrom(c', front), IssuesAt(c', last), id);
    }
  }

  /** Adding, removing and patching one issue leave all others in their order. */
  lemma OthersStayInOrder(c: ListCache, id: Id, patch: Patch, issue: Issue)
    ensures Without(Flatten(RemoveIssue(c, id)), id) == Without(Flatten(c), id)
    ensures Without(Flatten(PatchIssue(c, id, patch)), id) == Without(Flatten(c), id)
    ensures Without(Flatten(AddIssue(c, issue)), issue.id) == Without(Flatten(c), issue.id)
  {
    RemoveInOrder(c, id);
    PatchInOrder(c, id, patch);
    AddInOrder(c, issue);
  }

  lemma RemoveInOrder(c: ListCache, id: Id)
    ensures Without(Flatten(RemoveIssue(c, id)), id) == Without(Flatten(c), id)
  {
    forall s ensures Without(IssuesAt(RemoveIssue(c, id), s), id) == Without(IssuesAt(c, s), id) {
      RemoveFromBucket(c, id, s);
    }
    FlattenWithout(c, RemoveIssue(c, id), PAGINATED_STATUSES, id);
  }

  lemma PatchInOrder(c: ListCache, id: Id, patch: Patch)
    ensures Without(Flatten(PatchIssue(c, id, patch)), id) == Without(Flatten(c), id)
  {
    forall s ensures Without(IssuesAt(PatchIssue(c, id, patch), s), id) == Without(IssuesAt(c, s), id) {
      PatchInBucket(c, id, patch, s);
    }
    FlattenWithout(c, PatchIssue(c, id, patch), PAGINATED_STATUSES, id);
  }

  lemma AddInOrder(c: ListCache, issue: Issue)
    ensures Without(Flatten(AddIssue(c, issue)), issue.id) == Without(Flatten(c), issue.id)
  {
    forall s ensures Without(IssuesAt(AddIssue(c, issue), s), issue.id) == Without(IssuesAt(c, s), issue.id) {
      WithoutSnoc(IssuesAt(c, s), issue);
    }
    FlattenWithout(c, AddIssue(c, issue), PAGINATED_STATUSES, issue.id);
  }

  lemma RemoveFromBucket(c: ListCache, id: Id, s: Status)
    ensures Without(IssuesAt(RemoveIssue(c, id), s), id) == Without(IssuesAt(c, s), id)
  {
    WithoutTwice(IssuesAt(c, s), id);
  }

  /** What a patch makes of each bucket's issues. */
  lemma IssuesAfterPatch(c: ListCache, id: Id, patch: Patch, s: Status)
    requires FindIssueLocation(c, id).Some?
    ensures var Location(from, issue) := FindIssueLocation(c, id).value;
            var merged := Merge(issue, patch);
            var to := if patch.status.Some? then patch.status.value else from;
            IssuesAt(PatchIssue(c, id, patch), s) ==
              if to == from then (if s == from then Replace(IssuesAt(c, s), id, merged) else IssuesAt(c, s))
              else if s == to then IssuesAt(c, s) + [merged]
              else if s == from then Without(IssuesAt(c, s), id)
              else IssuesAt(c, s)
  {
  }

  lemma PatchInBucket(c: ListCache, id: Id, patch: Patch, s: Status)
    ensures Without(IssuesAt(PatchIssue(c, id, patch), s), id) == Without(IssuesAt(c, s), id)
  {
    LocationFinds(c, id);
    if FindIssueLocation(c, id).Some? {
      var issues, merged := IssuesAt(c, s), Merge(FindIssueLocation(c, id).value.issue, patch);
      IssuesAfterPatch(c, id, patch, s);
      WithoutReplace(issues, id, merged);
      WithoutTwice(issues, id);
      WithoutSnoc(issues, merged);
    }
  }

  /** `Without` is the filter that leaves the id out. */
  lemma {:induction false} WithoutFilters(issues: seq<Issue>, id: Id)
    ensures Without(issues, id) == Sorting.Filter(issues, (x: Issue) => x.id != id)
  {
    if issues != [] {
      WithoutFilters(issues[..|issues| - 1], id);
    }
  }

  function IdsOf(issues: seq<Issue>): seq<Id> {
    seq(|issues|, i requires 0 <= i < |issues| => issues[i].id)
  }

  lemma ReplaceKeepsIds(issues: seq<Issue>, id: Id, issue: Issue)
    requires issue.id == id
    ensures IdsOf(Replace(issues, id, issue)) == IdsOf(issues)
  {
    ReplaceAt(issues, id, issue);
  }

  /** How many issues the column of `s` gains when one goes from `from` to `to`. */
  function Gain(s: Status, from: Status, to: Status): int {
    (if s == to then 1 else 0) - (if s == from then 1 else 0)
  }

  lemma PatchCounts(c: ListCache, id: Id, patch: Patch, issue: Issue, s: Status)
    requires FindIssueLocation(c, id) == Some(Location(issue.status, issue)) && GetBucket(c, issue.status).total > 0
    ensures GetBucket(PatchIssue(c, id, patch), s).total ==
            GetBucket(c, s).total + Gain(s, issue.status, StatusAfter(issue, patch))
  {
    PatchIs(c, id, patch, issue);
  }

  lemma PatchOrders(c: ListCache, id: Id, patch: Patch, issue: Issue, s: Status)
    requires FindIssueLocation(c, id) == Some(Location(issue.status, issue)) && issue.id == id
    ensures var to, before := StatusAfter(issue, patch), IssuesAt(c, s);
            IdsOf(IssuesAt(PatchIssue(c, id, patch), s)) ==
              if to == issue.status || (s != issue.status && s != to) then IdsOf(before)
              else if s == to then IdsOf(before) + [id]
              else IdsOf(Without(before, id))
  {
    IssuesAfterPatch(c, id, patch, s);
    ReplaceKeepsIds(IssuesAt(c, s), id, Merge(issue, patch));
  }

  lemma InItsBucket(c: ListCache, id: Id)
    requires WellFormed(c) && id in Table(c)
    ensures FindIssueLocation(c, id) == Some(Location(Table(c)[id].status, Table(c)[id]))
    ensures Table(c)[id].id == id && GetBucket(c, Table(c)[id].status).total > 0
  {
    LocationInTable(c, Table(c), id);
    assert Shows(c, Table(c), id) && Tallied(GetBucket(c, Table(c)[id].status), Table(c)[id].status);
  }

  /**
   Column by column: a patch that keeps the status leaves every issue in its place;
   one that changes it takes the issue out of its column and puts it at the end of
   the new one, and one count goes along with it.
   */
  lemma PatchPlaces(c: ListCache, id: Id, patch: Patch, s: Status)
    requires WellFormed(c) && id in Table(c)
    ensures var from, to := Table(c)[id].status, StatusAfter(Table(c)[id], patch);
            var before, after := GetBucket(c, s), GetBucket(PatchIssue(c, id, patch), s);
            && after.total == before.total + Gain(s, from, to)
            && IdsOf(after.issues) ==
                 if from == to || (s != from && s != to) then IdsOf(before.issues)
                 else if s == to then IdsOf(before.issues) + [id]
                 else IdsOf(Sorting.Filter(before.issues, (x: Issue) => x.id != id))
  {
    InItsBucket(c, id);
    WithoutFilters(IssuesAt(c, s), id);
    PatchCounts(c, id, patch, Table(c)[id], s);
    PatchOrders(c, id, patch, Table(c)[id], s);
  }

  /** A new issue goes to the end of its column, with one count, and no other column changes. */
  lemma AddPlaces(c: ListCache, issue: Issue, s: Status)
    ensures GetBucket(AddIssue(c, issue), s) ==
              if s == issue.status && !HasId(IssuesAt(c, s), issue.id) then Bucket(IssuesAt(c, s) + [issue], GetBucket(c, s).total + 1)
              else GetBucket(c, s)
  {
  }

  /** A removed issue goes out of its column, with one count, and no other column changes. */
  lemma RemovePlaces(c: ListCache, id: Id, s: Status)
    requires WellFormed(c)
    ensures GetBucket(RemoveIssue(c, id), s) ==
              if id in Table(c) && s == Table(c)[id].status
              then Bucket(Sorting.Filter(IssuesAt(c, s), (x: Issue) => x.id != id), GetBucket(c, s).total - 1)
              else GetBucket(c, s)
  {
    if id in Table(c) {
      InItsBucket(c, id);
      WithoutFilters(IssuesAt(c, s), id);
    } else {
      LocationInTable(c, Table(c), id);
    }
  }

  /** The list is the board's columns from left to right. */
  lemma FlattenIsBoardOrder(c: ListCache)
    ensures Flatten(c) == IssuesAt(c, Backlog) + IssuesAt(c, Todo) + IssuesAt(c, InProgress) + IssuesAt(c, InReview)
                        + IssuesAt(c, Done) + IssuesAt(c, Blocked)
  {
    FirstColumns(c);
    LastColumns(c);
    assert PAGINATED_STATUSES[..6] == PAGINATED_STATUSES;
  }

  lemma LastColumns(c: ListCache)
    ensures FlattenFrom(c, PAGINATED_STATUSES[..6]) ==
            FlattenFrom(c, PAGINATED_STATUSES[..3]) + IssuesAt(c, InReview) + IssuesAt(c, Done) + IssuesAt(c, Blocked)
  {
    NextColumn(c, 3, InReview);
    NextColumn(c, 4, Done);
    NextColumn(c, 5, Blocked);
  }

  lemma FirstColumns(c: ListCache)
    ensures FlattenFrom(c, PAGINATED_STATUSES[..3]) == IssuesAt(c, Backlog) + IssuesAt(c, Todo) + IssuesAt(c, InProgress)
  {
    assert FlattenFrom(c, PAGINATED_STATUSES[..0]) == [];
    NextColumn(c, 0, Backlog);
    NextColumn(c, 1, Todo);
    NextColumn(c, 2, InProgress);
    assert [] + IssuesAt(c, Backlog) == IssuesAt(c, Backlog);
  }

  lemma NextColumn(c: ListCache, n: nat, s: Status)
    requires n < |PAGINATED_STATUSES| && PAGINATED_STATUSES[n] == s
    ensures FlattenFrom(c, PAGINATED_STATUSES[..n + 1]) == FlattenFrom(c, PAGINATED_STATUSES[..n]) + IssuesAt(c, s)
  {
    assert PAGINATED_STATUSES[..n + 1][..n] == PAGINATED_STATUSES[..n];
  }

  lemma {:induction false} FlattenHasNot(c: ListCache, statuses: seq<Status>, id: Id)
    requires forall s :: s in statuses ==> !HasId(IssuesAt(c, s), id)
    ensures !HasId(FlattenFrom(c, statuses), id)
  {
    if statuses != [] {
      FlattenHasNot(c, statuses[..|statuses| - 1], id);
      assert statuses[|statuses| - 1] in statuses;
    }
  }

  /** Removing filters the shown list. */
  lemma RemoveShows(c: ListCache, id: Id)
    requires WellFormed(c)
    ensures Flatten(RemoveIssue(c, id)) == Without(Flatten(c), id)
  {
    var c' := RemoveIssue(c, id);
    OthersStayInOrder(c, id, Patch(None, None, None, None), Issue(id, Done, None, None, ""));
    RemoveKeepsInvariant(c, id);
    RemoveRefines(c, Table(c), id);
    LocationInTable(c', Table(c) - {id}, id);
    LocationFinds(c', id);
    forall s | s in PAGINATED_STATUSES ensures !HasId(IssuesAt(c', s), id) {
      VisibleIsPaginated(s);
    }
    FlattenHasNot(c', PAGINATED_STATUSES, id);
    WithoutMembers(Flatten(c'), id);
  }

  // --------------------------------------------------------- what it counts

  function TotalOf(c: ListCache, statuses: seq<Status>): int {
    if statuses == [] then 0 else TotalOf(c, statuses[..|statuses| - 1]) + GetBucket(c, statuses[|statuses| - 1]).total
  }

  /** The server counts of all buckets together, the hidden one included. */
  function Total(c: ListCache): int {
    TotalOf(c, ALL_STATUSES)
  }

  lemma {:induction false} TotalSet(c: ListCache, s: Status, b: Bucket, statuses: seq<Status>)
    requires forall i, j :: 0 <= i < j < |statuses| ==> statuses[i] != statuses[j]
    ensures TotalOf(SetBucket(c, s, b), statuses) ==
            TotalOf(c, statuses) + if s in statuses then b.total - GetBucket(c, s).total else 0
  {
    if statuses != [] {
      var front, last := statuses[..|statuses| - 1], statuses[|statuses| - 1];
      TotalSet(c, s, b, front);
      assert statuses == front + [last];
    }
  }

  lemma TotalSetBucket(c: ListCache, s: Status, b: Bucket)
    ensures Total(SetBucket(c, s, b)) == Total(c) + b.total - GetBucket(c, s).total
  {
    TotalSet(c, s, b, ALL_STATUSES);
    assert ALL_STATUSES[0] == Backlog && ALL_STATUSES[1] == Todo && ALL_STATUSES[2] == InProgress
        && ALL_STATUSES[3] == InReview && ALL_STATUSES[4] == Done && ALL_STATUSES[5] == Blocked
        && ALL_STATUSES[6] == Cancelled;
  }

  lemma TakeOutCounts(c: ListCache, id: Id)
    requires WellFormed(c) && FindIssueLocation(c, id).Some?
    ensures var s := FindIssueLocation(c, id).value.status;
            TakeOut(GetBucket(c, s), id).total == GetBucket(c, s).total - 1
  {
    LocationFinds(c, id);
    var s := FindIssueLocation(c, id).value.status;
    assert Tallied(GetBucket(c, s), s);
  }

  /** Counts are conserved: a patch keeps their sum, wherever it moves the issue. */
  lemma PatchConservesTotal(c: ListCache, id: Id, patch: Patch)
    requires WellFormed(c)
    ensures Total(PatchIssue(c, id, patch)) == Total(c)
  {
    var t := Table(c);
    LocationInTable(c, t, id);
    if id in t {
      var from, merged := t[id].status, Merge(t[id], patch);
      PatchIs(c, id, patch, t[id]);
      var b := GetBucket(c, from);
      if merged.status == from {
        TotalSetBucket(c, from, b.(issues := Replace(b.issues, id, merged)));
      } else {
        TakeOutCounts(c, id);
        TotalSetBucket(c, from, TakeOut(b, id));
        var c1 := SetBucket(c, from, TakeOut(b, id));
        var to := GetBucket(c1, merged.status);
        TotalSetBucket(c1, merged.status, Bucket(to.issues + [merged], to.total + 1));
      }
    }
  }

  /** Removing a shown issue takes one off, adding a new one puts one on, and nothing else counts. */
  lemma AddAndRemoveCountOne(c: ListCache, id: Id, issue: Issue)
    requires WellFormed(c)
    ensures Total(RemoveIssue(c, id)) == Total(c) - if id in Table(c) then 1 else 0
    ensures Total(AddIssue(c, issue)) == Total(c) + if HasId(IssuesAt(c, issue.status), issue.id) then 0 else 1
  {
    LocationInTable(c, Table(c), id);
    if id in Table(c) {
      var s := Table(c)[id].status;
      TakeOutCounts(c, id);
      TotalSetBucket(c, s, TakeOut(GetBucket(c, s), id));
    }
    var b := GetBucket(c, issue.status);
    TotalSetBucket(c, issue.status, Bucket(b.issues + [issue], b.total + 1));
  }

  // ------------------------------------------------------------------ echoes

  lemma MergeTwice(issue: Issue, patch: Patch)
    ensures Merge(Merge(issue, patch), patch) == Merge(issue, patch)
  {
  }

  lemma {:induction false} ReplaceByItself(issues: seq<Issue>, issue: Issue)
    requires forall x :: x in issues && x.id == issue.id ==> x == issue
    ensures Replace(issues, issue.id, issue) == issues
  {
    if issues != [] {
      ReplaceByItself(issues[..|issues| - 1], issue);
      assert issues[|issues| - 1] in issues;
    }
  }

  /** Creation is echo tolerant whatever the cache holds. */
  lemma AddTwice(c: ListCache, issue: Issue)
    ensures AddIssue(AddIssue(c, issue), issue) == AddIssue(c, issue)
  {
    var c' := AddIssue(c, issue);
    assert HasId(IssuesAt(c', issue.status), issue.id) by {
      if !HasId(IssuesAt(c, issue.status), issue.id) {
        assert issue in IssuesAt(c', issue.status);
      }
    }
  }

  /** On a well-formed cache an echoed delete is a no-op ... */
  lemma RemoveTwice(c: ListCache, id: Id)
    requires WellFormed(c)
    ensures RemoveIssue(RemoveIssue(c, id), id) == RemoveIssue(c, id)
  {
    RemoveKeepsInvariant(c, id);
    RemoveRefines(c, Table(c), id);
    LocationInTable(RemoveIssue(c, id), Table(c) - {id}, id);
  }

  /** ... and so is an echoed patch, moves and hidden statuses included. */
  lemma PatchTwice(c: ListCache, id: Id, patch: Patch)
    requires WellFormed(c)
    ensures PatchIssue(PatchIssue(c, id, patch), id, patch) == PatchIssue(c, id, patch)
  {
    var c', t' := PatchIssue(c, id, patch), PatchTable(Table(c), id, patch);
    PatchKeepsInvariant(c, id, patch);
    PatchRefines(c, Table(c), id, patch);
    LocationInTable(c', t', id);
    if id in t' {
      PatchedStays(c', t', id, patch, Table(c)[id]);
    }
  }

  lemma PatchedStays(c: ListCache, t: map<Id, Issue>, id: Id, patch: Patch, before: Issue)
    requires WellFormed(c) && Represents(c, t) && id in t && t[id] == Merge(before, patch)
    ensures PatchIssue(c, id, patch) == c
  {
    LocationInTable(c, t, id);
    MergeTwice(before, patch);
    var s := t[id].status;
    assert Shows(c, t, id) && Records(IssuesAt(c, s), t);
    PatchIs(c, id, patch, t[id]);
    ReplaceByItself(IssuesAt(c, s), t[id]);
    assert SetBucket(c, s, GetBucket(c, s)) == c;
  }

  // ----------------------------------------------------------------- batches

  /** The loop of the batch update. */
  function PatchAll(c: ListCache, ids: seq<Id>, patch: Patch): ListCache {
    if ids == [] then c else PatchIssue(PatchAll(c, ids[..|ids| - 1], patch), ids[|ids| - 1], patch)
  }

  /** The loop of the batch delete. */
  function RemoveAll(c: ListCache, ids: seq<Id>): ListCache {
    if ids == [] then c else RemoveIssue(RemoveAll(c, ids[..|ids| - 1]), ids[|ids| - 1])
  }

  function IdSet(ids: seq<Id>): set<Id> {
    set id | id in ids
  }

  function PatchTableAll(t: map<Id, Issue>, ids: set<Id>, patch: Patch): map<Id, Issue> {
    map id | id in t && (id in ids ==> Visible(Merge(t[id], patch).status)) ::
      if id in ids then Merge(t[id], patch) else t[id]
  }

  lemma PatchTableOneMore(t: map<Id, Issue>, ids: set<Id>, id: Id, patch: Patch)
    ensures PatchTable(PatchTableAll(t, ids, patch), id, patch) == PatchTableAll(t, ids + {id}, patch)
  {
    if id in t {
      MergeTwice(t[id], patch);
    }
  }

  /**
   A batch update is one table operation on the set of its ids, so their order
   and repetition do not matter.
   */
  lemma {:induction false} BatchPatchIsBySet(c: ListCache, ids: seq<Id>, patch: Patch)
    requires WellFormed(c)
    ensures WellFormed(PatchAll(c, ids, patch))
    ensures Table(PatchAll(c, ids, patch)) == PatchTableAll(Table(c), IdSet(ids), patch)
  {
    if ids == [] {
      assert PatchTableAll(Table(c), {}, patch) == Table(c);
      assert IdSet(ids) == {};
    } else {
      var front, last := ids[..|ids| - 1], ids[|ids| - 1];
      BatchPatchIsBySet(c, front, patch);
      HelpersRefineTable(PatchAll(c, front, patch), last, patch);
      assert ids == front + [last];
      assert IdSet(ids) == IdSet(front) + {last};
      PatchTableOneMore(Table(c), IdSet(front), last, patch);
    }
  }

  lemma MinusOneMore(t: map<Id, Issue>, ids: set<Id>, id: Id)
    ensures t - ids - {id} == t - (ids + {id})
  {
  }

  lemma {:induction false} BatchRemoveIsBySet(c: ListCache, ids: seq<Id>)
    requires WellFormed(c)
    ensures WellFormed(RemoveAll(c, ids))
    ensures Table(RemoveAll(c, ids)) == Table(c) - IdSet(ids)
  {
    if ids != [] {
      var front, last := ids[..|ids| - 1], ids[|ids| - 1];
      BatchRemoveIsBySet(c, front);
      HelpersRefineTable(RemoveAll(c, front), last, Patch(None, None, None, None));
      assert ids == front + [last];
      assert IdSet(ids) == IdSet(front) + {last};
      MinusOneMore(Table(c), IdSet(front), last);
    } else {
      assert Table(c) - IdSet(ids) == Table(c);
    }
  }
}
