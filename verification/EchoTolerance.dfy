/**
 What the optimistic steps and the WebSocket updaters show, and that the two may
 report the same change in either order (packages/core/issues/ws-updaters.ts,
 packages/core/issues/mutations.ts, packages/core/realtime/use-realtime-sync.ts:283-285).
 */
module EchoTolerance {
  import opened Wrappers
  import opened IssueCache
  import opened IssueCacheLaws
  import opened IssueQueries
  import Sorting

  function MergeDetail(detail: map<Id, Issue>, id: Id, patch: Patch): map<Id, Issue> {
    if id in detail then detail[id := Merge(detail[id], patch)] else detail
  }

  /** The children slots are those that `order` lists. */
  predicate Ordered(slots: Slots) {
    (forall p :: p in slots.order ==> p in slots.children) && (forall p :: p in slots.children ==> p in slots.order)
  }

  // ------------------------------------------------- what is written, field by field

  /** The slot of the issue is overwritten, and no other. */
  predicate DetailWritten(before: map<Id, Issue>, id: Id, patch: Patch, after: map<Id, Issue>) {
    && after.Keys == before.Keys
    && forall i :: i in before ==> if i == id then Overwrites(before[i], patch, after[i]) else after[i] == before[i]
  }

  /** Row for row, the issues of the set are overwritten, and no other. */
  predicate RowsWritten(before: seq<Issue>, ids: set<Id>, patch: Patch, after: seq<Issue>) {
    && |after| == |before|
    && forall i :: 0 <= i < |before| ==>
         if before[i].id in ids then Overwrites(before[i], patch, after[i]) else after[i] == before[i]
  }

  lemma {:induction false} MergeEachWrites(issues: seq<Issue>, ids: set<Id>, patch: Patch)
    ensures RowsWritten(issues, ids, patch, MergeEach(issues, ids, patch))
  {
    if issues != [] {
      MergeEachWrites(issues[1..], ids, patch);
      var first := if issues[0].id in ids then Merge(issues[0], patch) else issues[0];
      assert MergeEach(issues, ids, patch) == [first] + MergeEach(issues[1..], ids, patch);
    }
  }

  /** `Outside` is the filter that leaves the set out. */
  lemma {:induction false} OutsideFilters(issues: seq<Issue>, ids: set<Id>)
    ensures Outside(issues, ids) == Sorting.Filter(issues, (x: Issue) => x.id !in ids)
  {
    if issues != [] {
      OutsideFilters(issues[1..], ids);
      Sorting.FilterCons(issues[0], issues[1..], (x: Issue) => x.id !in ids);
      assert issues == [issues[0]] + issues[1..];
    }
  }

  // -------------------------------------------------- what each step shows

  lemma PatchListShows(s: State, id: Id, patch: Patch)
    requires ListWellFormed(s.slots)
    ensures var t := PatchList(s, id, patch).slots;
            && t == s.slots.(list := t.list)
            && ListWellFormed(t) && Shown(t) == PatchTable(Shown(s.slots), id, patch)
  {
    ShownPatched(s.slots, PatchList(s, id, patch).slots, id, patch);
  }

  lemma UpdatedTables(s: State, id: Id, patch: Patch)
    requires ListWellFormed(s.slots)
    ensures var t := OnIssueUpdated(s, id, patch).slots;
            && ListWellFormed(t) && Shown(t) == PatchTable(Shown(s.slots), id, patch)
            && t.detail == MergeDetail(s.slots.detail, id, patch)
            && t.byIssue == s.slots.byIssue
  {
    PatchListShows(s, id, patch);
    UpdateParentsKeeps(PatchDetail(Invalidate(PatchList(s, id, patch), MyAllKey), id, patch), OldParent(s.slots, id), id, patch);
  }

  /** An update event overwrites its issue in the list's table and the detail slot, and no other issue. */
  lemma UpdatedShows(s: State, id: Id, patch: Patch)
    requires ListWellFormed(s.slots)
    ensures var t := OnIssueUpdated(s, id, patch).slots;
            && ListWellFormed(t) && TableWritten(Shown(s.slots), {id}, patch, Shown(t))
            && DetailWritten(s.slots.detail, id, patch, t.detail)
            && t.byIssue == s.slots.byIssue
  {
    UpdatedTables(s, id, patch);
    TablesWrite(Shown(s.slots), id, {id}, patch);
  }

  /** The second half of an update event leaves the other slots alone. */
  lemma UpdateParentsKeeps(s: State, oldParent: Option<Id>, id: Id, patch: Patch)
    ensures var t := UpdateParents(s, oldParent, id, patch).slots;
            t == s.slots.(children := t.children, order := t.order)
  {
  }

  lemma ParentRows(s: State, before: Option<Id>, id: Id, patch: Patch)
    ensures var t := UpdateParents(s, before, id, patch).slots;
            var moves := patch.parentId.Some? && patch.parentId.value != before;
            && t.order == s.slots.order
            && t.children == if !moves && Truthy(before).Some? && before.value in s.slots.children
                             then s.slots.children[before.value := MergeEach(s.slots.children[before.value], {id}, patch)]
                             else s.slots.children
  {
  }

  /**
   By the parent known before the event: an event that keeps it patches the issue's
   row among that parent's children and no other row; one that moves the issue
   leaves every row and marks the children of both parents.
   */
  lemma UpdatedReachesParents(s: State, id: Id, patch: Patch, p: Id)
    ensures var t, before := OnIssueUpdated(s, id, patch), OldParent(s.slots, id);
            var moves := patch.parentId.Some? && patch.parentId.value != before;
            && t.slots.children.Keys == s.slots.children.Keys
            && (p in s.slots.children ==>
                  && RowsWritten(s.slots.children[p], if !moves && before == Some(p) && p != "" then {id} else {}, patch,
                       t.slots.children[p])
                  && (ChildrenKey(p) in t.stale <==>
                        if moves && p != "" && (before == Some(p) || patch.parentId.value == Some(p)) then true
                        else ChildrenKey(p) in s.stale && (moves || before != Some(p) || p == "")))
  {
    var s1 := PatchDetail(Invalidate(PatchList(s, id, patch), MyAllKey), id, patch);
    assert s1.slots.children == s.slots.children && (ChildrenKey(p) in s1.stale <==> ChildrenKey(p) in s.stale);
    ParentRows(s1, OldParent(s.slots, id), id, patch);
    if p in s.slots.children {
      MergeEachWrites(s.slots.children[p], {id}, patch);
      ParentMarks(s1, OldParent(s.slots, id), id, patch, p);
    }
  }

  lemma ParentMarks(s: State, before: Option<Id>, id: Id, patch: Patch, p: Id)
    requires p in s.slots.children
    ensures var t := UpdateParents(s, before, id, patch);
            var moves := patch.parentId.Some? && patch.parentId.value != before;
            ChildrenKey(p) in t.stale <==>
              if moves && p != "" && (before == Some(p) || patch.parentId.value == Some(p)) then true
              else ChildrenKey(p) in s.stale && (moves || before != Some(p) || p == "")
  {
  }

  lemma CreatedShows(s: State, issue: Issue)
    requires ListWellFormed(s.slots)
    requires ListWellFormed(AddToList(s, issue).slots)
    ensures OnIssueCreated(s, issue).slots == CreateSucceeded(s, issue).slots == AddToList(s, issue).slots
    ensures Shown(AddToList(s, issue).slots) == (if s.slots.list.Some? then AddTable(Shown(s.slots), issue) else Shown(s.slots))
    ensures issue.parentId.Some? && issue.parentId.value != "" && issue.parentId.value in s.slots.children ==>
              ChildrenKey(issue.parentId.value) in OnIssueCreated(s, issue).stale
  {
    if s.slots.list.Some? {
      AddRefinesTable(s.slots.list.value, issue);
    }
  }

  lemma {:induction false} DropMembers(order: seq<Id>, p: Id)
    ensures forall q :: q in Drop(order, p) <==> q in order && q != p
  {
    if order != [] {
      DropMembers(order[1..], p);
      assert order == [order[0]] + order[1..];
    }
  }

  lemma {:induction false} DropFilters(order: seq<Id>, id: Id)
    ensures Drop(order, id) == Sorting.Filter(order, (p: Id) => p != id)
  {
    if order != [] {
      DropFilters(order[1..], id);
      Sorting.FilterCons(order[0], order[1..], (p: Id) => p != id);
      assert order == [order[0]] + order[1..];
    }
  }

  lemma SlotsAfterDelete(s: State, id: Id)
    ensures OnIssueDeleted(s, id).slots == s.slots.(
              list := if s.slots.list.Some? then Some(RemoveIssue(s.slots.list.value, id)) else None,
              detail := s.slots.detail - {id},
              children := s.slots.children - {id},
              order := Drop(s.slots.order, id))
    ensures BeginDelete(s, id).slots == s.slots.(
              list := if s.slots.list.Some? then Some(RemoveIssue(s.slots.list.value, id)) else None,
              detail := s.slots.detail - {id})
  {
  }

  lemma DeletedMarksParent(s: State, id: Id, p: Id)
    requires ListParent(s.slots, id) == Some(p) && p != "" && p != id && p in s.slots.children
    ensures ChildrenKey(p) in OnIssueDeleted(s, id).stale
  {
  }

  lemma RemoveShown(slots: Slots, id: Id)
    requires ListWellFormed(slots)
    ensures var t := slots.(list := if slots.list.Some? then Some(RemoveIssue(slots.list.value, id)) else None);
            ListWellFormed(t) && Shown(t) == Shown(slots) - {id}
  {
    if slots.list.Some? {
      HelpersRefineTable(slots.list.value, id, NO_PATCH);
    } else {
      assert Shown(slots) - {id} == Shown(slots);
    }
  }

  /** A delete event leaves the issue in no slot, keeps all others, and marks its parent. */
  lemma DeletedShows(s: State, id: Id)
    requires ListWellFormed(s.slots)
    ensures var t := OnIssueDeleted(s, id).slots;
            && ListWellFormed(t) && Shown(t) == Shown(s.slots) - {id}
            && t.detail == s.slots.detail - {id} && t.children == s.slots.children - {id}
            && t.order == Sorting.Filter(s.slots.order, (p: Id) => p != id) && (Ordered(s.slots) ==> Ordered(t))
    ensures forall p :: id in Shown(s.slots) && Shown(s.slots)[id].parentId == Some(p) && p != "" && p != id && p in s.slots.children ==>
                          ChildrenKey(p) in OnIssueDeleted(s, id).stale
  {
    ListParentInTable(s.slots, id);
    SlotsAfterDelete(s, id);
    RemoveShown(s.slots, id);
    DropMembers(s.slots.order, id);
    DropFilters(s.slots.order, id);
    forall p | ListParent(s.slots, id) == Some(p) && p != "" && p != id && p in s.slots.children
      ensures ChildrenKey(p) in OnIssueDeleted(s, id).stale
    {
      DeletedMarksParent(s, id, p);
    }
  }

  // ---------------------------------------------- what the batches show

  lemma {:induction false} MergeNone(issues: seq<Issue>, ids: set<Id>, patch: Patch)
    requires !Mentions(issues, ids)
    ensures MergeEach(issues, ids, patch) == issues && Outside(issues, ids) == issues
  {
    if issues != [] {
      assert issues[0] in issues;
      assert forall x :: x in issues[1..] ==> x in issues;
      MergeNone(issues[1..], ids, patch);
    }
  }

  /** All children slots with the patch merged in, and with the set filtered out. */
  function MergedEverywhere(slots: Slots, ids: set<Id>, patch: Patch): map<Id, seq<Issue>> {
    map p | p in slots.children :: MergeEach(slots.children[p], ids, patch)
  }

  function RemainingEverywhere(slots: Slots, ids: set<Id>): map<Id, seq<Issue>> {
    map p | p in slots.children :: Outside(slots.children[p], ids)
  }

  /** An unaffected slot has nothing to rewrite. */
  lemma UnaffectedStays(slots: Slots, ids: set<Id>, patch: Patch, p: Id)
    requires Ordered(slots) && p in slots.children && p !in Affected(slots, slots.order, ids)
    ensures MergeEach(slots.children[p], ids, patch) == slots.children[p] == Outside(slots.children[p], ids)
  {
    AffectedMembers(slots, slots.order, ids);
    MergeNone(slots.children[p], ids, patch);
  }

  /** Rewriting the affected slots is rewriting all slots. */
  lemma AffectedIsEnough(slots: Slots, ids: set<Id>, patch: Patch, affected: seq<Id>)
    requires Ordered(slots) && affected == Affected(slots, slots.order, ids)
    ensures slots.children + MergedRows(slots, affected, ids, patch) == MergedEverywhere(slots, ids, patch)
    ensures slots.children + RemainingRows(slots, affected, ids) == RemainingEverywhere(slots, ids)
  {
    var rows, all := slots.children + MergedRows(slots, affected, ids, patch), MergedEverywhere(slots, ids, patch);
    forall p | p in slots.children ensures rows[p] == all[p] {
      if p !in affected { UnaffectedStays(slots, ids, patch, p); }
    }
    RemainingIsEnough(slots, ids, affected);
  }

  lemma RemainingIsEnough(slots: Slots, ids: set<Id>, affected: seq<Id>)
    requires Ordered(slots) && affected == Affected(slots, slots.order, ids)
    ensures slots.children + RemainingRows(slots, affected, ids) == RemainingEverywhere(slots, ids)
  {
    var rows, all := slots.children + RemainingRows(slots, affected, ids), RemainingEverywhere(slots, ids);
    forall p | p in slots.children ensures rows[p] == all[p] {
      if p !in affected { UnaffectedStays(slots, ids, NO_PATCH, p); }
    }
  }

  /** What writing `news` for the affected slots leaves. */
  lemma WrittenSlots(s: State, affected: seq<Id>, news: map<Id, seq<Issue>>)
    requires forall p :: p in affected <==> p in news
    ensures var t := WriteEach(s, affected, news).slots;
            t == s.slots.(children := s.slots.children + news, order := t.order)
  {
    WriteEachIs(s, affected, news);
    assert news == (map p | p in affected :: news[p]);
  }

  lemma BatchUpdateSlots(s: State, ids: seq<Id>, patch: Patch)
    requires Ordered(s.slots)
    ensures var t := BeginBatchUpdate(s, ids, patch).slots;
            && t.list == (if s.slots.list.Some? then Some(PatchAll(s.slots.list.value, ids, patch)) else None)
            && t.detail == s.slots.detail
            && t.children == MergedEverywhere(s.slots, IdSet(ids), patch)
  {
    var affected := Affected(s.slots, s.slots.order, IdSet(ids));
    var s1 := if s.slots.list.None? then s else SetList(s, PatchAll(s.slots.list.value, ids, patch));
    WrittenSlots(s1, affected, MergedRows(s.slots, affected, IdSet(ids), patch));
    AffectedIsEnough(s.slots, IdSet(ids), patch, affected);
  }

  lemma BatchDeleteSlots(s: State, ids: seq<Id>)
    requires Ordered(s.slots)
    ensures var t := BeginBatchDelete(s, ids).slots;
            && t.list == (if s.slots.list.Some? then Some(RemoveAll(s.slots.list.value, ids)) else None)
            && t.detail == s.slots.detail
            && t.children == RemainingEverywhere(s.slots, IdSet(ids))
  {
    var affected := Affected(s.slots, s.slots.order, IdSet(ids));
    WrittenSlots(s, affected, RemainingRows(s.slots, affected, IdSet(ids)));
    AffectedIsEnough(s.slots, IdSet(ids), NO_PATCH, affected);
  }

  /**
   A batch update overwrites every issue of the set wherever it is cached as a row:
   in the list's table, and in all children slots, those of no parent in the list
   included.
   */
  lemma BatchUpdateShows(s: State, ids: seq<Id>, patch: Patch)
    requires ListWellFormed(s.slots) && Ordered(s.slots)
    ensures var t := BeginBatchUpdate(s, ids, patch).slots;
            && ListWellFormed(t) && TableWritten(Shown(s.slots), IdSet(ids), patch, Shown(t))
            && t.children.Keys == s.slots.children.Keys
            && (forall p :: p in t.children ==> RowsWritten(s.slots.children[p], IdSet(ids), patch, t.children[p]))
            && t.detail == s.slots.detail
  {
    BatchUpdateSlots(s, ids, patch);
    if s.slots.list.Some? {
      BatchPatchIsBySet(s.slots.list.value, ids, patch);
    }
    TablesWrite(Shown(s.slots), "", IdSet(ids), patch);
    forall p | p in s.slots.children {
      MergeEachWrites(s.slots.children[p], IdSet(ids), patch);
    }
  }

  /** A batch delete takes every issue of the set out of the list's table and filters it out of all children slots. */
  lemma BatchDeleteShows(s: State, ids: seq<Id>)
    requires ListWellFormed(s.slots) && Ordered(s.slots)
    ensures var t := BeginBatchDelete(s, ids).slots;
            && ListWellFormed(t) && Shown(t) == Shown(s.slots) - IdSet(ids)
            && t.children.Keys == s.slots.children.Keys
            && (forall p :: p in t.children ==>
                  t.children[p] == Sorting.Filter(s.slots.children[p], (x: Issue) => x.id !in IdSet(ids)))
            && t.detail == s.slots.detail
  {
    BatchDeleteSlots(s, ids);
    if s.slots.list.Some? {
      BatchRemoveIsBySet(s.slots.list.value, ids);
    } else {
      assert Shown(s.slots) - IdSet(ids) == Shown(s.slots);
    }
    forall p | p in s.slots.children {
      OutsideFilters(s.slots.children[p], IdSet(ids));
    }
  }

  /** Children slot `p` is the first in the cache's order that holds the issue. */
  ghost predicate HoldsFirst(slots: Slots, order: seq<Id>, id: Id, p: Id) {
    exists i :: 0 <= i < |order| && order[i] == p && p in slots.children && HasId(slots.children[p], id)
                && forall j :: 0 <= j < i && order[j] in slots.children ==> !HasId(slots.children[order[j]], id)
  }

  lemma {:induction false} ScanFinds(slots: Slots, order: seq<Id>, id: Id)
    ensures var p := ScanParents(slots, order, id);
            if p.Some? then HoldsFirst(slots, order, id, p.value)
            else forall q :: q in order && q in slots.children ==> !HasId(slots.children[q], id)
  {
    if order != [] {
      assert order == [order[0]] + order[1..];
      if order[0] in slots.children && HasId(slots.children[order[0]], id) {
        assert HoldsFirst(slots, order, id, order[0]);
      } else {
        ScanFinds(slots, order[1..], id);
        if ScanParents(slots, order[1..], id).Some? {
          HoldsBehind(slots, order, id, ScanParents(slots, order[1..], id).value);
        }
      }
    }
  }

  lemma HoldsBehind(slots: Slots, order: seq<Id>, id: Id, p: Id)
    requires order != [] && HoldsFirst(slots, order[1..], id, p)
    requires order[0] in slots.children ==> !HasId(slots.children[order[0]], id)
    ensures HoldsFirst(slots, order, id, p)
  {
    var i :| 0 <= i < |order[1..]| && order[1..][i] == p && p in slots.children && HasId(slots.children[p], id)
                && forall j :: 0 <= j < i && order[1..][j] in slots.children ==> !HasId(slots.children[order[1..][j]], id);
    forall j | 0 <= j < i + 1 && order[j] in slots.children ensures !HasId(slots.children[order[j]], id) {
      assert j > 0 ==> order[j] == order[1..][j - 1];
    }
    assert order[i + 1] == p;
  }

  /**
   The parent that an update goes by: the one that the detail slot names, else the
   list's entry; when neither names one, the first children slot with the issue; and
   none only if no children slot holds it, or the first one has the empty id. An
   event goes by the detail slot and the list only.
   */
  lemma ParentFound(slots: Slots, id: Id)
    requires ListWellFormed(slots) && Ordered(slots)
    ensures var p := ParentOf(slots, id);
            var inDetail := if id in slots.detail then slots.detail[id].parentId else None;
            var inList := if id in Shown(slots) then Shown(slots)[id].parentId else None;
            if inDetail.Some? && inDetail.value != "" then p == inDetail
            else if inDetail.None? && inList.Some? && inList.value != "" then p == inList
            else if p.Some? then p.value != "" && HoldsFirst(slots, slots.order, id, p.value)
            else HoldsFirst(slots, slots.order, id, "") || forall q :: q in slots.children ==> !HasId(slots.children[q], id)
    ensures var inDetail := if id in slots.detail then slots.detail[id].parentId else None;
            var inList := if id in Shown(slots) then Shown(slots)[id].parentId else None;
            OldParent(slots, id) == if inDetail.Some? then inDetail else inList
  {
    ListParentInTable(slots, id);
    ScanFinds(slots, slots.order, id);
  }

  /**
   An update overwrites its issue at once in the list's table, in the detail slot
   and among its parent's children, and no other issue anywhere.
   */
  lemma UpdateShows(s: State, id: Id, patch: Patch)
    requires ListWellFormed(s.slots)
    ensures var t, p := BeginUpdate(s, id, patch).slots, ParentOf(s.slots, id);
            && ListWellFormed(t) && TableWritten(Shown(s.slots), {id}, patch, Shown(t))
            && DetailWritten(s.slots.detail, id, patch, t.detail)
            && t.children.Keys == s.slots.children.Keys
            && forall q :: q in t.children ==>
                 RowsWritten(s.slots.children[q], if p == Some(q) then {id} else {}, patch, t.children[q])
  {
    SlotsAfterBegin(s, id, patch);
    ShownPatched(s.slots, BeginUpdate(s, id, patch).slots, id, patch);
    TablesWrite(Shown(s.slots), id, {id}, patch);
    BeginRows(s, id, patch);
    RowsPatchedWrites(s.slots, BeginUpdate(s, id, patch).slots, ParentOf(s.slots, id), id, patch);
  }

  lemma ShownPatched(slots: Slots, t: Slots, id: Id, patch: Patch)
    requires ListWellFormed(slots)
    requires t.list == if slots.list.Some? then Some(PatchIssue(slots.list.value, id, patch)) else None
    ensures ListWellFormed(t) && Shown(t) == PatchTable(Shown(slots), id, patch)
  {
    if slots.list.Some? {
      HelpersRefineTable(slots.list.value, id, patch);
    }
  }

  lemma RowsPatchedWrites(slots: Slots, t: Slots, p: Option<Id>, id: Id, patch: Patch)
    requires RowsPatched(slots, t, p, id, patch)
    ensures t.children.Keys == slots.children.Keys
    ensures forall q :: q in t.children ==> RowsWritten(slots.children[q], if p == Some(q) then {id} else {}, patch, t.children[q])
  {
    if p.Some? && p.value in slots.children {
      MergeEachWrites(slots.children[p.value], {id}, patch);
    }
  }

  // ------------------------------------------------------------------ echoes

  lemma {:induction false} MergeEachTwice(issues: seq<Issue>, ids: set<Id>, patch: Patch)
    ensures MergeEach(MergeEach(issues, ids, patch), ids, patch) == MergeEach(issues, ids, patch)
  {
    if issues != [] {
      MergeEachTwice(issues[1..], ids, patch);
      assert ([if issues[0].id in ids then Merge(issues[0], patch) else issues[0]] + MergeEach(issues[1..], ids, patch))[1..]
          == MergeEach(issues[1..], ids, patch);
    }
  }

  /** The reply of a creation and its echo leave the same slots, in either order and however often. */
  lemma CreateEchoes(s: State, issue: Issue)
    ensures OnIssueCreated(CreateSucceeded(s, issue), issue).slots == CreateSucceeded(s, issue).slots
    ensures CreateSucceeded(OnIssueCreated(s, issue), issue).slots == CreateSucceeded(s, issue).slots
    ensures OnIssueCreated(OnIssueCreated(s, issue), issue).slots == CreateSucceeded(s, issue).slots
  {
    assert OnIssueCreated(s, issue).slots == CreateSucceeded(s, issue).slots == AddToList(s, issue).slots;
    if s.slots.list.Some? {
      AddTwice(s.slots.list.value, issue);
    }
  }

  lemma MinusTwice<T>(m: map<Id, T>, id: Id)
    ensures m - {id} - {id} == m - {id}
  {
  }

  /** A delete event changes nothing after the optimistic delete but the children slot of the issue, and nothing after itself. */
  lemma DeleteEchoes(s: State, id: Id)
    requires ListWellFormed(s.slots)
    ensures var t := BeginDelete(s, id).slots;
            OnIssueDeleted(BeginDelete(s, id), id).slots == t.(children := t.children - {id}, order := Drop(t.order, id))
    ensures OnIssueDeleted(OnIssueDeleted(s, id), id).slots == OnIssueDeleted(s, id).slots
  {
    SlotsAfterDelete(s, id);
    SlotsAfterDelete(BeginDelete(s, id), id);
    SlotsAfterDelete(OnIssueDeleted(s, id), id);
    if s.slots.list.Some? {
      RemoveTwice(s.slots.list.value, id);
    }
    MinusTwice(s.slots.detail, id);
    MinusTwice(s.slots.children, id);
    DropTwice(s.slots.order, id);
  }

  lemma {:induction false} DropTwice(order: seq<Id>, p: Id)
    ensures Drop(Drop(order, p), p) == Drop(order, p)
  {
    if order != [] {
      DropTwice(order[1..], p);
      if order[0] != p {
        assert ([order[0]] + Drop(order[1..], p))[1..] == Drop(order[1..], p);
      }
    }
  }

  lemma SlotsAfterBegin(s: State, id: Id, patch: Patch)
    ensures var t := BeginUpdate(s, id, patch).slots;
            && t.list == (if s.slots.list.Some? then Some(PatchIssue(s.slots.list.value, id, patch)) else None)
            && t.detail == MergeDetail(s.slots.detail, id, patch) && t.byIssue == s.slots.byIssue
  {
  }

  lemma SlotsAfterEvent(s: State, id: Id, patch: Patch)
    ensures var t := OnIssueUpdated(s, id, patch).slots;
            && t.list == (if s.slots.list.Some? then Some(PatchIssue(s.slots.list.value, id, patch)) else None)
            && t.detail == MergeDetail(s.slots.detail, id, patch) && t.byIssue == s.slots.byIssue
  {
    UpdateParentsKeeps(PatchDetail(Invalidate(PatchList(s, id, patch), MyAllKey), id, patch), OldParent(s.slots, id), id, patch);
  }

  lemma MergeDetailTwice(detail: map<Id, Issue>, id: Id, patch: Patch)
    ensures MergeDetail(MergeDetail(detail, id, patch), id, patch) == MergeDetail(detail, id, patch)
  {
    if id in detail {
      MergeTwice(detail[id], patch);
    }
  }

  /** A merge changes the rows exactly when it changes one of the set's. */
  lemma {:induction false} MergeChangesWhen(issues: seq<Issue>, ids: set<Id>, patch: Patch)
    ensures MergeEach(issues, ids, patch) == issues <==> forall x :: x in issues && x.id in ids ==> Merge(x, patch) == x
  {
    if issues != [] {
      MergeChangesWhen(issues[1..], ids, patch);
      assert issues == [issues[0]] + issues[1..];
      var first := if issues[0].id in ids then Merge(issues[0], patch) else issues[0];
      assert MergeEach(issues, ids, patch)[0] == first && MergeEach(issues, ids, patch)[1..] == MergeEach(issues[1..], ids, patch);
    }
  }

  /** Among the cached children of `p` stands a row of the issue that the patch would change. */
  predicate RowDiffers(slots: Slots, p: Id, id: Id, patch: Patch) {
    p in slots.children && exists x :: x in slots.children[p] && x.id == id && Merge(x, patch) != x
  }

  /** The detail slot holds the issue, or the list does and shows it still under the patched status. */
  ghost predicate KnownAfter(slots: Slots, id: Id, patch: Patch)
    requires ListWellFormed(slots)
  {
    id in slots.detail || (id in Shown(slots) && Visible(Merge(Shown(slots)[id], patch).status))
  }

  /** The patch names a nonempty parent, other than `before`, where a row of the issue would change. */
  ghost predicate EchoReachesRow(slots: Slots, before: Option<Id>, id: Id, patch: Patch)
    requires ListWellFormed(slots)
  {
    && patch.parentId.Some? && Truthy(patch.parentId.value).Some? && patch.parentId.value != before
    && KnownAfter(slots, id, patch) && RowDiffers(slots, patch.parentId.value.value, id, patch)
  }

  lemma ListParentInTable(slots: Slots, id: Id)
    requires ListWellFormed(slots)
    ensures ListParent(slots, id) == if id in Shown(slots) then Shown(slots)[id].parentId else None
  {
    if slots.list.Some? {
      LocationInTable(slots.list.value, Table(slots.list.value), id);
    }
  }

  /** The parent that the caches know of once they are patched. */
  lemma ParentAfter(slots: Slots, t: Slots, id: Id, patch: Patch)
    requires ListWellFormed(slots) && ListWellFormed(t)
    requires Shown(t) == PatchTable(Shown(slots), id, patch) && t.detail == MergeDetail(slots.detail, id, patch)
    ensures patch.parentId.None? ==> OldParent(t, id) == OldParent(slots, id) || OldParent(t, id) == None
    ensures patch.parentId.Some? ==> OldParent(t, id) == if KnownAfter(slots, id, patch) then patch.parentId.value else None
  {
    ListParentInTable(slots, id);
    ListParentInTable(t, id);
  }

  /** What the second delivery does to the rows, given what the first one left. */
  lemma EchoRows(s: State, id: Id, patch: Patch)
    ensures var t, p := OnIssueUpdated(s, id, patch).slots, OldParent(s.slots, id);
            var moves := patch.parentId.Some? && patch.parentId.value != p;
            && t.order == s.slots.order
            && (t.children == s.slots.children <==>
                  moves || Truthy(p).None? || p.value !in s.slots.children
                  || MergeEach(s.slots.children[p.value], {id}, patch) == s.slots.children[p.value])
  {
    var s1 := PatchDetail(Invalidate(PatchList(s, id, patch), MyAllKey), id, patch);
    assert s1.slots.children == s.slots.children && s1.slots.order == s.slots.order;
    ParentRows(s1, OldParent(s.slots, id), id, patch);
  }

  /** The slots beside the rows are echo-tolerant without condition. */
  lemma ListAndDetailEcho(s: State, s1: State, id: Id, patch: Patch)
    requires ListWellFormed(s.slots) && s1.slots.detail == MergeDetail(s.slots.detail, id, patch)
    requires s1.slots.list == if s.slots.list.Some? then Some(PatchIssue(s.slots.list.value, id, patch)) else None
    ensures ListWellFormed(s1.slots) && Shown(s1.slots) == PatchTable(Shown(s.slots), id, patch)
    ensures var u := OnIssueUpdated(s1, id, patch).slots;
            u.list == s1.slots.list && u.detail == s1.slots.detail && u.byIssue == s1.slots.byIssue
  {
    SlotsAfterEvent(s1, id, patch);
    ShownPatched(s.slots, s1.slots, id, patch);
    if s.slots.list.Some? {
      PatchTwice(s.slots.list.value, id, patch);
    }
    MergeDetailTwice(s.slots.detail, id, patch);
  }

  /** The rows after patching those of the parent `p`. */
  predicate RowsPatched(slots: Slots, t: Slots, p: Option<Id>, id: Id, patch: Patch) {
    t.children == if p.Some? && p.value in slots.children
                  then slots.children[p.value := MergeEach(slots.children[p.value], {id}, patch)]
                  else slots.children
  }

  lemma RowsMergedOnce(slots: Slots, t: Slots, p: Option<Id>, q: Option<Id>, id: Id, patch: Patch)
    requires RowsPatched(slots, t, p, id, patch)
    requires q.Some? && q.value in t.children
    ensures MergeEach(t.children[q.value], {id}, patch) == t.children[q.value] <==>
              p == q || !RowDiffers(slots, q.value, id, patch)
  {
    if p == q {
      MergeEachTwice(slots.children[q.value], {id}, patch);
    } else {
      MergeChangesWhen(slots.children[q.value], {id}, patch);
    }
  }

  /** An event after the caches have been patched once, the rows of `p` among them. */
  lemma EchoAfter(s: State, s1: State, p: Option<Id>, before: Option<Id>, id: Id, patch: Patch)
    requires ListWellFormed(s.slots) && s1.slots.detail == MergeDetail(s.slots.detail, id, patch)
    requires s1.slots.list == if s.slots.list.Some? then Some(PatchIssue(s.slots.list.value, id, patch)) else None
    requires RowsPatched(s.slots, s1.slots, p, id, patch)
    requires patch.parentId.None? && Truthy(OldParent(s.slots, id)).Some? ==> p == OldParent(s.slots, id)
    requires patch.parentId.Some? && Truthy(patch.parentId.value).Some? ==> (p == patch.parentId.value <==> before == patch.parentId.value)
    ensures OnIssueUpdated(s1, id, patch).slots == s1.slots <==> !EchoReachesRow(s.slots, before, id, patch)
  {
    var q := OldParent(s1.slots, id);
    ListAndDetailEcho(s, s1, id, patch);
    ParentAfter(s.slots, s1.slots, id, patch);
    EchoRows(s1, id, patch);
    if Truthy(q).Some? && q.value in s1.slots.children {
      RowsMergedOnce(s.slots, s1.slots, p, q, id, patch);
    }
  }

  lemma EventEchoRows(s: State, id: Id, patch: Patch)
    requires ListWellFormed(s.slots)
    ensures var s1 := OnIssueUpdated(s, id, patch);
            OnIssueUpdated(s1, id, patch).slots == s1.slots <==> !EchoReachesRow(s.slots, OldParent(s.slots, id), id, patch)
  {
    var p := OldParent(s.slots, id);
    var moves := patch.parentId.Some? && patch.parentId.value != p;
    SlotsAfterEvent(s, id, patch);
    ParentRows(PatchDetail(Invalidate(PatchList(s, id, patch), MyAllKey), id, patch), p, id, patch);
    EchoAfter(s, OnIssueUpdated(s, id, patch), if moves then None else Truthy(p), p, id, patch);
  }

  lemma BeginRows(s: State, id: Id, patch: Patch)
    ensures RowsPatched(s.slots, BeginUpdate(s, id, patch).slots, ParentOf(s.slots, id), id, patch)
    ensures BeginUpdate(s, id, patch).slots.order == s.slots.order
    ensures Truthy(OldParent(s.slots, id)).Some? ==> ParentOf(s.slots, id) == OldParent(s.slots, id)
  {
  }

  lemma BeginEchoRows(s: State, id: Id, patch: Patch)
    requires ListWellFormed(s.slots)
    ensures var s1 := BeginUpdate(s, id, patch);
            OnIssueUpdated(s1, id, patch).slots == s1.slots <==> !EchoReachesRow(s.slots, ParentOf(s.slots, id), id, patch)
  {
    SlotsAfterBegin(s, id, patch);
    BeginRows(s, id, patch);
    EchoAfter(s, BeginUpdate(s, id, patch), ParentOf(s.slots, id), ParentOf(s.slots, id), id, patch);
  }

  /**
   When a second delivery of an update event is a no-op on all slots, and when the
   event is one after the optimistic update of the same change: exactly unless it
   moves the issue to a new parent that the caches know of afterwards and among
   whose cached children a row of the issue would change. The list, the detail slot
   and the labels never change.
   */
  lemma UpdateEchoes(s: State, id: Id, patch: Patch)
    requires ListWellFormed(s.slots)
    ensures var s1 := OnIssueUpdated(s, id, patch);
            var u := OnIssueUpdated(s1, id, patch).slots;
            && u.list == s1.slots.list && u.detail == s1.slots.detail && u.byIssue == s1.slots.byIssue
            && (u == s1.slots <==> !EchoReachesRow(s.slots, OldParent(s.slots, id), id, patch))
    ensures var s1 := BeginUpdate(s, id, patch);
            var u := OnIssueUpdated(s1, id, patch).slots;
            && u.list == s1.slots.list && u.detail == s1.slots.detail && u.byIssue == s1.slots.byIssue
            && (u == s1.slots <==> !EchoReachesRow(s.slots, ParentOf(s.slots, id), id, patch))
  {
    EventEchoRows(s, id, patch);
    BeginEchoRows(s, id, patch);
    SlotsAfterBegin(s, id, patch);
    SlotsAfterEvent(s, id, patch);
    ListAndDetailEcho(s, OnIssueUpdated(s, id, patch), id, patch);
    ListAndDetailEcho(s, BeginUpdate(s, id, patch), id, patch);
  }

  /** The excepted case happens: an issue with a known parent moves to one whose children are cached with its row. */
  lemma MoveEchoPatchesARow(title: string)
    requires title != "old"
    ensures var x := Issue("i", Todo, Some("a"), None, "old");
            var s := State(Slots(None, map["i" := x], map["b" := [x]], ["b"], map[]), {});
            var patch := NO_PATCH.(parentId := Some(Some("b")), title := Some(title));
            var s1 := OnIssueUpdated(s, "i", patch);
            && s1.slots.children["b"] == [x]
            && OnIssueUpdated(s1, "i", patch).slots.children["b"] == [Merge(x, patch)] != [x]
  {
    var x := Issue("i", Todo, Some("a"), None, "old");
    var s := State(Slots(None, map["i" := x], map["b" := [x]], ["b"], map[]), {});
    var patch := NO_PATCH.(parentId := Some(Some("b")), title := Some(title));
    var s1 := OnIssueUpdated(s, "i", patch);
    assert OldParent(s.slots, "i") == Some("a") && s1.slots.children == s.slots.children;
    assert s1.slots.detail["i"] == Merge(x, patch) && OldParent(s1.slots, "i") == Some("b");
    assert MergeEach([x], {"i"}, patch) == [Merge(x, patch)] + MergeEach([x][1..], {"i"}, patch);
  }
}
