/**
 The shared query cache as the object that the hooks and the WebSocket handlers
 write to, one method for each of their steps. Each method is proved to be the
 step of `IssueQueries` that the protocol is stated over.
 */
module QueryClients {
  import opened Wrappers
  import opened IssueCache
  import opened IssueCacheLaws
  import opened IssueQueries

  class QueryClient {
    var slots: Slots
    var stale: set<Key>

    ghost function Now(): State
      reads this
    {
      State(slots, stale)
    }

    constructor ()
      ensures Now() == State(Slots(None, map[], map[], [], map[]), {})
    {
      slots := Slots(None, map[], map[], [], map[]);
      stale := {};
    }

    // ------------------------------------------------------ slot primitives

    method WriteList(c: ListCache)
      modifies this
      ensures Now() == SetList(old(Now()), c)
    {
      slots := slots.(list := Some(c));
      stale := stale - {ListKey};
    }

    method WriteDetail(id: Id, issue: Issue)
      modifies this
      ensures Now() == SetDetail(old(Now()), id, issue)
    {
      slots := slots.(detail := slots.detail[id := issue]);
      stale := stale - {DetailKey(id)};
    }

    method WriteChildren(p: Id, issues: seq<Issue>)
      modifies this
      ensures Now() == SetChildren(old(Now()), p, issues)
    {
      var order := if p in slots.children then slots.order else slots.order + [p];
      slots := slots.(children := slots.children[p := issues], order := order);
      stale := stale - {ChildrenKey(p)};
    }

    method WriteByIssue(id: Id, labels: seq<Label>)
      modifies this
      ensures Now() == SetByIssue(old(Now()), id, labels)
    {
      slots := slots.(byIssue := slots.byIssue[id := labels]);
      stale := stale - {ByIssueKey(id)};
    }

    method InvalidateQuery(k: Key)
      modifies this`stale
      ensures Now() == Invalidate(old(Now()), k)
    {
      if Present(slots, k) {
        stale := stale + {k};
      }
    }

    method InvalidateQueries(keys: set<Key>)
      modifies this`stale
      ensures Now() == InvalidateAll(old(Now()), keys)
    {
      var todo := keys;
      while todo != {}
        invariant todo <= keys
        invariant Now() == InvalidateAll(old(Now()), keys - todo)
        decreases todo
      {
        var k :| k in todo;
        InvalidateQuery(k);
        todo := todo - {k};
        assert keys - todo == (keys - (todo + {k})) + {k};
      }
      assert keys - todo == keys;
    }

    method DropDetail(id: Id)
      modifies this
      ensures Now() == RemoveDetail(old(Now()), id)
    {
      slots := slots.(detail := slots.detail - {id});
      stale := stale - {DetailKey(id)};
    }

    method DropChildren(p: Id)
      modifies this
      ensures Now() == RemoveChildren(old(Now()), p)
    {
      slots := slots.(children := slots.children - {p}, order := Drop(slots.order, p));
      stale := stale - {ChildrenKey(p)};
    }

    // --------------------------------------------------- the update mutation

    method UpdateListSlot(id: Id, patch: Patch)
      modifies this
      ensures Now() == PatchList(old(Now()), id, patch)
    {
      if slots.list.Some? {
        WriteList(PatchIssue(slots.list.value, id, patch));
      }
    }

    method UpdateDetailSlot(id: Id, patch: Patch)
      modifies this
      ensures Now() == PatchDetail(old(Now()), id, patch)
    {
      if id in slots.detail {
        WriteDetail(id, Merge(slots.detail[id], patch));
      }
    }

    method UpdateChildrenSlot(p: Id, ids: set<Id>, patch: Patch)
      modifies this
      ensures Now() == PatchChildren(old(Now()), p, ids, patch)
    {
      if p in slots.children {
        WriteChildren(p, MergeEach(slots.children[p], ids, patch));
      }
    }

    method FindParent(id: Id) returns (parentId: Option<Id>)
      ensures parentId == ParentOf(slots, id)
    {
      parentId := KnownParent(slots, id);
      if parentId.None? {
        var i := 0;
        while i < |slots.order| && parentId.None?
          invariant 0 <= i <= |slots.order|
          invariant OrElse(parentId, ScanParents(slots, slots.order[i..], id)) == ScanParents(slots, slots.order, id)
        {
          var candidate := slots.order[i];
          if candidate in slots.children && HasId(slots.children[candidate], id) {
            parentId := Some(candidate);
          }
          i := i + 1;
        }
        parentId := Truthy(parentId);
      }
    }

    method MutateUpdate(id: Id, patch: Patch) returns (ctx: UpdateContext)
      modifies this
      ensures ctx == UpdateContextOf(old(slots), id)
      ensures Now() == BeginUpdate(old(Now()), id, patch)
    {
      var prevList := slots.list;
      var prevDetail := if id in slots.detail then Some(slots.detail[id]) else None;
      var parentId := FindParent(id);
      var prevChildren :=
        if parentId.Some? && parentId.value in slots.children then Some(slots.children[parentId.value]) else None;
      UpdateListSlot(id, patch);
      UpdateDetailSlot(id, patch);
      if parentId.Some? {
        UpdateChildrenSlot(parentId.value, {id}, patch);
      }
      ctx := UpdateContext(prevList, prevDetail, prevChildren, parentId, id);
    }

    method OnUpdateError(ctx: UpdateContext)
      modifies this
      ensures Now() == FailUpdate(old(Now()), ctx)
    {
      if ctx.prevList.Some? {
        WriteList(ctx.prevList.value);
      }
      if ctx.prevDetail.Some? {
        WriteDetail(ctx.id, ctx.prevDetail.value);
      }
      if ctx.parentId.Some? && ctx.prevChildren.Some? {
        WriteChildren(ctx.parentId.value, ctx.prevChildren.value);
      }
    }

    method InvalidateParent(parentId: Option<Id>)
      modifies this
      ensures Now() == SettleParent(old(Now()), parentId)
    {
      if parentId.Some? {
        InvalidateQuery(ChildrenKey(parentId.value));
        InvalidateQuery(ChildProgressKey);
      }
    }

    method OnUpdateSettled(ctx: UpdateContext, patch: Patch)
      modifies this
      ensures Now() == SettleUpdate(old(Now()), ctx, patch)
    {
      InvalidateQuery(DetailKey(ctx.id));
      InvalidateQuery(ListKey);
      InvalidateParent(ctx.parentId);
      if NewParent(patch) != ctx.parentId {
        InvalidateParent(NewParent(patch));
      }
    }

    // ------------------------------------------------------- batch mutations

    static method PatchEach(c: ListCache, ids: seq<Id>, patch: Patch) returns (next: ListCache)
      ensures next == PatchAll(c, ids, patch)
    {
      next := c;
      for i := 0 to |ids|
        invariant next == PatchAll(c, ids[..i], patch)
      {
        assert ids[..i + 1][..i] == ids[..i];
        next := PatchIssue(next, ids[i], patch);
      }
      assert ids[..|ids|] == ids;
    }

    static method RemoveEach(c: ListCache, ids: seq<Id>) returns (next: ListCache)
      ensures next == RemoveAll(c, ids)
    {
      next := c;
      for i := 0 to |ids|
        invariant next == RemoveAll(c, ids[..i])
      {
        assert ids[..i + 1][..i] == ids[..i];
        next := RemoveIssue(next, ids[i]);
      }
      assert ids[..|ids|] == ids;
    }

    static lemma AffectedFrom(slots: Slots, order: seq<Id>, i: nat, ids: set<Id>, affected: seq<Id>)
      requires i < |order|
      ensures affected + Affected(slots, order[i..], ids) ==
              (if order[i] in slots.children && Mentions(slots.children[order[i]], ids) then affected + [order[i]] else affected)
              + Affected(slots, order[i + 1..], ids)
    {
      assert order[i..][1..] == order[i + 1..];
      var rest := Affected(slots, order[i + 1..], ids);
      assert affected + ([order[i]] + rest) == affected + [order[i]] + rest;
    }

    /** The children slots that hold one of the ids, as the loop over the cache finds them. */
    method FindAffected(ids: set<Id>) returns (affected: seq<Id>)
      ensures affected == Affected(slots, slots.order, ids)
    {
      affected := [];
      for i := 0 to |slots.order|
        invariant affected + Affected(slots, slots.order[i..], ids) == Affected(slots, slots.order, ids)
      {
        AffectedFrom(slots, slots.order, i, ids, affected);
        var p := slots.order[i];
        if p in slots.children && Mentions(slots.children[p], ids) {
          affected := affected + [p];
        }
      }
    }

    method WriteEachChildren(ps: seq<Id>, news: map<Id, seq<Issue>>)
      requires forall p :: p in ps ==> p in news
      modifies this
      ensures Now() == WriteEach(old(Now()), ps, news)
    {
      for i := 0 to |ps|
        invariant Now() == WriteEach(old(Now()), ps[..i], news)
      {
        assert ps[..i + 1][..i] == ps[..i];
        WriteChildren(ps[i], news[ps[i]]);
      }
      assert ps[..|ps|] == ps;
    }

    method MutateBatchUpdate(ids: seq<Id>, patch: Patch) returns (ctx: BatchContext)
      modifies this
      ensures ctx == BatchUpdateContextOf(old(slots), ids)
      ensures Now() == BeginBatchUpdate(old(Now()), ids, patch)
    {
      var prevList := slots.list;
      var idSet := IdSet(ids);
      var affected := FindAffected(idSet);
      var prevChildren := map p | p in affected :: slots.children[p];
      var news := MergedRows(slots, affected, idSet, patch);
      if slots.list.Some? {
        var next := PatchEach(slots.list.value, ids, patch);
        WriteList(next);
      }
      WriteEachChildren(affected, news);
      ctx := BatchContext(prevList, affected, prevChildren, IdSet(affected));
    }

    method MutateBatchDelete(ids: seq<Id>) returns (ctx: BatchContext)
      modifies this
      ensures ctx == BatchDeleteContextOf(old(slots), ids)
      ensures Now() == BeginBatchDelete(old(Now()), ids)
    {
      var prevList := slots.list;
      var parents := ListParents(slots, ids);
      var idSet := IdSet(ids);
      var affected := FindAffected(idSet);
      var prevChildren := map p | p in affected :: slots.children[p];
      var news := RemainingRows(slots, affected, idSet);
      WriteEachChildren(affected, news);
      if prevList.Some? {
        var next := RemoveEach(prevList.value, ids);
        KeepsList(old(Now()), affected, news);
        WriteList(next);
      }
      ctx := BatchContext(prevList, affected, prevChildren, parents + IdSet(affected));
    }

    static lemma {:induction false} KeepsList(s: State, ps: seq<Id>, news: map<Id, seq<Issue>>)
      requires forall p :: p in ps ==> p in news
      ensures WriteEach(s, ps, news).slots.list == s.slots.list
    {
      if ps != [] {
        KeepsList(s, ps[..|ps| - 1], news);
      }
    }

    method OnBatchError(ctx: BatchContext)
      requires ValidContext(ctx)
      modifies this
      ensures Now() == FailBatch(old(Now()), ctx)
    {
      if ctx.prevList.Some? {
        WriteList(ctx.prevList.value);
      }
      WriteEachChildren(ctx.written, ctx.prevChildren);
    }

    method OnBatchSettled(ctx: BatchContext)
      modifies this
      ensures Now() == SettleBatch(old(Now()), ctx)
    {
      InvalidateQuery(ListKey);
      if ctx.parents != {} {
        var todo := ctx.parents;
        ghost var start := Now();
        while todo != {}
          invariant todo <= ctx.parents && slots == start.slots
          invariant stale == InvalidateChildren(start, ctx.parents - todo).stale
          decreases todo
        {
          var p :| p in todo;
          InvalidateQuery(ChildrenKey(p));
          todo := todo - {p};
          assert ctx.parents - todo == (ctx.parents - (todo + {p})) + {p};
        }
        assert ctx.parents - todo == ctx.parents;
        InvalidateQuery(ChildProgressKey);
      }
    }

    method MutateDelete(id: Id) returns (ctx: DeleteContext)
      modifies this
      ensures ctx == DeleteContextOf(old(slots), id)
      ensures Now() == BeginDelete(old(Now()), id)
    {
      ctx := DeleteContext(slots.list, Truthy(ListParent(slots, id)));
      if slots.list.Some? {
        WriteList(RemoveIssue(slots.list.value, id));
      }
      DropDetail(id);
    }

    method OnDeleteError(ctx: DeleteContext)
      modifies this
      ensures Now() == FailDelete(old(Now()), ctx)
    {
      if ctx.prevList.Some? {
        WriteList(ctx.prevList.value);
      }
    }

    method OnDeleteSettled(ctx: DeleteContext)
      modifies this
      ensures Now() == SettleDelete(old(Now()), ctx)
    {
      InvalidateQuery(ListKey);
      InvalidateParent(ctx.parentId);
    }

    // ------------------------------------------------ create, WebSocket events

    method AddToListSlot(issue: Issue)
      modifies this
      ensures Now() == AddToList(old(Now()), issue)
    {
      if slots.list.Some? {
        WriteList(AddIssue(slots.list.value, issue));
      }
    }

    method OnCreateSuccess(issue: Issue)
      modifies this
      ensures Now() == CreateSucceeded(old(Now()), issue)
    {
      AddToListSlot(issue);
      InvalidateParent(Truthy(issue.parentId));
    }

    method IssueCreated(issue: Issue)
      modifies this
      ensures Now() == OnIssueCreated(old(Now()), issue)
    {
      AddToListSlot(issue);
      InvalidateQuery(MyAllKey);
      InvalidateParent(Truthy(issue.parentId));
    }

    method IssueUpdated(id: Id, patch: Patch)
      modifies this
      ensures Now() == OnIssueUpdated(old(Now()), id, patch)
    {
      var oldParent := OldParent(slots, id);
      var newParent := if patch.parentId.Some? then patch.parentId.value else None;
      var parentChanged := patch.parentId.Some? && newParent != oldParent;
      UpdateListSlot(id, patch);
      InvalidateQuery(MyAllKey);
      UpdateDetailSlot(id, patch);
      if Truthy(oldParent).Some? {
        if parentChanged {
          InvalidateQuery(ChildrenKey(oldParent.value));
        } else {
          UpdateChildrenSlot(oldParent.value, {id}, patch);
        }
      }
      if Truthy(newParent).Some? && parentChanged {
        InvalidateQuery(ChildrenKey(newParent.value));
      }
      if Truthy(oldParent).Some? || Truthy(newParent).Some? {
        if patch.status.Some? || patch.parentId.Some? {
          InvalidateQuery(ChildProgressKey);
        }
      }
    }

    method IssueLabelsChanged(id: Id, labels: seq<Label>)
      modifies this
      ensures Now() == OnIssueLabelsChanged(old(Now()), id, labels)
    {
      var patch := NO_PATCH.(labels := Some(labels));
      if slots.list.Some? {
        WriteList(PatchIssue(slots.list.value, id, patch));
      }
      if id in slots.detail {
        WriteDetail(id, Merge(slots.detail[id], patch));
      }
      if id in slots.byIssue {
        WriteByIssue(id, labels);
      }
      InvalidateQuery(MyAllKey);
    }

    method IssueDeleted(id: Id)
      modifies this
      ensures Now() == OnIssueDeleted(old(Now()), id)
    {
      var parentId := Truthy(ListParent(slots, id));
      if slots.list.Some? {
        WriteList(RemoveIssue(slots.list.value, id));
      }
      InvalidateQuery(MyAllKey);
      DropDetail(id);
      DropChildren(id);
      InvalidateParent(parentId);
    }
  }
}
