/**
 The optimistic protocol of the issue and label mutations over whole runs:
 rollbacks are exact, and a slot that a rollback overwrote is marked when its
 mutation settles, however other writers interleave, and stays marked exactly until
 the next write to it (packages/core/issues/mutations.ts:125-366,
 packages/core/labels/mutations.ts:99-171).
 */
module OptimisticProtocol {
  import opened Wrappers
  import opened IssueCache
  import opened IssueCacheLaws
  import opened IssueQueries
  import EchoTolerance
  import LabelSync

  // ------------------------------------------------------------ exact rollback

  lemma PutBackIsNoChange<T>(m: map<Id, T>, id: Id, x: T)
    requires id in m
    ensures m[id := x][id := m[id]] == m
  {
  }

  /** Mutate, then fail with no write in between: every slot is as it was. */
  lemma UpdateRollbackIsExact(s: State, id: Id, patch: Patch)
    ensures FailUpdate(BeginUpdate(s, id, patch), UpdateContextOf(s.slots, id)).slots == s.slots
  {
    var p := ParentOf(s.slots, id);
    EchoTolerance.SlotsAfterBegin(s, id, patch);
    EchoTolerance.BeginRows(s, id, patch);
    if id in s.slots.detail {
      PutBackIsNoChange(s.slots.detail, id, Merge(s.slots.detail[id], patch));
    }
    if p.Some? && p.value in s.slots.children {
      PutBackIsNoChange(s.slots.children, p.value, MergeEach(s.slots.children[p.value], {id}, patch));
    }
  }

  lemma BatchUpdateRollbackIsExact(s: State, ids: seq<Id>, patch: Patch)
    ensures ValidContext(BatchUpdateContextOf(s.slots, ids))
    ensures FailBatch(BeginBatchUpdate(s, ids, patch), BatchUpdateContextOf(s.slots, ids)).slots == s.slots
  {
    var ctx := BatchUpdateContextOf(s.slots, ids);
    var s1 := if s.slots.list.None? then s else SetList(s, PatchAll(s.slots.list.value, ids, patch));
    var news := MergedRows(s.slots, ctx.written, IdSet(ids), patch);
    BatchRestores(s, s1, ctx, news);
  }

  /** Overwriting entries and then putting the old ones back is no change. */
  lemma MapBack(children: map<Id, seq<Issue>>, ps: seq<Id>, news: map<Id, seq<Issue>>, olds: map<Id, seq<Issue>>)
    requires forall p :: p in ps ==> p in children && p in news && p in olds && olds[p] == children[p]
    ensures children + (map p | p in ps :: news[p]) + (map p | p in ps :: olds[p]) == children
  {
  }

  lemma BatchRestores(s: State, s1: State, ctx: BatchContext, news: map<Id, seq<Issue>>)
    requires s1.slots == s.slots.(list := s1.slots.list) && ctx.prevList == s.slots.list && ValidContext(ctx)
    requires s.slots.list.None? ==> s1.slots.list.None?
    requires forall p :: p in ctx.written ==> p in s.slots.children && p in news && ctx.prevChildren[p] == s.slots.children[p]
    ensures FailBatch(WriteEach(s1, ctx.written, news), ctx).slots == s.slots
  {
    var s2 := WriteEach(s1, ctx.written, news);
    WriteEachIs(s1, ctx.written, news);
    var s3 := if ctx.prevList.Some? then SetList(s2, ctx.prevList.value) else s2;
    WriteEachIs(s3, ctx.written, ctx.prevChildren);
    MapBack(s.slots.children, ctx.written, news, ctx.prevChildren);
  }

  lemma BatchDeleteRollbackIsExact(s: State, ids: seq<Id>)
    ensures ValidContext(BatchDeleteContextOf(s.slots, ids))
    ensures FailBatch(BeginBatchDelete(s, ids), BatchDeleteContextOf(s.slots, ids)).slots == s.slots
  {
    var ctx := BatchDeleteContextOf(s.slots, ids);
    var news := RemainingRows(s.slots, ctx.written, IdSet(ids));
    var s1 := WriteEach(s, ctx.written, news);
    WriteEachIs(s, ctx.written, news);
    var s2 := if s.slots.list.None? then s1 else SetList(s1, RemoveAll(s.slots.list.value, ids));
    assert s2 == BeginBatchDelete(s, ids);
    RestoredChildren(s, s1, s2, ctx, news);
  }

  lemma RestoredChildren(s: State, s1: State, s2: State, ctx: BatchContext, news: map<Id, seq<Issue>>)
    requires ctx.prevList == s.slots.list && ValidContext(ctx)
    requires forall p :: p in ctx.written ==> p in s.slots.children && p in news && ctx.prevChildren[p] == s.slots.children[p]
    requires s1 == WriteEach(s, ctx.written, news)
    requires s2 == s1 || (s.slots.list.Some? && s2.slots == s1.slots.(list := s2.slots.list))
    ensures FailBatch(s2, ctx).slots == s.slots
  {
    WriteEachIs(s, ctx.written, news);
    var s3 := if ctx.prevList.Some? then SetList(s2, ctx.prevList.value) else s2;
    WriteEachIs(s3, ctx.written, ctx.prevChildren);
    MapBack(s.slots.children, ctx.written, news, ctx.prevChildren);
  }

  /** The single delete drops the detail slot for good: its rollback is exact just when there was none. */
  lemma DeleteRollbackIsExactWhen(s: State, id: Id)
    ensures FailDelete(BeginDelete(s, id), DeleteContextOf(s.slots, id)).slots == s.slots <==> id !in s.slots.detail
  {
    var t := FailDelete(BeginDelete(s, id), DeleteContextOf(s.slots, id)).slots;
    if id !in s.slots.detail {
      assert t.detail == s.slots.detail;
    } else {
      assert id !in t.detail;
    }
  }

  // ---------------------------------------------------------------- runs

  datatype Mutation =
    | Update(id: Id, patch: Patch)
    | BatchUpdate(ids: seq<Id>, patch: Patch)
    | BatchDelete(ids: seq<Id>)
    | Delete(id: Id)
    | Attach(issueId: Id, labelId: Id, known: Option<seq<Label>>)
    | Detach(issueId: Id, labelId: Id)

  type WrittenBatch = c: BatchContext | ValidContext(c) witness BatchContext(None, [], map[], {})

  datatype Context =
    | OfUpdate(update: UpdateContext, patch: Patch)
    | OfBatch(batch: WrittenBatch)
    | OfDelete(delete: DeleteContext)
    | OfLabels(issueId: Id, prev: Option<seq<Label>>)

  /** A mutation under way: what it captured, and whether its rollback has run. */
  datatype Pending = Pending(ctx: Context, failed: bool)

  datatype Run = Run(state: State, pending: map<nat, Pending>)

  function ContextOf(s: State, m: Mutation): Context {
    match m
    case Update(id, patch) => OfUpdate(UpdateContextOf(s.slots, id), patch)
    case BatchUpdate(ids, _) => OfBatch(BatchUpdateContextOf(s.slots, ids))
    case BatchDelete(ids) => OfBatch(BatchDeleteContextOf(s.slots, ids))
    case Delete(id) => OfDelete(DeleteContextOf(s.slots, id))
    case Attach(issueId, _, _) => OfLabels(issueId, LabelSync.Cached(s, issueId))
    case Detach(issueId, _) => OfLabels(issueId, LabelSync.Cached(s, issueId))
  }

  function Begin(s: State, m: Mutation): State {
    match m
    case Update(id, patch) => BeginUpdate(s, id, patch)
    case BatchUpdate(ids, patch) => BeginBatchUpdate(s, ids, patch)
    case BatchDelete(ids) => BeginBatchDelete(s, ids)
    case Delete(id) => BeginDelete(s, id)
    case Attach(issueId, labelId, known) => LabelSync.BeginAttach(s, issueId, labelId, known)
    case Detach(issueId, labelId) => LabelSync.BeginDetach(s, issueId, labelId)
  }

  function Fail(s: State, ctx: Context): State {
    match ctx
    case OfUpdate(c, _) => FailUpdate(s, c)
    case OfBatch(c) => FailBatch(s, c)
    case OfDelete(c) => FailDelete(s, c)
    case OfLabels(issueId, prev) => LabelSync.WriteIfSome(s, issueId, prev)
  }

  function Settle(s: State, ctx: Context): State {
    match ctx
    case OfUpdate(c, patch) => SettleUpdate(s, c, patch)
    case OfBatch(c) => SettleBatch(s, c)
    case OfDelete(c) => SettleDelete(s, c)
    case OfLabels(issueId, _) => Invalidate(s, ByIssueKey(issueId))
  }

  /**
   What other writers do. A fetch brings any value from the server; any other
   code may mark any slots.
   */
  datatype Write =
    | CreateSuccess(issue: Issue)
    | Created(issue: Issue)
    | Updated(id: Id, patch: Patch)
    | LabelsChanged(id: Id, labels: seq<Label>)
    | LabelsReply(id: Id, labels: seq<Label>)
    | Deleted(id: Id)
    | FetchedList(list: ListCache)
    | FetchedDetail(id: Id, issue: Issue)
    | FetchedChildren(parent: Id, issues: seq<Issue>)
    | FetchedLabels(id: Id, labels: seq<Label>)
    | Invalidated(keys: set<Key>)

  function Apply(s: State, w: Write): State {
    match w
    case CreateSuccess(issue) => CreateSucceeded(s, issue)
    case Created(issue) => OnIssueCreated(s, issue)
    case Updated(id, patch) => OnIssueUpdated(s, id, patch)
    case LabelsChanged(id, labels) => OnIssueLabelsChanged(s, id, labels)
    case LabelsReply(id, labels) => LabelSync.WriteLabels(s, id, labels)
    case Deleted(id) => OnIssueDeleted(s, id)
    case FetchedList(list) => SetList(s, list)
    case FetchedDetail(id, issue) => SetDetail(s, id, issue)
    case FetchedChildren(p, issues) => SetChildren(s, p, issues)
    case FetchedLabels(id, labels) => SetByIssue(s, id, labels)
    case Invalidated(keys) => InvalidateAll(s, keys)
  }

  datatype Event = Start(m: nat, mutation: Mutation) | Error(m: nat) | Settled(m: nat) | Foreign(write: Write)

  /** An event can happen: mutations start once, fail at most once, and settle after that. */
  predicate Enabled(r: Run, e: Event) {
    match e
    case Start(m, _) => m !in r.pending
    case Error(m) => m in r.pending && !r.pending[m].failed
    case Settled(m) => m in r.pending
    case Foreign(_) => true
  }

  function Next(r: Run, e: Event): Run
    requires Enabled(r, e)
  {
    match e
    case Start(m, mutation) =>
      Run(Begin(r.state, mutation), r.pending[m := Pending(ContextOf(r.state, mutation), false)])
    case Error(m) => Run(Fail(r.state, r.pending[m].ctx), r.pending[m := r.pending[m].(failed := true)])
    case Settled(m) => Run(Settle(r.state, r.pending[m].ctx), r.pending - {m})
    case Foreign(w) => r.(state := Apply(r.state, w))
  }

  /** `runs` are the states that `events` go through, from any cache with nothing under way. */
  predicate IsRun(runs: seq<Run>, events: seq<Event>) {
    && |runs| == |events| + 1 && runs[0].pending == map[]
    && forall i :: 0 <= i < |events| ==> Enabled(runs[i], events[i]) && runs[i + 1] == Next(runs[i], events[i])
  }

  // ------------------------------- which slots an event sets, removes, marks

  datatype Content = ListContent(list: ListCache) | DetailContent(issue: Issue) | RowsContent(issues: seq<Issue>)
                   | LabelsContent(labels: seq<Label>)

  /** A slot that holds data, as against the progress and the filtered lists. */
  predicate IsData(k: Key) {
    !k.ChildProgressKey? && !k.MyAllKey?
  }

  function ContentAt(slots: Slots, k: Key): Option<Content> {
    if !Present(slots, k) then None
    else
      match k
      case ListKey => Some(ListContent(slots.list.value))
      case DetailKey(id) => Some(DetailContent(slots.detail[id]))
      case ChildrenKey(p) => Some(RowsContent(slots.children[p]))
      case ByIssueKey(id) => Some(LabelsContent(slots.byIssue[id]))
      case _ => None
  }

  /** The slots that a label write sets: the label slot, and the other copies that are there. */
  predicate LabelCopy(slots: Slots, id: Id, k: Key) {
    k == ByIssueKey(id) || (Present(slots, k) && (k == ListKey || k == DetailKey(id)))
  }

  predicate IsParent(p: Option<Id>, k: Key) {
    p.Some? && k == ChildrenKey(p.value)
  }

  predicate HoldsRow(slots: Slots, k: Key, ids: set<Id>) {
    k.ChildrenKey? && k.parent in slots.order && k.parent in slots.children && Mentions(slots.children[k.parent], ids)
  }

  predicate BeginSets(s: State, m: Mutation, k: Key) {
    match m
    case Update(id, _) =>
      Present(s.slots, k) && (k == ListKey || k == DetailKey(id) || IsParent(ParentOf(s.slots, id), k))
    case BatchUpdate(ids, _) => Present(s.slots, k) && (k == ListKey || HoldsRow(s.slots, k, IdSet(ids)))
    case BatchDelete(ids) => Present(s.slots, k) && (k == ListKey || HoldsRow(s.slots, k, IdSet(ids)))
    case Delete(_) => Present(s.slots, k) && k == ListKey
    case Attach(issueId, labelId, known) =>
      LabelSync.AttachTarget(LabelSync.Cached(s, issueId), labelId, known).Some? && LabelCopy(s.slots, issueId, k)
    case Detach(issueId, _) => issueId in s.slots.byIssue && LabelCopy(s.slots, issueId, k)
  }

  /** The slots that the rollback of a mutation overwrites. */
  predicate FailSets(slots: Slots, ctx: Context, k: Key) {
    match ctx
    case OfUpdate(c, _) =>
      || (k == ListKey && c.prevList.Some?)
      || (k == DetailKey(c.id) && c.prevDetail.Some?)
      || (IsParent(c.parentId, k) && c.prevChildren.Some?)
    case OfBatch(c) => (k == ListKey && c.prevList.Some?) || (k.ChildrenKey? && k.parent in c.written)
    case OfDelete(c) => k == ListKey && c.prevList.Some?
    case OfLabels(issueId, prev) => prev.Some? && LabelCopy(slots, issueId, k)
  }

  predicate SettleMarks(ctx: Context, k: Key) {
    match ctx
    case OfUpdate(c, patch) =>
      k == ListKey || k == DetailKey(c.id) || IsParent(c.parentId, k) || IsParent(NewParent(patch), k)
    case OfBatch(c) => k == ListKey || (k.ChildrenKey? && k.parent in c.parents)
    case OfDelete(c) => k == ListKey || IsParent(c.parentId, k)
    case OfLabels(issueId, _) => k == ByIssueKey(issueId)
  }

  /** An update event moves the issue when it names another parent. */
  predicate Moves(slots: Slots, id: Id, patch: Patch) {
    patch.parentId.Some? && patch.parentId.value != OldParent(slots, id)
  }

  predicate WriteSets(slots: Slots, w: Write, k: Key) {
    match w
    case CreateSuccess(_) => Present(slots, k) && k == ListKey
    case Created(_) => Present(slots, k) && k == ListKey
    case Updated(id, patch) =>
      && Present(slots, k)
      && (k == ListKey || k == DetailKey(id) || (IsParent(Truthy(OldParent(slots, id)), k) && !Moves(slots, id, patch)))
    case LabelsChanged(id, _) => Present(slots, k) && (k == ListKey || k == DetailKey(id) || k == ByIssueKey(id))
    case LabelsReply(id, _) => LabelCopy(slots, id, k)
    case Deleted(_) => Present(slots, k) && k == ListKey
    case FetchedList(_) => k == ListKey
    case FetchedDetail(id, _) => k == DetailKey(id)
    case FetchedChildren(p, _) => k == ChildrenKey(p)
    case FetchedLabels(id, _) => k == ByIssueKey(id)
    case Invalidated(_) => false
  }

  predicate WriteMarks(slots: Slots, w: Write, k: Key) {
    match w
    case CreateSuccess(issue) => IsParent(Truthy(issue.parentId), k)
    case Created(issue) => IsParent(Truthy(issue.parentId), k)
    case Updated(id, patch) =>
      Moves(slots, id, patch) && (IsParent(Truthy(OldParent(slots, id)), k) || IsParent(Truthy(patch.parentId.value), k))
    case Deleted(id) => IsParent(Truthy(ListParent(slots, id)), k)
    case Invalidated(keys) => k in keys
    case _ => false
  }

  /** The event sets the slot's data. */
  predicate Sets(r: Run, e: Event, k: Key) {
    match e
    case Start(_, mutation) => BeginSets(r.state, mutation, k)
    case Error(m) => m in r.pending && FailSets(r.state.slots, r.pending[m].ctx, k)
    case Settled(_) => false
    case Foreign(w) => WriteSets(r.state.slots, w, k)
  }

  /** The event removes the slot. */
  predicate Removes(e: Event, k: Key) {
    match e
    case Start(_, mutation) => mutation.Delete? && k == DetailKey(mutation.id)
    case Foreign(w) => w.Deleted? && (k == DetailKey(w.id) || k == ChildrenKey(w.id))
    case _ => false
  }

  /** The event marks the slot, if it is there. */
  predicate Marks(r: Run, e: Event, k: Key) {
    match e
    case Settled(m) => m in r.pending && SettleMarks(r.pending[m].ctx, k)
    case Foreign(w) => WriteMarks(r.state.slots, w, k)
    case _ => false
  }

  /** What a step does to one slot and its mark. */
  predicate Effect(s: State, s': State, k: Key, sets: bool, removes: bool, marks: bool) {
    && (k in s'.stale <==> (marks && Present(s'.slots, k)) || (k in s.stale && !sets && !removes))
    && (sets ==> Present(s'.slots, k))
    && (removes ==> !Present(s'.slots, k))
    && (!sets && !removes ==> ContentAt(s'.slots, k) == ContentAt(s.slots, k))
  }

  lemma BeginUpdateEffect(s: State, id: Id, patch: Patch, k: Key)
    requires IsData(k)
    ensures Effect(s, BeginUpdate(s, id, patch), k, BeginSets(s, Update(id, patch), k), false, false)
  {
  }

  lemma InSet(ids: seq<Id>, p: Id)
    ensures ChildrenKey(p) in ChildrenKeys(IdSet(ids)) <==> p in ids
  {
  }

  lemma WriteEachEffect(s: State, ps: seq<Id>, news: map<Id, seq<Issue>>, k: Key)
    requires (forall p :: p in ps ==> p in news) && IsData(k)
    ensures Effect(s, WriteEach(s, ps, news), k, k.ChildrenKey? && k.parent in ps, false, false)
    ensures Present(WriteEach(s, ps, news).slots, ListKey) == Present(s.slots, ListKey)
  {
    WriteEachIs(s, ps, news);
    if k.ChildrenKey? {
      InSet(ps, k.parent);
    }
  }

  lemma HoldsRowWhen(slots: Slots, ids: set<Id>, k: Key)
    ensures HoldsRow(slots, k, ids) <==> k.ChildrenKey? && k.parent in Affected(slots, slots.order, ids)
  {
    AffectedMembers(slots, slots.order, ids);
  }

  lemma BeginBatchUpdateEffect(s: State, ids: seq<Id>, patch: Patch, k: Key)
    requires IsData(k)
    ensures Effect(s, BeginBatchUpdate(s, ids, patch), k, BeginSets(s, BatchUpdate(ids, patch), k), false, false)
  {
    var affected := Affected(s.slots, s.slots.order, IdSet(ids));
    HoldsRowWhen(s.slots, IdSet(ids), k);
    var s1 := if s.slots.list.None? then s else SetList(s, PatchAll(s.slots.list.value, ids, patch));
    WriteEachEffect(s1, affected, MergedRows(s.slots, affected, IdSet(ids), patch), k);
  }

  lemma BeginBatchDeleteEffect(s: State, ids: seq<Id>, k: Key)
    requires IsData(k)
    ensures Effect(s, BeginBatchDelete(s, ids), k, BeginSets(s, BatchDelete(ids), k), false, false)
  {
    var affected := Affected(s.slots, s.slots.order, IdSet(ids));
    HoldsRowWhen(s.slots, IdSet(ids), k);
    WriteEachEffect(s, affected, RemainingRows(s.slots, affected, IdSet(ids)), k);
  }

  lemma LabelsChangedEffect(s: State, id: Id, labels: seq<Label>, k: Key)
    requires IsData(k)
    ensures Effect(s, OnIssueLabelsChanged(s, id, labels), k, WriteSets(s.slots, LabelsChanged(id, labels), k), false, false)
  {
    LabelSync.SlotsAfterLabels(s, id, labels);
  }

  lemma LabelsEffect(s: State, id: Id, labels: seq<Label>, k: Key)
    requires IsData(k)
    ensures Effect(s, LabelSync.WriteLabels(s, id, labels), k, LabelCopy(s.slots, id, k), false, false)
  {
    LabelsChangedEffect(SetByIssue(s, id, labels), id, labels, k);
  }

  lemma BeginEffect(s: State, m: Mutation, k: Key)
    requires IsData(k)
    ensures Effect(s, Begin(s, m), k, BeginSets(s, m, k), m.Delete? && k == DetailKey(m.id), false)
  {
    match m
    case Update(id, patch) => BeginUpdateEffect(s, id, patch, k);
    case BatchUpdate(ids, patch) => BeginBatchUpdateEffect(s, ids, patch, k);
    case BatchDelete(ids) => BeginBatchDeleteEffect(s, ids, k);
    case Delete(id) =>
    case Attach(issueId, labelId, known) =>
      var target := LabelSync.AttachTarget(LabelSync.Cached(s, issueId), labelId, known);
      if target.Some? {
        LabelsEffect(s, issueId, target.value, k);
      }
    case Detach(issueId, labelId) =>
      if issueId in s.slots.byIssue {
        LabelsEffect(s, issueId, LabelSync.DropLabel(s.slots.byIssue[issueId], labelId), k);
      }
  }

  lemma FailBatchEffect(s: State, c: WrittenBatch, k: Key)
    requires IsData(k)
    ensures Effect(s, FailBatch(s, c), k, FailSets(s.slots, OfBatch(c), k), false, false)
  {
    var s1 := if c.prevList.Some? then SetList(s, c.prevList.value) else s;
    WriteEachEffect(s1, c.written, c.prevChildren, k);
  }

  lemma FailUpdateEffect(s: State, c: UpdateContext, patch: Patch, k: Key)
    requires IsData(k)
    ensures Effect(s, FailUpdate(s, c), k, FailSets(s.slots, OfUpdate(c, patch), k), false, false)
  {
  }

  lemma FailEffect(s: State, ctx: Context, k: Key)
    requires IsData(k)
    ensures Effect(s, Fail(s, ctx), k, FailSets(s.slots, ctx, k), false, false)
  {
    match ctx
    case OfUpdate(c, patch) => FailUpdateEffect(s, c, patch, k);
    case OfBatch(c) => FailBatchEffect(s, c, k);
    case OfDelete(c) =>
    case OfLabels(issueId, prev) =>
      if prev.Some? {
        LabelsEffect(s, issueId, prev.value, k);
      }
  }

  lemma SettleParentEffect(s: State, p: Option<Id>, k: Key)
    requires IsData(k)
    ensures Effect(s, SettleParent(s, p), k, false, false, IsParent(p, k)) && SettleParent(s, p).slots == s.slots
  {
  }

  lemma SettleEffect(s: State, ctx: Context, k: Key)
    requires IsData(k)
    ensures Effect(s, Settle(s, ctx), k, false, false, SettleMarks(ctx, k))
  {
    match ctx
    case OfUpdate(c, patch) => SettleUpdateEffect(s, c, patch, k);
    case OfBatch(c) => SettleBatchEffect(s, c, k);
    case OfDelete(c) => SettleParentEffect(Invalidate(s, ListKey), c.parentId, k);
    case OfLabels(_, _) =>
  }

  lemma SettleBatchEffect(s: State, c: WrittenBatch, k: Key)
    requires IsData(k)
    ensures Effect(s, SettleBatch(s, c), k, false, false, SettleMarks(OfBatch(c), k))
  {
    assert k in ChildrenKeys(c.parents * s.slots.children.Keys) <==>
             k.ChildrenKey? && k.parent in c.parents && k.parent in s.slots.children;
  }

  lemma SettleUpdateEffect(s: State, c: UpdateContext, patch: Patch, k: Key)
    requires IsData(k)
    ensures Effect(s, SettleUpdate(s, c, patch), k, false, false, SettleMarks(OfUpdate(c, patch), k))
  {
    var s1 := Invalidate(Invalidate(s, DetailKey(c.id)), ListKey);
    SettleParentEffect(s1, c.parentId, k);
    SettleParentEffect(SettleParent(s1, c.parentId), NewParent(patch), k);
  }

  lemma CreationEffect(s: State, issue: Issue, k: Key)
    requires IsData(k)
    ensures Effect(s, CreateSucceeded(s, issue), k, Present(s.slots, k) && k == ListKey, false, IsParent(Truthy(issue.parentId), k))
    ensures Effect(s, OnIssueCreated(s, issue), k, Present(s.slots, k) && k == ListKey, false, IsParent(Truthy(issue.parentId), k))
  {
    var s1 := AddToList(s, issue);
    SettleParentEffect(s1, Truthy(issue.parentId), k);
    SettleParentEffect(Invalidate(s1, MyAllKey), Truthy(issue.parentId), k);
  }

  lemma UpdateParentsEffect(s: State, before: Option<Id>, id: Id, patch: Patch, k: Key)
    requires IsData(k)
    ensures var moves := patch.parentId.Some? && patch.parentId.value != before;
            Effect(s, UpdateParents(s, before, id, patch), k,
              Present(s.slots, k) && IsParent(Truthy(before), k) && !moves, false,
              moves && (IsParent(Truthy(before), k) || IsParent(Truthy(patch.parentId.value), k)))
  {
  }

  lemma PatchEffect(s: State, id: Id, patch: Patch, k: Key)
    requires IsData(k)
    ensures Effect(s, PatchDetail(Invalidate(PatchList(s, id, patch), MyAllKey), id, patch), k,
              Present(s.slots, k) && (k == ListKey || k == DetailKey(id)), false, false)
  {
  }

  lemma UpdatedEffect(s: State, id: Id, patch: Patch, k: Key)
    requires IsData(k)
    ensures Effect(s, OnIssueUpdated(s, id, patch), k, WriteSets(s.slots, Updated(id, patch), k), false,
              WriteMarks(s.slots, Updated(id, patch), k))
  {
    PatchEffect(s, id, patch, k);
    UpdateParentsEffect(PatchDetail(Invalidate(PatchList(s, id, patch), MyAllKey), id, patch), OldParent(s.slots, id), id, patch, k);
  }

  lemma DeletedEffect(s: State, id: Id, k: Key)
    requires IsData(k)
    ensures Effect(s, OnIssueDeleted(s, id), k, Present(s.slots, k) && k == ListKey, k == DetailKey(id) || k == ChildrenKey(id),
              IsParent(Truthy(ListParent(s.slots, id)), k))
  {
    var s1 := if s.slots.list.None? then s else SetList(s, RemoveIssue(s.slots.list.value, id));
    SettleParentEffect(RemoveChildren(RemoveDetail(Invalidate(s1, MyAllKey), id), id), Truthy(ListParent(s.slots, id)), k);
  }

  lemma WriteEffect(s: State, w: Write, k: Key)
    requires IsData(k)
    ensures Effect(s, Apply(s, w), k, WriteSets(s.slots, w, k), w.Deleted? && (k == DetailKey(w.id) || k == ChildrenKey(w.id)),
              WriteMarks(s.slots, w, k))
  {
    match w
    case CreateSuccess(issue) => CreationEffect(s, issue, k);
    case Created(issue) => CreationEffect(s, issue, k);
    case Updated(id, patch) => UpdatedEffect(s, id, patch, k);
    case LabelsChanged(id, labels) => LabelsChangedEffect(s, id, labels, k);
    case LabelsReply(id, labels) => LabelsEffect(s, id, labels, k);
    case Deleted(id) => DeletedEffect(s, id, k);
    case FetchedList(_) => FetchEffect(s, w, k);
    case FetchedDetail(_, _) => FetchEffect(s, w, k);
    case FetchedChildren(_, _) => FetchEffect(s, w, k);
    case FetchedLabels(_, _) => FetchEffect(s, w, k);
    case Invalidated(_) =>
  }

  lemma FetchEffect(s: State, w: Write, k: Key)
    requires IsData(k) && (w.FetchedList? || w.FetchedDetail? || w.FetchedChildren? || w.FetchedLabels?)
    ensures Effect(s, Apply(s, w), k, WriteSets(s.slots, w, k), false, false)
  {
  }

  /**
   Every step sets, removes and marks exactly the slots that the predicates above
   name, takes the mark off exactly those that it sets or removes, and leaves the
   content of all others.
   */
  lemma NextEffect(r: Run, e: Event, k: Key)
    requires Enabled(r, e) && IsData(k)
    ensures Effect(r.state, Next(r, e).state, k, Sets(r, e, k), Removes(e, k), Marks(r, e, k))
  {
    match e
    case Start(_, mutation) => BeginEffect(r.state, mutation, k);
    case Error(m) => FailEffect(r.state, r.pending[m].ctx, k);
    case Settled(m) => SettleEffect(r.state, r.pending[m].ctx, k);
    case Foreign(w) => WriteEffect(r.state, w, k);
  }

  // ------------------------------------------------------------- whole runs

  predicate MarkedAt(runs: seq<Run>, events: seq<Event>, j: nat, k: Key)
    requires j < |events| < |runs|
  {
    Marks(runs[j], events[j], k) && Present(runs[j + 1].state.slots, k)
  }

  /** How many events there were when the slot was last marked, or 0. */
  function LastMark(runs: seq<Run>, events: seq<Event>, i: nat, k: Key): (t: nat)
    requires i <= |events| < |runs|
    ensures t <= i
  {
    if i == 0 then 0 else if MarkedAt(runs, events, i - 1, k) then i else LastMark(runs, events, i - 1, k)
  }

  predicate HitAt(runs: seq<Run>, events: seq<Event>, j: nat, k: Key)
    requires j < |events| < |runs|
  {
    Sets(runs[j], events[j], k) || Removes(events[j], k)
  }

  /** No event from `from` up to `to` sets or removes the slot. */
  predicate Untouched(runs: seq<Run>, events: seq<Event>, from: nat, to: nat, k: Key)
    requires to <= |events| < |runs|
  {
    forall j: nat :: from <= j < to ==> !HitAt(runs, events, j, k)
  }

  lemma UntouchedSnoc(runs: seq<Run>, events: seq<Event>, from: nat, to: nat, k: Key)
    requires from <= to < |events| < |runs|
    ensures Untouched(runs, events, from, to + 1, k) <==> Untouched(runs, events, from, to, k) && !HitAt(runs, events, to, k)
  {
  }

  lemma StaleStep(runs: seq<Run>, events: seq<Event>, j: nat, k: Key)
    requires IsRun(runs, events) && j < |events| && IsData(k)
    ensures k in runs[j + 1].state.stale <==>
              MarkedAt(runs, events, j, k) || (k in runs[j].state.stale && !HitAt(runs, events, j, k))
  {
    NextEffect(runs[j], events[j], k);
  }

  /** A slot is stale exactly when nothing has touched it since it was last marked. */
  lemma {:induction false} StaleExactly(runs: seq<Run>, events: seq<Event>, i: nat, k: Key)
    requires IsRun(runs, events) && i < |runs| && IsData(k)
    ensures var t := LastMark(runs, events, i, k);
            k in runs[i].state.stale <==> Untouched(runs, events, t, i, k) && (t == 0 ==> k in runs[0].state.stale)
  {
    if i > 0 {
      StaleExactly(runs, events, i - 1, k);
      StaleStep(runs, events, i - 1, k);
      UntouchedSnoc(runs, events, LastMark(runs, events, i - 1, k), i - 1, k);
    }
  }

  lemma {:induction false} MarkedBy(runs: seq<Run>, events: seq<Event>, t: nat, i: nat, k: Key)
    requires t < i <= |events| < |runs| && MarkedAt(runs, events, t, k)
    ensures t < LastMark(runs, events, i, k)
  {
    if t < i - 1 {
      MarkedBy(runs, events, t, i - 1, k);
    }
  }

  /** The rollback at `e` overwrote the slot, and nothing has removed it up to `i`. */
  predicate RestoredAt(runs: seq<Run>, events: seq<Event>, e: nat, i: nat, k: Key)
    requires e < i <= |events| < |runs|
  {
    && events[e].Error? && Sets(runs[e], events[e], k)
    && forall j: nat :: e < j < i ==> !Removes(events[j], k)
  }

  lemma {:induction false} RestoredIsPresent(runs: seq<Run>, events: seq<Event>, e: nat, i: nat, k: Key)
    requires IsRun(runs, events) && e < i < |runs| && IsData(k) && RestoredAt(runs, events, e, i, k)
    ensures Present(runs[i].state.slots, k)
    ensures Untouched(runs, events, e + 1, i, k) ==> ContentAt(runs[i].state.slots, k) == ContentAt(runs[e + 1].state.slots, k)
  {
    NextEffect(runs[i - 1], events[i - 1], k);
    if e < i - 1 {
      RestoredIsPresent(runs, events, e, i - 1, k);
      if Untouched(runs, events, e + 1, i, k) {
        assert !HitAt(runs, events, i - 1, k);
      }
    }
  }

  /** A failed mutation stays under way until it settles. */
  predicate SettledAt(runs: seq<Run>, events: seq<Event>, e: nat, t: nat)
    requires e < |events| < |runs| && t < |events|
  {
    && events[e].Error? && events[t] == Settled(events[e].m)
    && events[e].m in runs[e].pending && events[e].m in runs[t].pending
    && runs[t].pending[events[e].m].ctx == runs[e].pending[events[e].m].ctx
  }

  lemma {:induction false} FailedSettles(runs: seq<Run>, events: seq<Event>, e: nat, i: nat)
    requires IsRun(runs, events) && e < i < |runs| && events[e].Error?
    ensures var m := events[e].m;
            || (exists t: nat :: e < t < i && SettledAt(runs, events, e, t))
            || (m in runs[i].pending && runs[i].pending[m] == Pending(runs[e].pending[m].ctx, true)
                && forall t: nat :: e < t < i ==> events[t] != Settled(m))
  {
    var m := events[e].m;
    if e < i - 1 {
      FailedSettles(runs, events, e, i - 1);
      if !(exists t: nat :: e < t < i - 1 && SettledAt(runs, events, e, t)) && events[i - 1] == Settled(m) {
        assert SettledAt(runs, events, e, i - 1);
      }
    }
  }

  /** Settling marks all that the rollback overwrote, but for the copies of a label set in the list and the detail slot. */
  lemma SettlingMarks(slots: Slots, ctx: Context, k: Key)
    requires FailSets(slots, ctx, k)
    ensures SettleMarks(ctx, k) <==> !(ctx.OfLabels? && (k.ListKey? || k.DetailKey?))
  {
    if ctx.OfBatch? && k.ChildrenKey? {
      assert k.parent in IdSet(ctx.batch.written);
    }
  }

  // ---------------------------- what settling and the events mark, in their own terms

  /** `p` is a parent whose children the mutation may have changed, as the caches stood when it started. */
  ghost predicate ConcernsParent(s: State, m: Mutation, p: Id)
    requires ListWellFormed(s.slots)
  {
    match m
    case Update(id, patch) => ParentOf(s.slots, id) == Some(p) || (p != "" && patch.parentId == Some(Some(p)))
    case BatchUpdate(ids, _) => HoldsRow(s.slots, ChildrenKey(p), IdSet(ids))
    case BatchDelete(ids) =>
      || HoldsRow(s.slots, ChildrenKey(p), IdSet(ids))
      || (p != "" && exists id :: id in ids && id in Shown(s.slots) && Shown(s.slots)[id].parentId == Some(p))
    case Delete(id) => p != "" && id in Shown(s.slots) && Shown(s.slots)[id].parentId == Some(p)
    case Attach(_, _, _) => false
    case Detach(_, _) => false
  }

  ghost predicate MutationMarks(s: State, m: Mutation, k: Key)
    requires ListWellFormed(s.slots)
  {
    match k
    case ListKey => !m.Attach? && !m.Detach?
    case DetailKey(id) => m.Update? && id == m.id
    case ByIssueKey(id) => (m.Attach? || m.Detach?) && id == m.issueId
    case ChildrenKey(p) => ConcernsParent(s, m, p)
    case ChildProgressKey => exists p :: ConcernsParent(s, m, p)
    case MyAllKey => false
  }

  lemma ListParentsAre(slots: Slots, ids: seq<Id>, p: Id)
    requires ListWellFormed(slots)
    ensures p in ListParents(slots, ids) <==>
              p != "" && exists id :: id in ids && id in Shown(slots) && Shown(slots)[id].parentId == Some(p)
  {
    forall id {
      EchoTolerance.ListParentInTable(slots, id);
    }
  }

  lemma AffectedAre(slots: Slots, ids: set<Id>, p: Id)
    ensures p in IdSet(Affected(slots, slots.order, ids)) <==> HoldsRow(slots, ChildrenKey(p), ids)
  {
    AffectedMembers(slots, slots.order, ids);
  }

  /** Which parents the captured context names. */
  lemma ContextNames(s: State, m: Mutation, p: Id)
    requires ListWellFormed(s.slots)
    ensures SettleMarks(ContextOf(s, m), ChildrenKey(p)) <==> ConcernsParent(s, m, p)
  {
    match m
    case Update(_, _) =>
    case BatchUpdate(ids, _) => AffectedAre(s.slots, IdSet(ids), p);
    case BatchDelete(ids) =>
      AffectedAre(s.slots, IdSet(ids), p);
      ListParentsAre(s.slots, ids, p);
    case Delete(id) => EchoTolerance.ListParentInTable(s.slots, id);
    case Attach(_, _, _) =>
    case Detach(_, _) =>
  }

  predicate NamesParent(ctx: Context) {
    match ctx
    case OfUpdate(c, patch) => c.parentId.Some? || NewParent(patch).Some?
    case OfBatch(c) => c.parents != {}
    case OfDelete(c) => c.parentId.Some?
    case OfLabels(_, _) => false
  }

  lemma SettleMarksOthers(s: State, ctx: Context)
    ensures MyAllKey in Settle(s, ctx).stale <==> MyAllKey in s.stale
    ensures ChildProgressKey in Settle(s, ctx).stale <==> ChildProgressKey in s.stale || NamesParent(ctx)
  {
  }

  lemma NamesParentWhen(ctx: Context)
    ensures NamesParent(ctx) <==> exists p :: SettleMarks(ctx, ChildrenKey(p))
  {
    match ctx
    case OfUpdate(c, patch) =>
      assert c.parentId.Some? ==> SettleMarks(ctx, ChildrenKey(c.parentId.value));
      assert NewParent(patch).Some? ==> SettleMarks(ctx, ChildrenKey(NewParent(patch).value));
    case OfBatch(c) =>
      if c.parents != {} {
        var p :| p in c.parents;
        assert SettleMarks(ctx, ChildrenKey(p));
      }
    case OfDelete(c) =>
      assert c.parentId.Some? ==> SettleMarks(ctx, ChildrenKey(c.parentId.value));
    case OfLabels(_, _) =>
  }

  /**
   Settling a mutation, whatever happened since it started, marks exactly these
   slots as far as they are there: the list and, of an update, the detail slot; the
   children of the parents that it concerned when it started; the children's
   progress if there were any; and of a label mutation the label slot alone.
   */
  lemma SettlingMarksWhen(s0: State, m: Mutation, s: State, k: Key)
    requires ListWellFormed(s0.slots)
    ensures k in Settle(s, ContextOf(s0, m)).stale <==> k in s.stale || (Present(s.slots, k) && MutationMarks(s0, m, k))
  {
    if IsData(k) {
      DataMarks(s0, m, k);
      SettleEffect(s, ContextOf(s0, m), k);
      SettleKeepsSlots(s, ContextOf(s0, m), k);
    } else {
      SettleMarksOthers(s, ContextOf(s0, m));
      ContextNamesParent(s0, m);
    }
  }

  lemma DataMarks(s: State, m: Mutation, k: Key)
    requires ListWellFormed(s.slots) && IsData(k)
    ensures SettleMarks(ContextOf(s, m), k) <==> MutationMarks(s, m, k)
  {
    if k.ChildrenKey? {
      ContextNames(s, m, k.parent);
    }
  }

  lemma ContextNamesParent(s: State, m: Mutation)
    requires ListWellFormed(s.slots)
    ensures NamesParent(ContextOf(s, m)) <==> exists p :: ConcernsParent(s, m, p)
  {
    NamesParentWhen(ContextOf(s, m));
    forall p ensures SettleMarks(ContextOf(s, m), ChildrenKey(p)) <==> ConcernsParent(s, m, p) {
      ContextNames(s, m, p);
    }
  }

  lemma SettleKeepsSlots(s: State, ctx: Context, k: Key)
    ensures Present(Settle(s, ctx).slots, k) <==> Present(s.slots, k)
  {
  }

  /** Whether a creation, an update or a delete event touches the children of some parent. */
  ghost predicate TouchesChildren(slots: Slots, w: Write)
    requires ListWellFormed(slots)
  {
    match w
    case CreateSuccess(issue) => Truthy(issue.parentId).Some?
    case Created(issue) => Truthy(issue.parentId).Some?
    case Updated(id, patch) =>
      && (patch.status.Some? || patch.parentId.Some?)
      && (Truthy(OldParent(slots, id)).Some? || (patch.parentId.Some? && Truthy(patch.parentId.value).Some?))
    case Deleted(id) => id in Shown(slots) && Truthy(Shown(slots)[id].parentId).Some?
    case _ => false
  }

  predicate TouchesFiltered(w: Write) {
    w.Created? || w.Updated? || w.LabelsChanged? || w.LabelsReply? || w.Deleted?
  }

  /** The marks of the events on the two slots without data: the filtered lists and the children's progress. */
  lemma EventMarksOthers(s: State, w: Write)
    requires ListWellFormed(s.slots)
    ensures MyAllKey in Apply(s, w).stale <==>
              MyAllKey in s.stale || TouchesFiltered(w) || (w.Invalidated? && MyAllKey in w.keys)
    ensures ChildProgressKey in Apply(s, w).stale <==>
              ChildProgressKey in s.stale || TouchesChildren(s.slots, w) || (w.Invalidated? && ChildProgressKey in w.keys)
  {
    match w
    case Updated(id, patch) => UpdatedMarksOthers(s, id, patch);
    case Deleted(id) => DeletedMarksOthers(s, id);
    case LabelsChanged(id, labels) => LabelsMarkOthers(s, id, labels);
    case LabelsReply(id, labels) => LabelsMarkOthers(SetByIssue(s, id, labels), id, labels);
    case CreateSuccess(issue) => CreationMarksOthers(s, issue);
    case Created(issue) => CreationMarksOthers(s, issue);
    case FetchedList(_) =>
    case FetchedDetail(_, _) =>
    case FetchedChildren(_, _) =>
    case FetchedLabels(_, _) =>
    case Invalidated(_) =>
  }

  lemma CreationMarksOthers(s: State, issue: Issue)
    ensures MyAllKey in CreateSucceeded(s, issue).stale <==> MyAllKey in s.stale
    ensures MyAllKey in OnIssueCreated(s, issue).stale
    ensures ChildProgressKey in CreateSucceeded(s, issue).stale <==> ChildProgressKey in s.stale || Truthy(issue.parentId).Some?
    ensures ChildProgressKey in OnIssueCreated(s, issue).stale <==> ChildProgressKey in s.stale || Truthy(issue.parentId).Some?
  {
  }

  lemma DeletedMarksOthers(s: State, id: Id)
    requires ListWellFormed(s.slots)
    ensures MyAllKey in OnIssueDeleted(s, id).stale
    ensures ChildProgressKey in OnIssueDeleted(s, id).stale <==>
              ChildProgressKey in s.stale || (id in Shown(s.slots) && Truthy(Shown(s.slots)[id].parentId).Some?)
  {
    EchoTolerance.ListParentInTable(s.slots, id);
  }

  lemma LabelsMarkOthers(s: State, id: Id, labels: seq<Label>)
    ensures MyAllKey in OnIssueLabelsChanged(s, id, labels).stale
    ensures ChildProgressKey in OnIssueLabelsChanged(s, id, labels).stale <==> ChildProgressKey in s.stale
  {
  }

  lemma UpdatedMarksOthers(s: State, id: Id, patch: Patch)
    requires ListWellFormed(s.slots)
    ensures MyAllKey in OnIssueUpdated(s, id, patch).stale
    ensures ChildProgressKey in OnIssueUpdated(s, id, patch).stale <==>
              ChildProgressKey in s.stale || TouchesChildren(s.slots, Updated(id, patch))
  {
    var s1 := PatchDetail(Invalidate(PatchList(s, id, patch), MyAllKey), id, patch);
    ParentsMarkOthers(s1, OldParent(s.slots, id), id, patch);
  }

  lemma ParentsMarkOthers(s: State, before: Option<Id>, id: Id, patch: Patch)
    ensures MyAllKey in UpdateParents(s, before, id, patch).stale <==> MyAllKey in s.stale
    ensures ChildProgressKey in UpdateParents(s, before, id, patch).stale <==>
              || ChildProgressKey in s.stale
              || ((patch.status.Some? || patch.parentId.Some?)
                  && (Truthy(before).Some? || (patch.parentId.Some? && Truthy(patch.parentId.value).Some?)))
  {
  }

  /** A rollback puts back what the slot held when the mutation started, whatever it holds now. */
  lemma FailPutsBack(s0: State, mutation: Mutation, s: State, k: Key)
    requires IsData(k) && FailSets(s.slots, ContextOf(s0, mutation), k)
    requires ContextOf(s0, mutation).OfLabels? ==> k.ByIssueKey?
    ensures ContentAt(Fail(s, ContextOf(s0, mutation)).slots, k) == ContentAt(s0.slots, k)
  {
    var ctx := ContextOf(s0, mutation);
    match ctx
    case OfUpdate(_, _) =>
    case OfBatch(c) =>
      var s1 := if c.prevList.Some? then SetList(s, c.prevList.value) else s;
      WriteEachIs(s1, c.written, c.prevChildren);
    case OfDelete(_) =>
    case OfLabels(issueId, prev) => LabelSync.SlotsAfterLabels(SetByIssue(s, issueId, prev.value), issueId, prev.value);
  }

  lemma {:induction false} ContextStays(runs: seq<Run>, events: seq<Event>, a: nat, e: nat)
    requires IsRun(runs, events) && a < e <= |events| && events[a].Start?
    requires forall j: nat :: a < j < e ==> events[j] != Settled(events[a].m)
    ensures events[a].m in runs[e].pending
    ensures runs[e].pending[events[a].m].ctx == ContextOf(runs[a].state, events[a].mutation)
  {
    if a < e - 1 {
      ContextStays(runs, events, a, e - 1);
    }
  }

  /**
   Over any run, with anything in between: a mutation that fails leaves each slot
   that it overwrites with what the slot held when the mutation started.
   */
  lemma SnapshotsComeBack(runs: seq<Run>, events: seq<Event>, a: nat, e: nat, k: Key)
    requires IsRun(runs, events) && a < e < |events| && IsData(k)
    requires events[a].Start? && events[e] == Error(events[a].m) && Sets(runs[e], events[e], k)
    requires forall j: nat :: a < j < e ==> events[j] != Settled(events[a].m)
    requires events[a].mutation.Attach? || events[a].mutation.Detach? ==> k.ByIssueKey?
    ensures ContentAt(runs[e + 1].state.slots, k) == ContentAt(runs[a].state.slots, k)
  {
    ContextStays(runs, events, a, e);
    FailPutsBack(runs[a].state, events[a].mutation, runs[e].state, k);
  }

  /**
   The protocol's promise, for any number of mutations and any interleaving with
   each other and with other writers. Once a failed mutation has settled, each slot
   that its rollback overwrote and nobody removed has been marked since, unless it
   is the list or detail copy of a label set; and whether it is stale now is
   decided by one thing: that nothing has written to it since it was last marked.
   As long as nothing has written to it since the rollback, it shows what the
   rollback put there.
   */
  lemma RestoredIsStaleWhen(runs: seq<Run>, events: seq<Event>, e: nat, i: nat, k: Key)
    requires IsRun(runs, events) && e < i < |runs| && IsData(k) && RestoredAt(runs, events, e, i, k)
    requires exists t: nat :: e < t < i && events[t] == Settled(events[e].m)
    ensures Present(runs[i].state.slots, k)
    ensures !(runs[e].pending[events[e].m].ctx.OfLabels? && (k.ListKey? || k.DetailKey?)) ==>
              e + 1 < LastMark(runs, events, i, k)
    ensures k in runs[i].state.stale <==> Untouched(runs, events, LastMark(runs, events, i, k), i, k)
    ensures Untouched(runs, events, e + 1, i, k) ==> ContentAt(runs[i].state.slots, k) == ContentAt(runs[e + 1].state.slots, k)
  {
    var ctx := runs[e].pending[events[e].m].ctx;
    RestoredIsPresent(runs, events, e, i, k);
    StaleExactly(runs, events, i, k);
    assert HitAt(runs, events, e, k);
    FailedSettles(runs, events, e, i);
    var t: nat :| e < t < i && SettledAt(runs, events, e, t);
    SettlingMarks(runs[e].state.slots, ctx, k);
    if SettleMarks(ctx, k) {
      RestoredIsPresent(runs, events, e, t + 1, k);
      MarkedBy(runs, events, t, i, k);
    }
  }

  lemma EventPatchesList(r: Run, id: Id, patch: Patch) returns (after: Run)
    requires r.state.slots.list.Some?
    ensures IsStep(r, Foreign(Updated(id, patch)), after)
    ensures after.state.slots.list == Some(PatchIssue(r.state.slots.list.value, id, patch))
    ensures ListKey !in after.state.stale && after.pending == r.pending
  {
    after := Next(r, Foreign(Updated(id, patch)));
    UpdatedEffect(r.state, id, patch, ListKey);
    ListAfterEvent(r.state, id, patch);
  }

  lemma ListAfterEvent(s: State, id: Id, patch: Patch)
    ensures OnIssueUpdated(s, id, patch).slots.list ==
            if s.slots.list.Some? then Some(PatchIssue(s.slots.list.value, id, patch)) else None
  {
  }

  lemma UpdateThenEvent(r: Run, x: Id, p: Patch, q: Patch) returns (r1: Run, r2: Run)
    requires r.pending == map[] && r.state.slots.list.Some?
    ensures IsStep(r, Start(0, Update(x, p)), r1) && IsStep(r1, Foreign(Updated(x, q)), r2)
    ensures r2.state.slots.list == Some(PatchIssue(PatchIssue(r.state.slots.list.value, x, p), x, q))
    ensures r2.pending.Keys == {0} && !r2.pending[0].failed && r2.pending[0].ctx.OfUpdate?
    ensures r2.pending[0].ctx.update.prevList == r.state.slots.list
  {
    r1 := Next(r, Start(0, Update(x, p)));
    r2 := EventPatchesList(r1, x, q);
  }

  lemma FailsAndSettles(r: Run) returns (r1: Run, r2: Run)
    requires r.pending.Keys == {0} && !r.pending[0].failed
    requires r.pending[0].ctx.OfUpdate? && r.pending[0].ctx.update.prevList.Some?
    ensures IsStep(r, Error(0), r1) && IsStep(r1, Settled(0), r2)
    ensures r2.state.slots.list == r.pending[0].ctx.update.prevList && r2.pending == map[]
  {
    r1 := Next(r, Error(0));
    r2 := Next(r1, Settled(0));
  }

  predicate IsStep(r: Run, e: Event, after: Run) {
    Enabled(r, e) && after == Next(r, e)
  }

  /** Steps that join are a run. */
  lemma StepsAreRun(runs: seq<Run>, events: seq<Event>)
    requires |runs| == |events| + 1 && runs[0].pending == map[]
    requires forall i :: 0 <= i < |events| ==> IsStep(runs[i], events[i], runs[i + 1])
    ensures IsRun(runs, events)
  {
    forall i | 0 <= i < |events| ensures Enabled(runs[i], events[i]) && runs[i + 1] == Next(runs[i], events[i]) {
      assert IsStep(runs[i], events[i], runs[i + 1]);
    }
  }

  lemma NotFoundStays(c: ListCache, b: Id, r: Patch)
    requires FindIssueLocation(c, b).None?
    ensures PatchIssue(c, b, r) == c
  {
  }

  lemma LostRun(s: State, x: Id, p: Patch, q: Patch, b: Id, r: Patch) returns (runs: seq<Run>)
    requires s.slots.list.Some? && FindIssueLocation(s.slots.list.value, b).None?
    ensures IsRun(runs, [Start(0, Update(x, p)), Foreign(Updated(x, q)), Error(0), Settled(0), Foreign(Updated(b, r))])
    ensures runs[0].state == s
    ensures runs[2].state.slots.list == Some(PatchIssue(PatchIssue(s.slots.list.value, x, p), x, q))
    ensures runs[5].state.slots.list == s.slots.list && runs[5].pending == map[] && ListKey !in runs[5].state.stale
  {
    var r0 := Run(s, map[]);
    var r1, r2 := UpdateThenEvent(r0, x, p, q);
    var r3, r4 := FailsAndSettles(r2);
    var r5 := EventPatchesList(r4, b, r);
    NotFoundStays(s.slots.list.value, b, r);
    runs := [r0, r1, r2, r3, r4, r5];
    StepsAreRun(runs, [Start(0, Update(x, p)), Foreign(Updated(x, q)), Error(0), Settled(0), Foreign(Updated(b, r))]);
  }

  lemma PatchChanges(c: ListCache, x: Id, q: Patch)
    requires WellFormed(c) && x in Table(c) && Merge(Table(c)[x], q) != Table(c)[x]
    ensures PatchIssue(c, x, q) != c
  {
    HelpersRefineTable(c, x, q);
  }

  /**
   A write lost to a rollback can stay lost. An update of `x` is under way when the
   event `q`, which changes `x`, comes in; the update fails and settles; then an event about an
   issue that the list does not hold rewrites the list as it is, which takes the
   mark off. The list is what it was before all this, without `q`, and not stale.
   */
  lemma LostWriteStaysLost(s: State, x: Id, p: Patch, q: Patch, b: Id, r: Patch) returns (runs: seq<Run>)
    requires s.slots.list.Some? && WellFormed(s.slots.list.value) && FindIssueLocation(s.slots.list.value, b).None?
    requires x in Table(s.slots.list.value) && Merge(Table(s.slots.list.value)[x], q) != Table(s.slots.list.value)[x]
    ensures IsRun(runs, [Start(0, Update(x, p)), Foreign(Updated(x, q)), Error(0), Settled(0), Foreign(Updated(b, r))])
    ensures runs[0].state == s
    ensures runs[2].state.slots.list == Some(PatchIssue(PatchIssue(s.slots.list.value, x, p), x, q))
    ensures PatchIssue(s.slots.list.value, x, q) != s.slots.list.value
    ensures runs[5].state.slots.list == s.slots.list && runs[5].pending == map[] && ListKey !in runs[5].state.stale
  {
    runs := LostRun(s, x, p, q, b, r);
    PatchChanges(s.slots.list.value, x, q);
  }
}
