/**
 The query cache that the issue mutations and the WebSocket updaters share: its
 slots, the marks of the stale ones, and each writer as one step
 (packages/core/issues/mutations.ts:101-366, packages/core/issues/ws-updaters.ts).
 */
module IssueQueries {
  import opened Wrappers
  import opened IssueCache
  import opened IssueCacheLaws

  datatype Key =
    | ListKey | DetailKey(id: Id) | ChildrenKey(parent: Id) | ByIssueKey(issue: Id)
    | ChildProgressKey | MyAllKey

  /**
   The slots with data. `order` lists the children slots as the cache iterates
   over them, oldest first.
   */
  datatype Slots = Slots(
    list: Option<ListCache>,
    detail: map<Id, Issue>,
    children: map<Id, seq<Issue>>,
    order: seq<Id>,
    byIssue: map<Id, seq<Label>>)

  datatype State = State(slots: Slots, stale: set<Key>)

  // -------------------------------------------------------------- primitives

  predicate Present(slots: Slots, k: Key) {
    match k
    case ListKey => slots.list.Some?
    case DetailKey(id) => id in slots.detail
    case ChildrenKey(p) => p in slots.children
    case ByIssueKey(id) => id in slots.byIssue
    case ChildProgressKey => true
    case MyAllKey => true
  }

  /** A write makes the slot fresh. */
  function Touch(s: State, k: Key): State {
    s.(stale := s.stale - {k})
  }

  function SetList(s: State, c: ListCache): State {
    Touch(s, ListKey).(slots := s.slots.(list := Some(c)))
  }

  function SetDetail(s: State, id: Id, issue: Issue): State {
    Touch(s, DetailKey(id)).(slots := s.slots.(detail := s.slots.detail[id := issue]))
  }

  function SetChildren(s: State, p: Id, issues: seq<Issue>): State {
    Touch(s, ChildrenKey(p)).(slots := s.slots.(
      children := s.slots.children[p := issues],
      order := if p in s.slots.children then s.slots.order else s.slots.order + [p]))
  }

  function SetByIssue(s: State, id: Id, labels: seq<Label>): State {
    Touch(s, ByIssueKey(id)).(slots := s.slots.(byIssue := s.slots.byIssue[id := labels]))
  }

  /** Marking an absent slot does nothing. */
  function Invalidate(s: State, k: Key): State {
    if Present(s.slots, k) then s.(stale := s.stale + {k}) else s
  }

  function InvalidateAll(s: State, keys: set<Key>): State {
    s.(stale := s.stale + set k | k in keys && Present(s.slots, k))
  }

  function RemoveDetail(s: State, id: Id): State {
    Touch(s, DetailKey(id)).(slots := s.slots.(detail := s.slots.detail - {id}))
  }

  function Drop(order: seq<Id>, p: Id): seq<Id> {
    if order == [] then []
    else if order[0] == p then Drop(order[1..], p)
    else [order[0]] + Drop(order[1..], p)
  }

  function RemoveChildren(s: State, p: Id): State {
    Touch(s, ChildrenKey(p)).(slots :=
      s.slots.(children := s.slots.children - {p}, order := Drop(s.slots.order, p)))
  }

  // ------------------------------------------------- the updaters of a slot

  predicate Mentions(issues: seq<Issue>, ids: set<Id>) {
    exists x :: x in issues && x.id in ids
  }

  /** `map` with the patch merged into each issue of the set. */
  function MergeEach(issues: seq<Issue>, ids: set<Id>, patch: Patch): seq<Issue> {
    if issues == [] then []
    else
      var x := issues[0];
      [if x.id in ids then Merge(x, patch) else x] + MergeEach(issues[1..], ids, patch)
  }

  /** `filter` to the issues outside the set. */
  function Outside(issues: seq<Issue>, ids: set<Id>): seq<Issue> {
    if issues == [] then []
    else if issues[0].id in ids then Outside(issues[1..], ids)
    else [issues[0]] + Outside(issues[1..], ids)
  }

  function PatchList(s: State, id: Id, patch: Patch): State {
    if s.slots.list.None? then s else SetList(s, PatchIssue(s.slots.list.value, id, patch))
  }

  function PatchDetail(s: State, id: Id, patch: Patch): State {
    if id !in s.slots.detail then s else SetDetail(s, id, Merge(s.slots.detail[id], patch))
  }

  function PatchChildren(s: State, p: Id, ids: set<Id>, patch: Patch): State {
    if p !in s.slots.children then s else SetChildren(s, p, MergeEach(s.slots.children[p], ids, patch))
  }

  // ---------------------------------------------------------- whose child

  /** `a ?? b` */
  function OrElse<T>(a: Option<T>, b: Option<T>): Option<T> {
    if a.Some? then a else b
  }

  /** The empty id counts as none. */
  function Truthy(id: Option<Id>): Option<Id> {
    if id == Some("") then None else id
  }

  function ListParent(slots: Slots, id: Id): Option<Id> {
    if slots.list.None? then None
    else
      var loc := FindIssueLocation(slots.list.value, id);
      if loc.None? then None else loc.value.issue.parentId
  }

  /** The parent by the detail slot, else by the list. */
  function KnownParent(slots: Slots, id: Id): Option<Id> {
    Truthy(OrElse(if id in slots.detail then slots.detail[id].parentId else None, ListParent(slots, id)))
  }

  /** The first children slot that holds the id. */
  function ScanParents(slots: Slots, order: seq<Id>, id: Id): Option<Id> {
    if order == [] then None
    else if order[0] in slots.children && HasId(slots.children[order[0]], id) then Some(order[0])
    else ScanParents(slots, order[1..], id)
  }

  function ParentOf(slots: Slots, id: Id): Option<Id> {
    var known := KnownParent(slots, id);
    if known.Some? then known else Truthy(ScanParents(slots, slots.order, id))
  }

  // ---------------------------------------------------------------- update

  datatype UpdateContext = UpdateContext(
    prevList: Option<ListCache>, prevDetail: Option<Issue>, prevChildren: Option<seq<Issue>>, parentId: Option<Id>, id: Id)

  function UpdateContextOf(slots: Slots, id: Id): UpdateContext {
    var parentId := ParentOf(slots, id);
    UpdateContext(
      slots.list,
      if id in slots.detail then Some(slots.detail[id]) else None,
      if parentId.Some? && parentId.value in slots.children then Some(slots.children[parentId.value]) else None,
      parentId, id)
  }

  function BeginUpdate(s: State, id: Id, patch: Patch): State {
    var parentId := ParentOf(s.slots, id);
    var s1 := PatchDetail(PatchList(s, id, patch), id, patch);
    if parentId.Some? then PatchChildren(s1, parentId.value, {id}, patch) else s1
  }

  function FailUpdate(s: State, ctx: UpdateContext): State {
    var s1 := if ctx.prevList.Some? then SetList(s, ctx.prevList.value) else s;
    var s2 := if ctx.prevDetail.Some? then SetDetail(s1, ctx.id, ctx.prevDetail.value) else s1;
    if ctx.parentId.Some? && ctx.prevChildren.Some? then
      SetChildren(s2, ctx.parentId.value, ctx.prevChildren.value)
    else s2
  }

  function SettleParent(s: State, parentId: Option<Id>): State {
    if parentId.Some? then Invalidate(Invalidate(s, ChildrenKey(parentId.value)), ChildProgressKey) else s
  }

  /** The parent that the mutation sets, when it names one. */
  function NewParent(patch: Patch): Option<Id> {
    if patch.parentId.Some? then Truthy(patch.parentId.value) else None
  }

  function SettleUpdate(s: State, ctx: UpdateContext, patch: Patch): State {
    var s1 := SettleParent(Invalidate(Invalidate(s, DetailKey(ctx.id)), ListKey), ctx.parentId);
    if NewParent(patch) != ctx.parentId then SettleParent(s1, NewParent(patch)) else s1
  }

  // -------------------------------------------------------- batches, delete

  /**
   The context of a batch: the list, the children slots it wrote, in that order,
   with their snapshots, and the parents to invalidate.
   */
  datatype BatchContext = BatchContext(
    prevList: Option<ListCache>, written: seq<Id>, prevChildren: map<Id, seq<Issue>>, parents: set<Id>)

  /** The children slots, in order, that hold one of the ids. */
  function Affected(slots: Slots, order: seq<Id>, ids: set<Id>): (ps: seq<Id>)
    ensures forall p :: p in ps ==> p in slots.children
  {
    if order == [] then []
    else
      var p, rest := order[0], Affected(slots, order[1..], ids);
      if p in slots.children && Mentions(slots.children[p], ids) then [p] + rest else rest
  }

  /** Several children slots written one after the other. */
  function WriteEach(s: State, ps: seq<Id>, news: map<Id, seq<Issue>>): State
    requires forall p :: p in ps ==> p in news
  {
    if ps == [] then s
    else SetChildren(WriteEach(s, ps[..|ps| - 1], news), ps[|ps| - 1], news[ps[|ps| - 1]])
  }

  function BatchUpdateContextOf(slots: Slots, ids: seq<Id>): BatchContext {
    var affected := Affected(slots, slots.order, IdSet(ids));
    BatchContext(slots.list, affected, map p | p in affected :: slots.children[p], IdSet(affected))
  }

  /** The children slots `ps` with the patch merged in, and with the set filtered out. */
  function MergedRows(slots: Slots, ps: seq<Id>, ids: set<Id>, patch: Patch): map<Id, seq<Issue>>
    requires forall p :: p in ps ==> p in slots.children
  {
    map p | p in ps :: MergeEach(slots.children[p], ids, patch)
  }

  function RemainingRows(slots: Slots, ps: seq<Id>, ids: set<Id>): map<Id, seq<Issue>>
    requires forall p :: p in ps ==> p in slots.children
  {
    map p | p in ps :: Outside(slots.children[p], ids)
  }

  function BeginBatchUpdate(s: State, ids: seq<Id>, patch: Patch): State {
    var s1 := if s.slots.list.None? then s else SetList(s, PatchAll(s.slots.list.value, ids, patch));
    var affected := Affected(s.slots, s.slots.order, IdSet(ids));
    WriteEach(s1, affected, MergedRows(s.slots, affected, IdSet(ids), patch))
  }

  /** The parents of those of the ids that the list shows. */
  function ListParents(slots: Slots, ids: seq<Id>): set<Id> {
    set id | id in ids && Truthy(ListParent(slots, id)).Some? :: ListParent(slots, id).value
  }

  function BatchDeleteContextOf(slots: Slots, ids: seq<Id>): BatchContext {
    var affected := Affected(slots, slots.order, IdSet(ids));
    BatchContext(slots.list, affected, map p | p in affected :: slots.children[p], ListParents(slots, ids) + IdSet(affected))
  }

  function BeginBatchDelete(s: State, ids: seq<Id>): State {
    var affected := Affected(s.slots, s.slots.order, IdSet(ids));
    var s1 := WriteEach(s, affected, RemainingRows(s.slots, affected, IdSet(ids)));
    if s.slots.list.None? then s1 else SetList(s1, RemoveAll(s.slots.list.value, ids))
  }

  predicate ValidContext(ctx: BatchContext) {
    (forall p :: p in ctx.written ==> p in ctx.prevChildren) && IdSet(ctx.written) <= ctx.parents
  }

  function FailBatch(s: State, ctx: BatchContext): State
    requires ValidContext(ctx)
  {
    var s1 := if ctx.prevList.Some? then SetList(s, ctx.prevList.value) else s;
    WriteEach(s1, ctx.written, ctx.prevChildren)
  }

  function ChildrenKeys(parents: set<Id>): set<Key> {
    set p | p in parents :: ChildrenKey(p)
  }

  function InvalidateChildren(s: State, parents: set<Id>): State {
    s.(stale := s.stale + ChildrenKeys(parents * s.slots.children.Keys))
  }

  function SettleBatch(s: State, ctx: BatchContext): State {
    var s1 := Invalidate(s, ListKey);
    if ctx.parents == {} then s1 else Invalidate(InvalidateChildren(s1, ctx.parents), ChildProgressKey)
  }

  datatype DeleteContext = DeleteContext(prevList: Option<ListCache>, parentId: Option<Id>)

  function BeginDelete(s: State, id: Id): State {
    var s1 := if s.slots.list.None? then s else SetList(s, RemoveIssue(s.slots.list.value, id));
    RemoveDetail(s1, id)
  }

  function DeleteContextOf(slots: Slots, id: Id): DeleteContext {
    DeleteContext(slots.list, Truthy(ListParent(slots, id)))
  }

  function FailDelete(s: State, ctx: DeleteContext): State {
    if ctx.prevList.Some? then SetList(s, ctx.prevList.value) else s
  }

  function SettleDelete(s: State, ctx: DeleteContext): State {
    SettleParent(Invalidate(s, ListKey), ctx.parentId)
  }

  // ------------------------------------------------------ create, WebSocket

  function AddToList(s: State, issue: Issue): State {
    if s.slots.list.None? then s else SetList(s, AddIssue(s.slots.list.value, issue))
  }

  function CreateSucceeded(s: State, issue: Issue): State {
    SettleParent(AddToList(s, issue), Truthy(issue.parentId))
  }

  function OnIssueCreated(s: State, issue: Issue): State {
    SettleParent(Invalidate(AddToList(s, issue), MyAllKey), Truthy(issue.parentId))
  }

  /** The parent that an update event goes by: the detail slot's, else the list's. */
  function OldParent(slots: Slots, id: Id): Option<Id> {
    OrElse(if id in slots.detail then slots.detail[id].parentId else None, ListParent(slots, id))
  }

  /** The second half of an update event: the children of the old and the new parent. */
  function UpdateParents(s: State, oldParent: Option<Id>, id: Id, patch: Patch): State {
    var newParent := if patch.parentId.Some? then patch.parentId.value else None;
    var parentChanged := patch.parentId.Some? && newParent != oldParent;
    var s1 :=
      if Truthy(oldParent).None? then s
      else if parentChanged then Invalidate(s, ChildrenKey(oldParent.value))
      else PatchChildren(s, oldParent.value, {id}, patch);
    var s2 := if Truthy(newParent).Some? && parentChanged then Invalidate(s1, ChildrenKey(newParent.value)) else s1;
    if (Truthy(oldParent).Some? || Truthy(newParent).Some?) && (patch.status.Some? || patch.parentId.Some?)
    then Invalidate(s2, ChildProgressKey) else s2
  }

  function OnIssueUpdated(s: State, id: Id, patch: Patch): State {
    UpdateParents(PatchDetail(Invalidate(PatchList(s, id, patch), MyAllKey), id, patch), OldParent(s.slots, id), id, patch)
  }

  const NO_PATCH := Patch(None, None, None, None)

  function OnIssueLabelsChanged(s: State, id: Id, labels: seq<Label>): State {
    var patch := NO_PATCH.(labels := Some(labels));
    var s1 := if s.slots.list.None? then s else SetList(s, PatchIssue(s.slots.list.value, id, patch));
    var s2 := if id !in s1.slots.detail then s1 else SetDetail(s1, id, Merge(s1.slots.detail[id], patch));
    var s3 := if id !in s2.slots.byIssue then s2 else SetByIssue(s2, id, labels);
    Invalidate(s3, MyAllKey)
  }

  function OnIssueDeleted(s: State, id: Id): State {
    var parentId := Truthy(ListParent(s.slots, id));
    var s1 := if s.slots.list.None? then s else SetList(s, RemoveIssue(s.slots.list.value, id));
    SettleParent(RemoveChildren(RemoveDetail(Invalidate(s1, MyAllKey), id), id), parentId)
  }

  // ----------------------------------------------------- what a state shows

  ghost predicate ListWellFormed(slots: Slots) {
    slots.list.Some? ==> WellFormed(slots.list.value)
  }

  /** The issues that the list shows. */
  ghost function Shown(slots: Slots): map<Id, Issue>
    requires ListWellFormed(slots)
  {
    if slots.list.Some? then Table(slots.list.value) else map[]
  }

  lemma {:induction false} AffectedMembers(slots: Slots, order: seq<Id>, ids: set<Id>)
    ensures forall p :: p in Affected(slots, order, ids) <==> p in order && p in slots.children && Mentions(slots.children[p], ids)
  {
    if order != [] {
      AffectedMembers(slots, order[1..], ids);
      assert order == [order[0]] + order[1..];
    }
  }

  /** The rows of `news` for the slots `ps`. */
  function RowsFor(ps: seq<Id>, news: map<Id, seq<Issue>>): map<Id, seq<Issue>>
    requires forall p :: p in ps ==> p in news
  {
    map p | p in ps :: news[p]
  }

  lemma RowsForSnoc(children: map<Id, seq<Issue>>, ps: seq<Id>, last: Id, news: map<Id, seq<Issue>>)
    requires forall p :: p in ps + [last] ==> p in news
    ensures (children + RowsFor(ps, news))[last := news[last]] == children + RowsFor(ps + [last], news)
    ensures ChildrenKeys(IdSet(ps + [last])) == ChildrenKeys(IdSet(ps)) + {ChildrenKey(last)}
  {
  }

  /** Writing several children slots that are there, all at once. */
  lemma {:induction false} WriteEachIs(s: State, ps: seq<Id>, news: map<Id, seq<Issue>>)
    requires forall p :: p in ps ==> p in news
    ensures var s' := WriteEach(s, ps, news);
            && s'.slots.list == s.slots.list && s'.slots.detail == s.slots.detail && s'.slots.byIssue == s.slots.byIssue
            && s'.slots.children == s.slots.children + RowsFor(ps, news)
            && ((forall p :: p in ps ==> p in s.slots.children) ==> s'.slots.order == s.slots.order)
            && s'.stale == s.stale - ChildrenKeys(IdSet(ps))
  {
    if ps != [] {
      var n := |ps| - 1;
      assert ps == ps[..n] + [ps[n]];
      WriteEachIs(s, ps[..n], news);
      RowsForSnoc(s.slots.children, ps[..n], ps[n], news);
    }
  }
}
