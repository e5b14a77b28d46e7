/**
 When the three copies of each issue's labels agree: over the runs of all issue and
 label mutations, events, replies and fetches together
 (packages/core/labels/mutations.ts:99-171, packages/core/issues/mutations.ts:125-366,
 packages/core/issues/ws-updaters.ts).
 */
module LabelAgreement {
  import opened Wrappers
  import opened IssueCache
  import opened IssueCacheLaws
  import opened IssueQueries
  import opened EchoTolerance
  import opened LabelSync
  import opened OptimisticProtocol

  /** The three copies of one issue's labels are equal, as far as they are there. */
  predicate Agree(shown: map<Id, Issue>, detail: map<Id, Issue>, byIssue: map<Id, seq<Label>>, id: Id) {
    && (id in shown && id in detail ==> shown[id].labels == detail[id].labels)
    && (id in shown && id in byIssue ==> shown[id].labels == Some(byIssue[id]))
    && (id in detail && id in byIssue ==> detail[id].labels == Some(byIssue[id]))
  }

  ghost predicate AllAgree(slots: Slots) {
    ListWellFormed(slots) && forall id :: Agree(Shown(slots), slots.detail, slots.byIssue, id)
  }

  lemma RelabelAgrees(shown: map<Id, Issue>, detail: map<Id, Issue>, byIssue: map<Id, seq<Label>>, id: Id, labels: seq<Label>, i: Id)
    requires i != id ==> Agree(shown, detail, byIssue, i)
    ensures Agree(Relabel(shown, id, labels), Relabel(detail, id, labels),
              if id in byIssue then byIssue[id := labels] else byIssue, i)
  {
  }

  lemma EventKeepsAgreement(s: State, id: Id, labels: seq<Label>)
    requires ListWellFormed(s.slots)
    requires forall i :: i != id ==> Agree(Shown(s.slots), s.slots.detail, s.slots.byIssue, i)
    ensures AllAgree(OnIssueLabelsChanged(s, id, labels).slots)
  {
    LabelsChangedWrites(s, id, labels);
    var t := OnIssueLabelsChanged(s, id, labels).slots;
    forall i ensures Agree(Shown(t), t.detail, t.byIssue, i) {
      RelabelAgrees(Shown(s.slots), s.slots.detail, s.slots.byIssue, id, labels, i);
    }
  }

  lemma WriteKeepsAgreement(s: State, id: Id, labels: Option<seq<Label>>)
    requires AllAgree(s.slots)
    ensures AllAgree(WriteIfSome(s, id, labels).slots)
  {
    if labels.Some? {
      var s1 := SetByIssue(s, id, labels.value);
      assert Shown(s1.slots) == Shown(s.slots);
      forall i | i != id ensures Agree(Shown(s1.slots), s1.slots.detail, s1.slots.byIssue, i) {
        assert Agree(Shown(s.slots), s.slots.detail, s.slots.byIssue, i);
      }
      EventKeepsAgreement(s1, id, labels.value);
    }
  }

  // ------------------------------------------ what an event has to bring

  /** The labels are those that the detail slot and the label slot of the issue hold, as far as they are there. */
  predicate LikeSlots(slots: Slots, id: Id, labels: Option<seq<Label>>) {
    && (id in slots.detail ==> labels == slots.detail[id].labels)
    && (id in slots.byIssue ==> labels == Some(slots.byIssue[id]))
  }

  /** A list whose labels are those of the other slots. */
  ghost predicate ListAgrees(list: ListCache, slots: Slots) {
    WellFormed(list) && forall id :: id in Table(list) ==> LikeSlots(slots, id, Table(list)[id].labels)
  }

  /** A detail slot whose labels are those of the list and the label slot. */
  ghost predicate DetailAgrees(slots: Slots, id: Id, labels: Option<seq<Label>>)
    requires ListWellFormed(slots)
  {
    && (id in Shown(slots) ==> labels == Shown(slots)[id].labels)
    && (id in slots.byIssue ==> labels == Some(slots.byIssue[id]))
  }

  /** A patch that names labels names those of the label slot, if the patched issue is still cached. */
  ghost predicate PatchAgrees(slots: Slots, id: Id, patch: Patch)
    requires ListWellFormed(slots)
  {
    patch.labels.Some? && KnownAfter(slots, id, patch) && id in slots.byIssue ==> patch.labels.value == slots.byIssue[id]
  }

  ghost predicate BeginBrings(slots: Slots, m: Mutation)
    requires ListWellFormed(slots)
  {
    match m
    case Update(id, patch) => PatchAgrees(slots, id, patch)
    case BatchUpdate(ids, patch) =>
      patch.labels.Some? ==>
        forall id :: id in IdSet(ids) && id in Shown(slots) && Visible(Merge(Shown(slots)[id], patch).status) ==>
          LikeSlots(slots, id, patch.labels)
    case _ => true
  }

  /** The snapshots that a rollback writes back agree with the slots that it leaves alone. */
  ghost predicate FailBrings(slots: Slots, ctx: Context)
    requires ListWellFormed(slots)
  {
    match ctx
    case OfUpdate(c, _) =>
      var detail := if c.prevDetail.Some? then slots.detail[c.id := c.prevDetail.value] else slots.detail;
      && (c.prevList.Some? ==> ListAgrees(c.prevList.value, slots.(detail := detail)))
      && (c.prevList.None? && c.prevDetail.Some? && c.id in Shown(slots) ==>
            c.prevDetail.value.labels == Shown(slots)[c.id].labels)
      && (c.prevDetail.Some? && c.id in slots.byIssue ==> c.prevDetail.value.labels == Some(slots.byIssue[c.id]))
    case OfBatch(c) => c.prevList.Some? ==> ListAgrees(c.prevList.value, slots)
    case OfDelete(c) => c.prevList.Some? ==> ListAgrees(c.prevList.value, slots)
    case OfLabels(_, _) => true
  }

  ghost predicate WriteBrings(slots: Slots, w: Write)
    requires ListWellFormed(slots)
  {
    match w
    case CreateSuccess(issue) => CreationAgrees(slots, issue)
    case Created(issue) => CreationAgrees(slots, issue)
    case Updated(id, patch) => PatchAgrees(slots, id, patch)
    case FetchedList(list) => ListAgrees(list, slots)
    case FetchedDetail(id, issue) => DetailAgrees(slots, id, issue.labels)
    case FetchedLabels(id, labels) =>
      && (id in Shown(slots) ==> Shown(slots)[id].labels == Some(labels))
      && (id in slots.detail ==> slots.detail[id].labels == Some(labels))
    case _ => true
  }

  ghost predicate CreationAgrees(slots: Slots, issue: Issue)
    requires ListWellFormed(slots)
  {
    slots.list.Some? ==>
      && (NotElsewhere(slots.list.value, issue) || HasId(IssuesAt(slots.list.value, issue.status), issue.id))
      && (Visible(issue.status) && issue.id !in Shown(slots) ==> LikeSlots(slots, issue.id, issue.labels))
  }

  /** What an event must bring so that the copies still agree after it. */
  ghost predicate Brings(r: Run, e: Event)
    requires ListWellFormed(r.state.slots)
  {
    match e
    case Start(_, mutation) => BeginBrings(r.state.slots, mutation)
    case Error(m) => m in r.pending ==> FailBrings(r.state.slots, r.pending[m].ctx)
    case Settled(_) => true
    case Foreign(w) => WriteBrings(r.state.slots, w)
  }

  /** A step that leaves all other issues as they are keeps agreement just when it leaves its own issue's copies equal. */
  lemma AgreeAt(slots: Slots, t: Slots, id: Id)
    requires AllAgree(slots) && ListWellFormed(t)
    requires forall i :: i != id ==> (i in Shown(t) ==> i in Shown(slots) && Shown(t)[i] == Shown(slots)[i])
    requires forall i :: i != id ==> (i in t.detail ==> i in slots.detail && t.detail[i] == slots.detail[i])
    requires forall i :: i != id ==> (i in t.byIssue ==> i in slots.byIssue && t.byIssue[i] == slots.byIssue[i])
    ensures AllAgree(t) <==> Agree(Shown(t), t.detail, t.byIssue, id)
  {
    forall i | i != id ensures Agree(Shown(t), t.detail, t.byIssue, i) {
      assert Agree(Shown(slots), slots.detail, slots.byIssue, i);
    }
  }

  lemma PatchedCopiesAgreeWhen(shown: map<Id, Issue>, detail: map<Id, Issue>, byIssue: map<Id, seq<Label>>, id: Id, patch: Patch)
    requires Agree(shown, detail, byIssue, id)
    ensures Agree(PatchTable(shown, id, patch), MergeDetail(detail, id, patch), byIssue, id) <==>
              (patch.labels.Some? && (id in detail || (id in shown && Visible(Merge(shown[id], patch).status))) && id in byIssue ==>
                 patch.labels.value == byIssue[id])
  {
  }

  lemma PatchAgreesWhen(slots: Slots, t: Slots, id: Id, patch: Patch)
    requires AllAgree(slots) && ListWellFormed(t) && t.byIssue == slots.byIssue
    requires Shown(t) == PatchTable(Shown(slots), id, patch) && t.detail == MergeDetail(slots.detail, id, patch)
    ensures AllAgree(t) <==> PatchAgrees(slots, id, patch)
  {
    assert Agree(Shown(slots), slots.detail, slots.byIssue, id);
    PatchedCopiesAgreeWhen(Shown(slots), slots.detail, slots.byIssue, id, patch);
    AgreeAt(slots, t, id);
  }

  /** A list in place of the old one. */
  lemma ListAgreesWhen(slots: Slots, list: ListCache)
    requires forall id :: Agree(map[], slots.detail, slots.byIssue, id)
    ensures AllAgree(slots.(list := Some(list))) <==> ListAgrees(list, slots)
  {
    var t := slots.(list := Some(list));
    if WellFormed(list) {
      assert Shown(t) == Table(list);
      forall id ensures Agree(Table(list), t.detail, t.byIssue, id) <==>
                          (id in Table(list) ==> LikeSlots(slots, id, Table(list)[id].labels)) {
        assert Agree(map[], slots.detail, slots.byIssue, id);
      }
      if AllAgree(t) {
        forall id | id in Table(list) ensures LikeSlots(slots, id, Table(list)[id].labels) {
          assert Agree(Shown(t), t.detail, t.byIssue, id);
        }
      }
    }
  }

  lemma SlotsAgree(slots: Slots)
    requires AllAgree(slots)
    ensures forall id :: Agree(map[], slots.detail, slots.byIssue, id)
  {
    forall id ensures Agree(map[], slots.detail, slots.byIssue, id) {
      assert Agree(Shown(slots), slots.detail, slots.byIssue, id);
    }
  }

  lemma DetailAgreesWhen(slots: Slots, id: Id, issue: Issue)
    requires AllAgree(slots)
    ensures AllAgree(slots.(detail := slots.detail[id := issue])) <==> DetailAgrees(slots, id, issue.labels)
  {
    var t := slots.(detail := slots.detail[id := issue]);
    assert Shown(t) == Shown(slots);
    AgreeAt(slots, t, id);
    assert Agree(Shown(slots), slots.detail, slots.byIssue, id);
  }

  lemma LabelsAgreeWhen(slots: Slots, id: Id, labels: seq<Label>)
    requires AllAgree(slots)
    ensures AllAgree(slots.(byIssue := slots.byIssue[id := labels])) <==> WriteBrings(slots, FetchedLabels(id, labels))
  {
    var t := slots.(byIssue := slots.byIssue[id := labels]);
    assert Shown(t) == Shown(slots);
    forall i ensures Agree(Shown(slots), slots.detail, t.byIssue, i) <==> (i == id ==> WriteBrings(slots, FetchedLabels(id, labels))) {
      assert Agree(Shown(slots), slots.detail, slots.byIssue, i);
    }
    assert AllAgree(t) ==> Agree(Shown(t), t.detail, t.byIssue, id);
  }

  lemma AddedCopiesAgreeWhen(shown: map<Id, Issue>, slots: Slots, issue: Issue)
    requires Agree(shown, slots.detail, slots.byIssue, issue.id)
    ensures Agree(AddTable(shown, issue), slots.detail, slots.byIssue, issue.id) <==>
              (Visible(issue.status) && issue.id !in shown ==> LikeSlots(slots, issue.id, issue.labels))
  {
  }

  lemma CreationAgreesWhen(s: State, issue: Issue)
    requires AllAgree(s.slots)
    ensures CreateSucceeded(s, issue).slots == OnIssueCreated(s, issue).slots == AddToList(s, issue).slots
    ensures AllAgree(AddToList(s, issue).slots) <==> CreationAgrees(s.slots, issue)
  {
    var t := AddToList(s, issue).slots;
    if s.slots.list.Some? {
      AddKeepsInvariant(s.slots.list.value, issue);
    }
    if s.slots.list.Some? && ListWellFormed(t) {
      CreatedShows(s, issue);
      assert Agree(Shown(s.slots), s.slots.detail, s.slots.byIssue, issue.id);
      AddedCopiesAgreeWhen(Shown(s.slots), s.slots, issue);
      AgreeAt(s.slots, t, issue.id);
    }
  }

  /** Fewer copies agree if all did. */
  lemma FewerAgree(slots: Slots, t: Slots)
    requires AllAgree(slots) && ListWellFormed(t) && t.byIssue == slots.byIssue
    requires forall i :: i in Shown(t) ==> i in Shown(slots) && Shown(t)[i] == Shown(slots)[i]
    requires forall i :: i in t.detail ==> i in slots.detail && t.detail[i] == slots.detail[i]
    ensures AllAgree(t)
  {
    forall i ensures Agree(Shown(t), t.detail, t.byIssue, i) {
      assert Agree(Shown(slots), slots.detail, slots.byIssue, i);
    }
  }

  // -------------------------------------------------- the starting mutations

  lemma BatchUpdateAgreesWhen(slots: Slots, t: Slots, ids: set<Id>, patch: Patch)
    requires AllAgree(slots) && ListWellFormed(t) && t.byIssue == slots.byIssue && t.detail == slots.detail
    requires Shown(t) == PatchTableAll(Shown(slots), ids, patch)
    ensures AllAgree(t) <==>
              (patch.labels.Some? ==>
                 forall id :: id in ids && id in Shown(slots) && Visible(Merge(Shown(slots)[id], patch).status) ==>
                   LikeSlots(slots, id, patch.labels))
  {
    forall id ensures Agree(Shown(t), t.detail, t.byIssue, id) <==>
        (patch.labels.Some? && id in ids && id in Shown(slots) && Visible(Merge(Shown(slots)[id], patch).status) ==>
           LikeSlots(slots, id, patch.labels)) {
      assert Agree(Shown(slots), slots.detail, slots.byIssue, id);
    }
    if AllAgree(t) {
      forall id | patch.labels.Some? && id in ids && id in Shown(slots) && Visible(Merge(Shown(slots)[id], patch).status)
        ensures LikeSlots(slots, id, patch.labels)
      {
        assert Agree(Shown(t), t.detail, t.byIssue, id);
      }
    }
  }

  lemma BatchSlots(s: State, ids: seq<Id>, patch: Patch)
    requires ListWellFormed(s.slots)
    ensures var t := BeginBatchUpdate(s, ids, patch).slots;
            && ListWellFormed(t) && t.byIssue == s.slots.byIssue && t.detail == s.slots.detail
            && Shown(t) == PatchTableAll(Shown(s.slots), IdSet(ids), patch)
    ensures var t := BeginBatchDelete(s, ids).slots;
            && ListWellFormed(t) && t.byIssue == s.slots.byIssue && t.detail == s.slots.detail
            && Shown(t) == Shown(s.slots) - IdSet(ids)
  {
    var affected := Affected(s.slots, s.slots.order, IdSet(ids));
    var s1 := if s.slots.list.None? then s else SetList(s, PatchAll(s.slots.list.value, ids, patch));
    WriteEachIs(s1, affected, MergedRows(s.slots, affected, IdSet(ids), patch));
    WriteEachIs(s, affected, RemainingRows(s.slots, affected, IdSet(ids)));
    if s.slots.list.Some? {
      BatchPatchIsBySet(s.slots.list.value, ids, patch);
      BatchRemoveIsBySet(s.slots.list.value, ids);
    } else {
      assert Shown(s.slots) - IdSet(ids) == Shown(s.slots);
    }
  }

  lemma BeginAgreesWhen(s: State, m: Mutation)
    requires AllAgree(s.slots)
    ensures AllAgree(Begin(s, m).slots) <==> BeginBrings(s.slots, m)
  {
    match m
    case Update(id, patch) =>
      SlotsAfterBegin(s, id, patch);
      PatchListShows(s, id, patch);
      PatchAgreesWhen(s.slots, Begin(s, m).slots, id, patch);
    case BatchUpdate(ids, patch) =>
      BatchSlots(s, ids, patch);
      BatchUpdateAgreesWhen(s.slots, Begin(s, m).slots, IdSet(ids), patch);
    case BatchDelete(ids) =>
      BatchSlots(s, ids, NO_PATCH);
      FewerAgree(s.slots, Begin(s, m).slots);
    case Delete(id) =>
      SlotsAfterDelete(s, id);
      RemoveShown(s.slots, id);
      FewerAgree(s.slots, Begin(s, m).slots);
    case Attach(issueId, labelId, known) =>
      WriteKeepsAgreement(s, issueId, AttachTarget(Cached(s, issueId), labelId, known));
    case Detach(issueId, labelId) =>
      var prev := Cached(s, issueId);
      WriteKeepsAgreement(s, issueId, if prev.Some? then Some(DropLabel(prev.value, labelId)) else None);
  }

  // ------------------------------------------------------------ the rollbacks

  lemma SlotsAfterFail(s: State, ctx: Context)
    ensures !ctx.OfLabels? ==>
              var t := Fail(s, ctx).slots;
              var prevList := if ctx.OfUpdate? then ctx.update.prevList else if ctx.OfBatch? then ctx.batch.prevList else ctx.delete.prevList;
              && t.byIssue == s.slots.byIssue
              && t.list == (if prevList.Some? then prevList else s.slots.list)
              && t.detail == if ctx.OfUpdate? && ctx.update.prevDetail.Some?
                             then s.slots.detail[ctx.update.id := ctx.update.prevDetail.value] else s.slots.detail
  {
    if ctx.OfBatch? {
      var c := ctx.batch;
      WriteEachIs(if c.prevList.Some? then SetList(s, c.prevList.value) else s, c.written, c.prevChildren);
    }
  }

  /** The list and the detail slot put back, with the label slots as they are. */
  lemma PutBackAgreesWhen(slots: Slots, prevList: Option<ListCache>, id: Id, prevDetail: Option<Issue>)
    requires AllAgree(slots)
    ensures var detail := if prevDetail.Some? then slots.detail[id := prevDetail.value] else slots.detail;
            AllAgree(slots.(list := if prevList.Some? then prevList else slots.list, detail := detail)) <==>
              && (prevList.Some? ==> ListAgrees(prevList.value, slots.(detail := detail)))
              && (prevList.None? && prevDetail.Some? && id in Shown(slots) ==> prevDetail.value.labels == Shown(slots)[id].labels)
              && (prevDetail.Some? && id in slots.byIssue ==> prevDetail.value.labels == Some(slots.byIssue[id]))
  {
    var detail := if prevDetail.Some? then slots.detail[id := prevDetail.value] else slots.detail;
    var slots' := slots.(detail := detail);
    if prevList.None? {
      if prevDetail.Some? {
        DetailAgreesWhen(slots, id, prevDetail.value);
      }
    } else if prevDetail.Some? && id in slots.byIssue && prevDetail.value.labels != Some(slots.byIssue[id]) {
      var t := slots'.(list := prevList);
      if ListWellFormed(t) {
        assert !Agree(Shown(t), t.detail, t.byIssue, id);
      }
    } else {
      forall i ensures Agree(map[], slots'.detail, slots'.byIssue, i) {
        assert Agree(Shown(slots), slots.detail, slots.byIssue, i);
      }
      ListAgreesWhen(slots', prevList.value);
    }
  }

  lemma ListBackAgreesWhen(slots: Slots, prevList: Option<ListCache>)
    requires AllAgree(slots)
    ensures AllAgree(slots.(list := if prevList.Some? then prevList else slots.list)) <==>
              (prevList.Some? ==> ListAgrees(prevList.value, slots))
  {
    if prevList.Some? {
      SlotsAgree(slots);
      ListAgreesWhen(slots, prevList.value);
    }
  }

  /** Agreement is about the list, the detail slots and the label slots. */
  lemma SameCopies(t: Slots, u: Slots)
    requires t.list == u.list && t.detail == u.detail && t.byIssue == u.byIssue
    ensures AllAgree(t) <==> AllAgree(u)
  {
    if ListWellFormed(t) {
      assert Shown(t) == Shown(u);
    }
  }

  lemma FailAgreesWhen(s: State, ctx: Context)
    requires AllAgree(s.slots)
    ensures AllAgree(Fail(s, ctx).slots) <==> FailBrings(s.slots, ctx)
  {
    SlotsAfterFail(s, ctx);
    match ctx
    case OfUpdate(c, _) =>
      var detail := if c.prevDetail.Some? then s.slots.detail[c.id := c.prevDetail.value] else s.slots.detail;
      PutBackAgreesWhen(s.slots, c.prevList, c.id, c.prevDetail);
      SameCopies(Fail(s, ctx).slots, s.slots.(list := if c.prevList.Some? then c.prevList else s.slots.list, detail := detail));
    case OfBatch(c) =>
      ListBackAgreesWhen(s.slots, c.prevList);
      SameCopies(Fail(s, ctx).slots, s.slots.(list := if c.prevList.Some? then c.prevList else s.slots.list));
    case OfDelete(c) =>
      ListBackAgreesWhen(s.slots, c.prevList);
      SameCopies(Fail(s, ctx).slots, s.slots.(list := if c.prevList.Some? then c.prevList else s.slots.list));
    case OfLabels(issueId, prev) => WriteKeepsAgreement(s, issueId, prev);
  }

  // -------------------------------------------------------- the other writers

  lemma ApplyAgreesWhen(s: State, w: Write)
    requires AllAgree(s.slots)
    ensures AllAgree(Apply(s, w).slots) <==> WriteBrings(s.slots, w)
  {
    match w
    case CreateSuccess(issue) => CreationAgreesWhen(s, issue);
    case Created(issue) => CreationAgreesWhen(s, issue);
    case Updated(id, patch) =>
      UpdatedTables(s, id, patch);
      PatchAgreesWhen(s.slots, Apply(s, w).slots, id, patch);
    case LabelsChanged(id, labels) => EventKeepsAgreement(s, id, labels);
    case LabelsReply(id, labels) => WriteKeepsAgreement(s, id, Some(labels));
    case Deleted(id) =>
      SlotsAfterDelete(s, id);
      RemoveShown(s.slots, id);
      FewerAgree(s.slots, Apply(s, w).slots);
    case FetchedList(list) =>
      SlotsAgree(s.slots);
      ListAgreesWhen(s.slots, list);
    case FetchedDetail(id, issue) => DetailAgreesWhen(s.slots, id, issue);
    case FetchedChildren(_, _) => SameCopies(Apply(s, w).slots, s.slots);
    case FetchedLabels(id, labels) => LabelsAgreeWhen(s.slots, id, labels);
    case Invalidated(_) =>
  }

  // -------------------------------------------------------------------- runs

  /** Agreement survives a step exactly when its event brings it; label steps always do. */
  lemma NextAgreesWhen(r: Run, e: Event)
    requires AllAgree(r.state.slots) && Enabled(r, e)
    ensures AllAgree(Next(r, e).state.slots) <==> Brings(r, e)
  {
    match e
    case Start(_, mutation) => BeginAgreesWhen(r.state, mutation);
    case Error(m) => FailAgreesWhen(r.state, r.pending[m].ctx);
    case Settled(m) => SettleKeepsSlots(r.state, r.pending[m].ctx);
    case Foreign(w) => ApplyAgreesWhen(r.state, w);
  }

  lemma SettleKeepsSlots(s: State, ctx: Context)
    ensures Settle(s, ctx).slots == s.slots
  {
  }

  ghost predicate AgreedUpTo(runs: seq<Run>, n: nat)
    requires n <= |runs|
  {
    forall j: nat :: j < n ==> AllAgree(runs[j].state.slots)
  }

  ghost predicate BroughtAt(runs: seq<Run>, events: seq<Event>, j: nat)
    requires j < |events| < |runs|
  {
    ListWellFormed(runs[j].state.slots) && Brings(runs[j], events[j])
  }

  ghost predicate BroughtUpTo(runs: seq<Run>, events: seq<Event>, n: nat)
    requires n <= |events| < |runs|
  {
    forall j: nat :: j < n ==> BroughtAt(runs, events, j)
  }

  lemma AgreedSnoc(runs: seq<Run>, n: nat)
    requires n < |runs|
    ensures AgreedUpTo(runs, n + 1) <==> AgreedUpTo(runs, n) && AllAgree(runs[n].state.slots)
  {
  }

  lemma BroughtSnoc(runs: seq<Run>, events: seq<Event>, n: nat)
    requires n < |events| < |runs|
    ensures BroughtUpTo(runs, events, n + 1) <==> BroughtUpTo(runs, events, n) && BroughtAt(runs, events, n)
  {
  }

  lemma AgreedStep(runs: seq<Run>, events: seq<Event>, n: nat)
    requires IsRun(runs, events) && n < |events| && AllAgree(runs[n].state.slots)
    ensures AllAgree(runs[n + 1].state.slots) <==> BroughtAt(runs, events, n)
  {
    NextAgreesWhen(runs[n], events[n]);
  }

  /**
   Over any run of issue and label mutations, events, replies and fetches, the list
   entry, the detail slot and the label slot of every issue carry the same labels
   throughout if and only if they did at the start and each event brought labels
   that agree: no attach, detach, label reply, label event or label rollback ever
   breaks it, and a rollback of an issue mutation just when its snapshots disagree
   with the slots it leaves alone.
   */
  lemma {:induction false} LabelsAlwaysAgree(runs: seq<Run>, events: seq<Event>, n: nat)
    requires IsRun(runs, events) && n < |runs|
    ensures AgreedUpTo(runs, n + 1) <==> AllAgree(runs[0].state.slots) && BroughtUpTo(runs, events, n)
  {
    AgreedSnoc(runs, n);
    if n > 0 {
      LabelsAlwaysAgree(runs, events, n - 1);
      AgreedSnoc(runs, n - 1);
      BroughtSnoc(runs, events, n - 1);
      if AgreedUpTo(runs, n) {
        AgreedStep(runs, events, n - 1);
      }
    }
  }

  lemma RelabelledThenFailed(s: State, x: Id, p: Patch, y: Id, labels: seq<Label>)
    requires AllAgree(s.slots) && x != y && y in Shown(s.slots) && y in s.slots.detail && Shown(s.slots)[y].labels != Some(labels)
    ensures !AllAgree(Fail(OnIssueLabelsChanged(BeginUpdate(s, x, p), y, labels), OfUpdate(UpdateContextOf(s.slots, x), p)).slots)
  {
    var s1 := BeginUpdate(s, x, p);
    var s2 := OnIssueLabelsChanged(s1, y, labels);
    var ctx := OfUpdate(UpdateContextOf(s.slots, x), p);
    var t := Fail(s2, ctx).slots;
    assert y in s2.slots.detail && s2.slots.detail[y].labels == Some(labels) by {
      SlotsAfterBegin(s, x, p);
      SlotsAfterLabels(s1, y, labels);
    }
    SlotsAfterFail(s2, ctx);
    assert Shown(t) == Shown(s.slots);
    assert !Agree(Shown(t), t.detail, t.byIssue, y);
  }

  lemma RelabelRun(s: State, x: Id, p: Patch, y: Id, labels: seq<Label>) returns (runs: seq<Run>)
    ensures IsRun(runs, [Start(0, Update(x, p)), Foreign(LabelsChanged(y, labels)), Error(0)]) && runs[0].state == s
    ensures runs[3].state == Fail(OnIssueLabelsChanged(BeginUpdate(s, x, p), y, labels), OfUpdate(UpdateContextOf(s.slots, x), p))
  {
    var r0 := Run(s, map[]);
    var r1 := Run(BeginUpdate(s, x, p), map[0 := Pending(OfUpdate(UpdateContextOf(s.slots, x), p), false)]);
    var r2 := r1.(state := OnIssueLabelsChanged(r1.state, y, labels));
    runs := [r0, r1, r2, Next(r2, Error(0))];
    StepsAreRun(runs, [Start(0, Update(x, p)), Foreign(LabelsChanged(y, labels)), Error(0)]);
  }

  /**
   The rollback of an issue mutation can break it: while an update of `x` is under
   way, an event relabels `y`; the failed update puts the old list back, `y` with its
   old labels, and the detail slot keeps the new ones.
   */
  lemma StaleSnapshotDisagrees(s: State, x: Id, p: Patch, y: Id, labels: seq<Label>) returns (runs: seq<Run>)
    requires AllAgree(s.slots) && x != y && y in Shown(s.slots) && y in s.slots.detail && Shown(s.slots)[y].labels != Some(labels)
    ensures IsRun(runs, [Start(0, Update(x, p)), Foreign(LabelsChanged(y, labels)), Error(0)])
    ensures runs[0].state == s && !AllAgree(runs[3].state.slots)
  {
    runs := RelabelRun(s, x, p, y, labels);
    RelabelledThenFailed(s, x, p, y, labels);
  }

  /** When the copies agree, an attach or detach that fails with no write between restores every slot. */
  lemma LabelRollbackIsExact(s: State, id: Id, labels: seq<Label>)
    requires AllAgree(s.slots) && id in s.slots.byIssue
    ensures WriteIfSome(WriteLabels(s, id, labels), id, Cached(s, id)).slots == s.slots
  {
    var prev := s.slots.byIssue[id];
    assert Agree(Shown(s.slots), s.slots.detail, s.slots.byIssue, id);
    if s.slots.list.Some? {
      RelabelBack(s.slots.list.value, id, labels, prev);
    }
    DetailBack(s.slots.detail, id, labels, prev);
    LabelsBack(s.slots.byIssue, id, labels);
    SlotsAfterWrite(s, id, labels);
    SlotsAfterWrite(WriteLabels(s, id, labels), id, prev);
  }

  lemma DetailBack(detail: map<Id, Issue>, id: Id, labels: seq<Label>, prev: seq<Label>)
    requires id in detail ==> detail[id].labels == Some(prev)
    ensures Relabel(Relabel(detail, id, labels), id, prev) == detail
  {
  }

  lemma LabelsBack(byIssue: map<Id, seq<Label>>, id: Id, labels: seq<Label>)
    requires id in byIssue
    ensures byIssue[id := labels][id := byIssue[id]] == byIssue
  {
  }

  lemma SlotsAfterWrite(s: State, id: Id, labels: seq<Label>)
    ensures WriteLabels(s, id, labels).slots ==
            s.slots.(
              list := if s.slots.list.None? then None
                      else Some(PatchIssue(s.slots.list.value, id, NO_PATCH.(labels := Some(labels)))),
              detail := Relabel(s.slots.detail, id, labels),
              byIssue := s.slots.byIssue[id := labels])
  {
    var s1 := SetByIssue(s, id, labels);
    SlotsAfterLabels(s1, id, labels);
    assert s1.slots.byIssue[id := labels] == s.slots.byIssue[id := labels];
  }
}
