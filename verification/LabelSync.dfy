/**
 Attaching and detaching labels: the same label set is cached in three places,
 and every step of the two mutations and of the WebSocket event writes all three
 (packages/core/labels/mutations.ts:99-171, packages/core/issues/ws-updaters.ts:87-103).
 */
module LabelSync {
  import opened Wrappers
  import opened IssueCache
  import opened IssueCacheLaws
  import opened IssueQueries
  import opened QueryClients
  import Sorting

  // ------------------------------------------------------------------- steps

  predicate HasLabel(labels: seq<Label>, id: Id) {
    exists l :: l in labels && l.id == id
  }

  function FindLabel(labels: seq<Label>, id: Id): Option<Label> {
    if labels == [] then None else if labels[0].id == id then Some(labels[0]) else FindLabel(labels[1..], id)
  }

  function DropLabel(labels: seq<Label>, id: Id): seq<Label> {
    if labels == [] then []
    else if labels[0].id == id then DropLabel(labels[1..], id)
    else [labels[0]] + DropLabel(labels[1..], id)
  }

  function Cached(s: State, issueId: Id): Option<seq<Label>> {
    if issueId in s.slots.byIssue then Some(s.slots.byIssue[issueId]) else None
  }

  /** Writes the issue's own slot and then the copies. */
  function WriteLabels(s: State, issueId: Id, labels: seq<Label>): State {
    OnIssueLabelsChanged(SetByIssue(s, issueId, labels), issueId, labels)
  }

  /** What an attach writes at once; nothing unless the set is cached, lacks the label, and the label is known. */
  function AttachTarget(prev: Option<seq<Label>>, labelId: Id, known: Option<seq<Label>>): Option<seq<Label>> {
    if prev.None? || HasLabel(prev.value, labelId) || known.None? then None
    else
      var found := FindLabel(known.value, labelId);
      if found.None? then None else Some(prev.value + [found.value])
  }

  function WriteIfSome(s: State, issueId: Id, labels: Option<seq<Label>>): State {
    if labels.Some? then WriteLabels(s, issueId, labels.value) else s
  }

  function BeginAttach(s: State, issueId: Id, labelId: Id, known: Option<seq<Label>>): State {
    WriteIfSome(s, issueId, AttachTarget(Cached(s, issueId), labelId, known))
  }

  function BeginDetach(s: State, issueId: Id, labelId: Id): State {
    var prev := Cached(s, issueId);
    WriteIfSome(s, issueId, if prev.Some? then Some(DropLabel(prev.value, labelId)) else None)
  }

  /** The hooks for one issue, as `useAttachLabel` and `useDetachLabel` make them. */
  class LabelHooks {
    const qc: QueryClient
    const issueId: Id

    constructor (qc: QueryClient, issueId: Id)
      ensures this.qc == qc && this.issueId == issueId
    {
      this.qc := qc;
      this.issueId := issueId;
    }

    method Write(labels: seq<Label>)
      modifies qc
      ensures qc.Now() == WriteLabels(old(qc.Now()), issueId, labels)
    {
      qc.WriteByIssue(issueId, labels);
      qc.IssueLabelsChanged(issueId, labels);
    }

    method OnAttach(labelId: Id, known: Option<seq<Label>>) returns (prev: Option<seq<Label>>)
      modifies qc
      ensures prev == old(Cached(qc.Now(), issueId))
      ensures qc.Now() == BeginAttach(old(qc.Now()), issueId, labelId, known)
    {
      if issueId !in qc.slots.byIssue {
        return None;
      }
      var labels := qc.slots.byIssue[issueId];
      prev := Some(labels);
      if HasLabel(labels, labelId) {
        return;
      }
      var found := if known.Some? then FindLabel(known.value, labelId) else None;
      if found.None? {
        return;
      }
      Write(labels + [found.value]);
    }

    method OnDetach(labelId: Id) returns (prev: Option<seq<Label>>)
      modifies qc
      ensures prev == old(Cached(qc.Now(), issueId))
      ensures qc.Now() == BeginDetach(old(qc.Now()), issueId, labelId)
    {
      prev := if issueId in qc.slots.byIssue then Some(qc.slots.byIssue[issueId]) else None;
      if prev.Some? {
        Write(DropLabel(prev.value, labelId));
      }
    }

    method OnError(prev: Option<seq<Label>>)
      modifies qc
      ensures qc.Now() == WriteIfSome(old(qc.Now()), issueId, prev)
    {
      if prev.Some? {
        Write(prev.value);
      }
    }

    /** The reply may come without a label set. */
    method OnAttachSuccess(data: Option<seq<Label>>)
      modifies qc
      ensures qc.Now() == WriteIfSome(old(qc.Now()), issueId, data)
    {
      if data.Some? {
        Write(data.value);
      }
    }

    method OnSettled()
      modifies qc
      ensures qc.Now() == Invalidate(old(qc.Now()), ByIssueKey(issueId))
    {
      qc.InvalidateQuery(ByIssueKey(issueId));
    }
  }

  // ---------------------------------------------------- what a write shows

  function Relabel(issues: map<Id, Issue>, id: Id, labels: seq<Label>): map<Id, Issue> {
    if id in issues then issues[id := issues[id].(labels := Some(labels))] else issues
  }

  lemma RelabelInTable(c: ListCache, id: Id, labels: seq<Label>)
    requires WellFormed(c)
    ensures var c' := PatchIssue(c, id, NO_PATCH.(labels := Some(labels)));
            WellFormed(c') && Table(c') == Relabel(Table(c), id, labels)
  {
    HelpersRefineTable(c, id, NO_PATCH.(labels := Some(labels)));
    if id in Table(c) {
      assert Shows(c, Table(c), id);
    }
  }

  lemma SlotsAfterLabels(s: State, id: Id, labels: seq<Label>)
    ensures OnIssueLabelsChanged(s, id, labels).slots ==
            s.slots.(
              list := if s.slots.list.None? then None
                      else Some(PatchIssue(s.slots.list.value, id, NO_PATCH.(labels := Some(labels)))),
              detail := Relabel(s.slots.detail, id, labels),
              byIssue := if id in s.slots.byIssue then s.slots.byIssue[id := labels] else s.slots.byIssue)
  {
  }

  /** A label write changes the labels of its issue wherever it is cached, and nothing else. */
  lemma LabelsChangedWrites(s: State, id: Id, labels: seq<Label>)
    requires ListWellFormed(s.slots)
    ensures var t := OnIssueLabelsChanged(s, id, labels).slots;
            && ListWellFormed(t)
            && Shown(t) == Relabel(Shown(s.slots), id, labels)
            && t.detail == Relabel(s.slots.detail, id, labels)
            && t.byIssue == (if id in s.slots.byIssue then s.slots.byIssue[id := labels] else s.slots.byIssue)
  {
    SlotsAfterLabels(s, id, labels);
    if s.slots.list.Some? {
      RelabelInTable(s.slots.list.value, id, labels);
    }
  }

  // ------------------------------------------------ what the steps come to

  lemma {:induction false} DropLabelMembers(labels: seq<Label>, id: Id)
    ensures forall l :: l in DropLabel(labels, id) <==> l in labels && l.id != id
    ensures !HasLabel(labels, id) ==> DropLabel(labels, id) == labels
  {
    if labels != [] {
      DropLabelMembers(labels[1..], id);
      assert labels == [labels[0]] + labels[1..];
    }
  }

  lemma {:induction false} FindLabelFinds(labels: seq<Label>, id: Id)
    ensures if FindLabel(labels, id).Some? then FindLabel(labels, id).value in labels && FindLabel(labels, id).value.id == id
            else !HasLabel(labels, id)
  {
    if labels != [] {
      FindLabelFinds(labels[1..], id);
      assert labels == [labels[0]] + labels[1..];
    }
  }

  /**
   An attach shows the new label at once wherever the issue is cached, in the
   order of the old set, exactly when it has a set to add to; a detach of the
   same label takes it out again.
   */
  lemma AttachThenDetach(s: State, issueId: Id, labelId: Id, known: Option<seq<Label>>)
    requires issueId in s.slots.byIssue && !HasLabel(s.slots.byIssue[issueId], labelId)
    requires known.Some? && HasLabel(known.value, labelId)
    ensures var s1 := BeginAttach(s, issueId, labelId, known);
            var added := FindLabel(known.value, labelId);
            && added.Some? && Cached(s1, issueId) == Some(s.slots.byIssue[issueId] + [added.value])
            && issueId in s1.slots.byIssue && HasLabel(s1.slots.byIssue[issueId], labelId)
            && Cached(BeginDetach(s1, issueId, labelId), issueId) == Cached(s, issueId)
  {
    var labels := s.slots.byIssue[issueId];
    FindLabelFinds(known.value, labelId);
    var found := FindLabel(known.value, labelId).value;
    assert found in labels + [found];
    assert DropLabel(labels + [found], labelId) == labels by {
      DropLabelSnoc(labels, found);
      DropLabelMembers(labels, labelId);
    }
    assert Cached(WriteLabels(s, issueId, labels + [found]), issueId) == Some(labels + [found]);
  }

  /** `DropLabel` is the filter that leaves the label out. */
  lemma {:induction false} DropLabelFilters(labels: seq<Label>, id: Id)
    ensures DropLabel(labels, id) == Sorting.Filter(labels, (l: Label) => l.id != id)
  {
    if labels != [] {
      DropLabelFilters(labels[1..], id);
      Sorting.FilterCons(labels[0], labels[1..], (l: Label) => l.id != id);
      assert labels == [labels[0]] + labels[1..];
    }
  }

  /**
   Without a cached set an attach and a detach write nothing, and an attach writes
   nothing either when the set has the label or nobody knows it; a detach leaves
   the other labels in their order.
   */
  lemma LabelWritesWhen(s: State, issueId: Id, labelId: Id, known: Option<seq<Label>>)
    ensures issueId !in s.slots.byIssue ==> BeginAttach(s, issueId, labelId, known) == s == BeginDetach(s, issueId, labelId)
    ensures issueId in s.slots.byIssue ==>
              && (HasLabel(s.slots.byIssue[issueId], labelId) || known.None? || !HasLabel(known.value, labelId) ==>
                    BeginAttach(s, issueId, labelId, known) == s)
              && Cached(BeginDetach(s, issueId, labelId), issueId) ==
                   Some(Sorting.Filter(s.slots.byIssue[issueId], (l: Label) => l.id != labelId))
  {
    if issueId in s.slots.byIssue {
      var rest := DropLabel(s.slots.byIssue[issueId], labelId);
      DropLabelFilters(s.slots.byIssue[issueId], labelId);
      SlotsAfterLabels(SetByIssue(s, issueId, rest), issueId, rest);
      if known.Some? {
        FindLabelFinds(known.value, labelId);
      }
    }
  }

  lemma {:induction false} DropLabelSnoc(labels: seq<Label>, found: Label)
    ensures DropLabel(labels + [found], found.id) == DropLabel(labels, found.id)
  {
    if labels == [] {
      assert [found][1..] == [];
    } else {
      assert (labels + [found])[1..] == labels[1..] + [found];
      DropLabelSnoc(labels[1..], found);
    }
  }

  /** A write shows the same labels in every place where the issue is cached, and touches no other issue. */
  lemma WriteShowsEverywhere(s: State, id: Id, labels: seq<Label>)
    requires ListWellFormed(s.slots)
    ensures var t := WriteLabels(s, id, labels).slots;
            && t.byIssue == s.slots.byIssue[id := labels]
            && ListWellFormed(t) && Shown(t) == Relabel(Shown(s.slots), id, labels)
            && t.detail == Relabel(s.slots.detail, id, labels)
            && t.children == s.slots.children && t.order == s.slots.order
  {
    var s1 := SetByIssue(s, id, labels);
    LabelsChangedWrites(s1, id, labels);
  }

  lemma {:induction false} ReplaceTwice(issues: seq<Issue>, id: Id, a: Issue, b: Issue)
    requires a.id == id && b.id == id
    ensures Replace(Replace(issues, id, a), id, b) == Replace(issues, id, b)
  {
    if issues != [] {
      var front := issues[..|issues| - 1];
      ReplaceTwice(front, id, a, b);
      ReplaceAt(front, id, a);
      assert Replace(issues, id, a)[..|front|] == Replace(front, id, a);
    }
  }

  /** A relabelled issue stands where it stood. */
  lemma RelabelInPlace(c: ListCache, id: Id, labels: seq<Label>, x: Issue)
    requires WellFormed(c) && id in Table(c) && Table(c)[id] == x
    ensures x.id == id && x.status in c.byStatus
    ensures PatchIssue(c, id, NO_PATCH.(labels := Some(labels))) ==
            SetBucket(c, x.status, GetBucket(c, x.status).(issues := Replace(IssuesAt(c, x.status), id, x.(labels := Some(labels)))))
  {
    LocationInTable(c, Table(c), id);
    assert Shows(c, Table(c), id);
    PatchIs(c, id, NO_PATCH.(labels := Some(labels)), x);
  }

  lemma ReplaceBack(c: ListCache, x: Issue, y: Issue)
    requires WellFormed(c) && x.id in Table(c) && Table(c)[x.id] == x && y.id == x.id
    ensures Replace(Replace(IssuesAt(c, x.status), x.id, y), x.id, x) == IssuesAt(c, x.status)
  {
    assert Shows(c, Table(c), x.id) && Records(IssuesAt(c, x.status), Table(c));
    ReplaceTwice(IssuesAt(c, x.status), x.id, y, x);
    ReplaceByItself(IssuesAt(c, x.status), x);
  }

  lemma SetBack(c: ListCache, c1: ListCache, s: Status, issues: seq<Issue>, b: Bucket)
    requires s in c.byStatus && c1 == SetBucket(c, s, GetBucket(c, s).(issues := issues))
    requires b == GetBucket(c1, s).(issues := IssuesAt(c, s))
    ensures SetBucket(c1, s, b) == c
  {
    assert b == c.byStatus[s];
    assert SetBucket(c1, s, b).byStatus == c.byStatus;
  }

  lemma RelabelBackShown(c: ListCache, id: Id, labels: seq<Label>, prev: seq<Label>, x: Issue)
    requires WellFormed(c) && id in Table(c) && Table(c)[id] == x && x.labels == Some(prev)
    ensures PatchIssue(PatchIssue(c, id, NO_PATCH.(labels := Some(labels))), id, NO_PATCH.(labels := Some(prev))) == c
  {
    var c1 := PatchIssue(c, id, NO_PATCH.(labels := Some(labels)));
    var y := x.(labels := Some(labels));
    RelabelInPlace(c, id, labels, x);
    RelabelInTable(c, id, labels);
    RelabelInPlace(c1, id, prev, y);
    ReplaceBack(c, x, y);
    var issues := Replace(IssuesAt(c, x.status), id, y);
    SetBack(c, c1, x.status, issues, GetBucket(c1, x.status).(issues := Replace(issues, id, x)));
  }

  /** Relabelling an issue and setting its old labels back leaves the list as it was. */
  lemma RelabelBack(c: ListCache, id: Id, labels: seq<Label>, prev: seq<Label>)
    requires WellFormed(c)
    requires id in Table(c) ==> Table(c)[id].labels == Some(prev)
    ensures PatchIssue(PatchIssue(c, id, NO_PATCH.(labels := Some(labels))), id, NO_PATCH.(labels := Some(prev))) == c
  {
    if id in Table(c) {
      RelabelBackShown(c, id, labels, prev, Table(c)[id]);
    } else {
      LocationInTable(c, Table(c), id);
    }
  }

  /**
   Settling a label mutation marks the label slot only: of the copies that its
   rollback wrote, those in the list and the detail slot are left unmarked, so all
   are marked just when there were none of these.
   */
  lemma LabelRollbackMarksWhen(s: State, id: Id, prev: seq<Label>)
    ensures var t := Invalidate(WriteIfSome(s, id, Some(prev)), ByIssueKey(id));
            && ByIssueKey(id) in t.stale
            && (s.slots.list.Some? ==> ListKey !in t.stale)
            && (id in s.slots.detail ==> DetailKey(id) !in t.stale)
            && ((t.slots.list.Some? ==> ListKey in t.stale) && (id in t.slots.detail ==> DetailKey(id) in t.stale)
                <==> s.slots.list.None? && id !in s.slots.detail)
  {
    SlotsAfterLabels(SetByIssue(s, id, prev), id, prev);
  }
}
