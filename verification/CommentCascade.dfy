/**
 Optimistic deletion of a comment and all its replies
 (packages/core/issues/mutations.ts:445-486).
 */
module CommentCascade {
  import opened Wrappers
  import Sorting

  type Id = string

  datatype Entry = Entry(id: Id, parentId: Option<Id>, content: string)

  /** The parent, where the empty id counts as none. */
  function Parent(e: Entry): Option<Id> {
    if e.parentId == Some("") then None else e.parentId
  }

  /** `x` is `n` replies below `root`. */
  ghost predicate DescendsBy(entries: seq<Entry>, root: Id, x: Id, n: nat)
    decreases n
  {
    if n == 0 then x == root
    else exists e :: e in entries && e.id == x && Parent(e).Some? && DescendsBy(entries, root, Parent(e).value, n - 1)
  }

  /** `x` is the comment or a reply somewhere below it. */
  ghost predicate Descends(entries: seq<Entry>, root: Id, x: Id) {
    exists n: nat :: DescendsBy(entries, root, x, n)
  }

  /** With a comment goes each reply to it. */
  ghost predicate Closed(entries: seq<Entry>, ids: set<Id>) {
    forall e :: e in entries && Parent(e).Some? && Parent(e).value in ids ==> e.id in ids
  }

  function Ids(entries: seq<Entry>): set<Id> {
    set e | e in entries :: e.id
  }

  lemma ReplyDescends(entries: seq<Entry>, root: Id, e: Entry)
    requires e in entries && Parent(e).Some? && Descends(entries, root, Parent(e).value)
    ensures Descends(entries, root, e.id)
  {
    var n: nat :| DescendsBy(entries, root, Parent(e).value, n);
    assert DescendsBy(entries, root, e.id, n + 1);
  }

  lemma {:induction false} ClosedHasDescendants(entries: seq<Entry>, root: Id, ids: set<Id>, x: Id, n: nat)
    requires root in ids && Closed(entries, ids) && DescendsBy(entries, root, x, n)
    ensures x in ids
    decreases n
  {
    if n > 0 {
      var e :| e in entries && e.id == x && Parent(e).Some? && DescendsBy(entries, root, Parent(e).value, n - 1);
      ClosedHasDescendants(entries, root, ids, Parent(e).value, n - 1);
    }
  }

  /**
   The repeat-until-unchanged loop ends on any parent graph, cycles included, and
   finds exactly the comment and its descendants.
   */
  method CollectRemoved(prev: seq<Entry>, commentId: Id) returns (toRemove: set<Id>)
    ensures forall x :: x in toRemove <==> Descends(prev, commentId, x)
    ensures commentId in toRemove && Closed(prev, toRemove)
  {
    toRemove := {commentId};
    assert DescendsBy(prev, commentId, commentId, 0);
    var changed := true;
    while changed
      invariant commentId in toRemove
      invariant forall x :: x in toRemove ==> Descends(prev, commentId, x)
      invariant !changed ==> Closed(prev, toRemove)
      decreases Ids(prev) - toRemove, changed
    {
      changed := false;
      ghost var start := toRemove;
      for i := 0 to |prev|
        invariant start <= toRemove
        invariant forall x :: x in toRemove ==> Descends(prev, commentId, x)
        invariant changed ==> Ids(prev) - toRemove < Ids(prev) - start
        invariant !changed ==> toRemove == start
        invariant !changed ==> forall j :: 0 <= j < i && Parent(prev[j]).Some? && Parent(prev[j]).value in toRemove ==> prev[j].id in toRemove
      {
        var e := prev[i];
        if Parent(e).Some? && Parent(e).value in toRemove && e.id !in toRemove {
          ReplyDescends(prev, commentId, e);
          assert e.id in Ids(prev);
          toRemove := toRemove + {e.id};
          changed := true;
        }
      }
    }
    forall x | Descends(prev, commentId, x) ensures x in toRemove {
      var n: nat :| DescendsBy(prev, commentId, x, n);
      ClosedHasDescendants(prev, commentId, toRemove, x, n);
    }
  }

  /** The set of descendants is the least one that has the comment and is closed. */
  lemma DescendantsAreLeast(entries: seq<Entry>, root: Id, descendants: set<Id>, ids: set<Id>)
    requires forall x :: x in descendants <==> Descends(entries, root, x)
    requires root in ids && Closed(entries, ids)
    ensures root in descendants && Closed(entries, descendants) && descendants <= ids
  {
    assert DescendsBy(entries, root, root, 0);
    forall e | e in entries && Parent(e).Some? && Parent(e).value in descendants ensures e.id in descendants {
      ReplyDescends(entries, root, e);
    }
    forall x | x in descendants ensures x in ids {
      var n: nat :| DescendsBy(entries, root, x, n);
      ClosedHasDescendants(entries, root, ids, x, n);
    }
  }

  // ------------------------------------------------------------ the mutation

  /** No reply outlives its comment. */
  lemma NoOrphans(entries: seq<Entry>, root: Id, removed: set<Id>, e: Entry)
    requires forall x :: x in removed <==> Descends(entries, root, x)
    requires e in Sorting.Filter(entries, (e: Entry) => e.id !in removed) && Parent(e).Some?
    ensures Parent(e).value !in removed
  {
    Sorting.FilterMembers(entries, (e: Entry) => e.id !in removed);
    if Parent(e).value in removed {
      ReplyDescends(entries, root, e);
    }
  }

  /** The cached timeline of one issue. */
  class Timeline {
    var entries: Option<seq<Entry>>
    var stale: bool

    method OnDelete(commentId: Id) returns (prev: Option<seq<Entry>>, ghost removed: set<Id>)
      modifies this
      ensures prev == old(entries)
      ensures prev.None? ==> entries.None? && stale == old(stale)
      ensures prev.Some? ==>
                && (forall x :: x in removed <==> Descends(prev.value, commentId, x))
                && entries == Some(Sorting.Filter(prev.value, (e: Entry) => e.id !in removed)) && !stale
    {
      prev, removed := entries, {};
      if prev.Some? {
        var toRemove := CollectRemoved(prev.value, commentId);
        removed := toRemove;
        entries := Some(Sorting.Filter(prev.value, (e: Entry) => e.id !in toRemove));
        stale := false;
      }
    }

    method OnError(prev: Option<seq<Entry>>)
      modifies this
      ensures entries == if prev.Some? then prev else old(entries)
      ensures stale == if prev.Some? then false else old(stale)
    {
      if prev.Some? {
        entries := prev;
        stale := false;
      }
    }

    method OnSettled()
      modifies this
      ensures entries == old(entries) && stale == (old(stale) || entries.Some?)
    {
      if entries.Some? {
        stale := true;
      }
    }
  }

  /** A failed delete with no write in between puts the timeline back, and settling marks it. */
  method FailedDelete(timeline: Timeline, commentId: Id)
    modifies timeline
    ensures timeline.entries == old(timeline.entries)
    ensures timeline.entries.Some? ==> timeline.stale
  {
    var prev, _ := timeline.OnDelete(commentId);
    timeline.OnError(prev);
    timeline.OnSettled();
  }
}
