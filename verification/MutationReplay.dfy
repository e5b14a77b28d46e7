/**
 The mutation hooks and the WebSocket handlers at work on one query cache: called as
 the events of a run come, they take it through the states of that run.
 */
module MutationReplay {
  import opened Wrappers
  import opened IssueCache
  import opened IssueQueries
  import opened QueryClients
  import opened LabelSync
  import opened OptimisticProtocol

  /** One cache and the mutations under way on it, with what each has captured. */
  class MutationSession {
    const qc: QueryClient
    var pending: map<nat, Pending>

    ghost function Now(): Run
      reads this, qc
    {
      Run(qc.Now(), pending)
    }

    constructor (qc: QueryClient)
      ensures this.qc == qc && pending == map[]
    {
      this.qc := qc;
      pending := map[];
    }

    /** `onMutate` */
    method OnMutate(mutation: Mutation) returns (ctx: Context)
      modifies qc
      ensures ctx == ContextOf(old(qc.Now()), mutation) && qc.Now() == Begin(old(qc.Now()), mutation)
    {
      match mutation
      case Update(id, patch) =>
        var c := qc.MutateUpdate(id, patch);
        ctx := OfUpdate(c, patch);
      case BatchUpdate(ids, patch) =>
        var c := qc.MutateBatchUpdate(ids, patch);
        ctx := OfBatch(c);
      case BatchDelete(ids) =>
        var c := qc.MutateBatchDelete(ids);
        ctx := OfBatch(c);
      case Delete(id) =>
        var c := qc.MutateDelete(id);
        ctx := OfDelete(c);
      case Attach(issueId, labelId, known) =>
        var hooks := new LabelHooks(qc, issueId);
        var prev := hooks.OnAttach(labelId, known);
        ctx := OfLabels(issueId, prev);
      case Detach(issueId, labelId) =>
        var hooks := new LabelHooks(qc, issueId);
        var prev := hooks.OnDetach(labelId);
        ctx := OfLabels(issueId, prev);
    }

    /** `onError` */
    method OnError(ctx: Context)
      modifies qc
      ensures qc.Now() == Fail(old(qc.Now()), ctx)
    {
      match ctx
      case OfUpdate(c, _) => qc.OnUpdateError(c);
      case OfBatch(c) => qc.OnBatchError(c);
      case OfDelete(c) => qc.OnDeleteError(c);
      case OfLabels(issueId, prev) =>
        var hooks := new LabelHooks(qc, issueId);
        hooks.OnError(prev);
    }

    /** `onSettled` */
    method OnSettled(ctx: Context)
      modifies qc
      ensures qc.Now() == Settle(old(qc.Now()), ctx)
    {
      match ctx
      case OfUpdate(c, patch) => qc.OnUpdateSettled(c, patch);
      case OfBatch(c) => qc.OnBatchSettled(c);
      case OfDelete(c) => qc.OnDeleteSettled(c);
      case OfLabels(issueId, _) =>
        var hooks := new LabelHooks(qc, issueId);
        hooks.OnSettled();
    }

    method OnWrite(w: Write)
      modifies qc
      ensures qc.Now() == Apply(old(qc.Now()), w)
    {
      match w
      case CreateSuccess(issue) => qc.OnCreateSuccess(issue);
      case Created(issue) => qc.IssueCreated(issue);
      case Updated(id, patch) => qc.IssueUpdated(id, patch);
      case LabelsChanged(id, labels) => qc.IssueLabelsChanged(id, labels);
      case LabelsReply(id, labels) =>
        var hooks := new LabelHooks(qc, id);
        hooks.OnAttachSuccess(Some(labels));
      case Deleted(id) => qc.IssueDeleted(id);
      case FetchedList(list) => qc.WriteList(list);
      case FetchedDetail(id, issue) => qc.WriteDetail(id, issue);
      case FetchedChildren(p, issues) => qc.WriteChildren(p, issues);
      case FetchedLabels(id, labels) => qc.WriteByIssue(id, labels);
      case Invalidated(keys) => qc.InvalidateQueries(keys);
    }

    method Dispatch(e: Event)
      requires Enabled(Now(), e)
      modifies this, qc
      ensures Now() == Next(old(Now()), e)
    {
      match e
      case Start(m, mutation) =>
        var ctx := OnMutate(mutation);
        pending := pending[m := Pending(ctx, false)];
      case Error(m) =>
        OnError(pending[m].ctx);
        pending := pending[m := pending[m].(failed := true)];
      case Settled(m) =>
        OnSettled(pending[m].ctx);
        pending := pending - {m};
      case Foreign(w) => OnWrite(w);
    }

    /** The session goes through every run that begins as it is. */
    method Replay(events: seq<Event>, ghost runs: seq<Run>)
      requires IsRun(runs, events) && Now() == runs[0]
      modifies this, qc
      ensures Now() == runs[|events|]
    {
      for i := 0 to |events|
        invariant Now() == runs[i]
      {
        Dispatch(events[i]);
      }
    }
  }
}
