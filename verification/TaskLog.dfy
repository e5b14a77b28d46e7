/**
 The live log of task messages (packages/core/realtime/use-realtime-sync.ts:570-584):
 messages come in any order and more than once.
 */
module TaskLog {
  import opened Sorting

  type TaskId = string

  /** `body` is the rest of the payload. */
  datatype Message = Message(task: TaskId, seqNo: int, body: string)

  const SEQ_NO: Message -> int := (m: Message) => m.seqNo

  predicate HasSeq(log: seq<Message>, n: int) {
    exists m :: m in log && m.seqNo == n
  }

  /** The updater of one log. */
  function Deliver(log: seq<Message>, m: Message): seq<Message> {
    if HasSeq(log, m.seqNo) then log else StableSort(log + [m], SEQ_NO)
  }

  function DeliverAll(log: seq<Message>, ms: seq<Message>): seq<Message> {
    if ms == [] then log else Deliver(DeliverAll(log, ms[..|ms| - 1]), ms[|ms| - 1])
  }

  /** The logs of all tasks, each in its own slot. */
  class TaskMessages {
    var logs: map<TaskId, seq<Message>>

    function LogOf(task: TaskId): seq<Message>
      reads this
    {
      if task in logs then logs[task] else []
    }

    method OnTaskMessage(payload: Message)
      modifies this
      ensures forall t :: LogOf(t) == if t == payload.task then Deliver(old(LogOf(t)), payload) else old(LogOf(t))
    {
      var log := if payload.task in logs then logs[payload.task] else [];
      if !exists m :: m in log && m.seqNo == payload.seqNo {
        log := StableSort(log + [payload], SEQ_NO);
      }
      logs := logs[payload.task := log];
    }

    /** A stream of messages for any tasks: each log gets its own, in the order of delivery. */
    method OnTaskMessages(payloads: seq<Message>)
      modifies this
      ensures forall t :: LogOf(t) == DeliverAll(old(LogOf(t)), OfTask(payloads, t))
    {
      for i := 0 to |payloads|
        invariant forall t :: LogOf(t) == DeliverAll(old(LogOf(t)), OfTask(payloads[..i], t))
      {
        assert payloads[..i + 1][..i] == payloads[..i];
        ghost var before := OfTask(payloads[..i], payloads[i].task);
        assert (before + [payloads[i]])[..|before|] == before;
        OnTaskMessage(payloads[i]);
      }
      assert payloads[..|payloads|] == payloads;
    }
  }

  function OfTask(ms: seq<Message>, t: TaskId): seq<Message> {
    if ms == [] then []
    else if ms[|ms| - 1].task == t then OfTask(ms[..|ms| - 1], t) + [ms[|ms| - 1]]
    else OfTask(ms[..|ms| - 1], t)
  }

  // ------------------------------------------------------------- convergence

  lemma AscendingOfStrict(log: seq<Message>)
    requires StrictlyAscending(log, SEQ_NO)
    ensures Ascending(log, SEQ_NO)
  {
  }

  lemma {:induction false} InsertStrict(log: seq<Message>, m: Message)
    requires StrictlyAscending(log, SEQ_NO) && !HasSeq(log, m.seqNo)
    ensures StrictlyAscending(Insert(log, m, SEQ_NO), SEQ_NO)
  {
    if log != [] && m.seqNo < log[|log| - 1].seqNo {
      var front, last := log[..|log| - 1], log[|log| - 1];
      InsertStrict(front, m);
      InsertPermutes(front, m, SEQ_NO);
      var r := Insert(front, m, SEQ_NO);
      forall i | 0 <= i < |r| ensures r[i].seqNo < last.seqNo {
        assert r[i] in r;
      }
    } else if log != [] {
      assert log[|log| - 1] in log;
    }
  }

  /** One delivery keeps the order and adds exactly the message, if its number is new. */
  lemma DeliverKeepsOrder(log: seq<Message>, m: Message)
    requires StrictlyAscending(log, SEQ_NO)
    ensures StrictlyAscending(Deliver(log, m), SEQ_NO)
    ensures forall x :: x in Deliver(log, m) <==> x in log || (x == m && !HasSeq(log, m.seqNo))
  {
    if !HasSeq(log, m.seqNo) {
      AscendingOfStrict(log);
      SortSnoc(log, m, SEQ_NO);
      SortOfAscending(log, SEQ_NO);
      InsertStrict(log, m);
      InsertPermutes(log, m, SEQ_NO);
    }
  }

  /** The first message with a number wins, and the log's own wins over all. */
  predicate FirstDelivered(log: seq<Message>, ms: seq<Message>, x: Message) {
    || x in log
    || (!HasSeq(log, x.seqNo) && exists i :: 0 <= i < |ms| && ms[i] == x && forall j :: 0 <= j < i ==> ms[j].seqNo != x.seqNo)
  }

  lemma FirstDeliveredSnoc(log: seq<Message>, ms: seq<Message>, m: Message, x: Message)
    ensures FirstDelivered(log, ms + [m], x) <==>
            FirstDelivered(log, ms, x) || (x == m && !HasSeq(log, m.seqNo) && !HasSeq(ms, m.seqNo))
  {
    var all := ms + [m];
    if FirstDelivered(log, ms, x) && x !in log {
      var i :| 0 <= i < |ms| && ms[i] == x && forall j :: 0 <= j < i ==> ms[j].seqNo != x.seqNo;
      assert all[i] == x;
    }
    if x == m && !HasSeq(log, m.seqNo) && !HasSeq(ms, m.seqNo) {
      assert all[|ms|] == x;
    }
    if FirstDelivered(log, all, x) && x !in log {
      var i :| 0 <= i < |all| && all[i] == x && forall j :: 0 <= j < i ==> all[j].seqNo != x.seqNo;
      if i < |ms| {
        assert ms[i] == x && forall j :: 0 <= j < i ==> ms[j] == all[j];
      } else {
        forall y | y in ms ensures y.seqNo != x.seqNo {
          var j :| 0 <= j < |ms| && ms[j] == y;
          assert all[j] == y;
        }
      }
    }
  }

  lemma {:induction false} DeliverAllHasSeq(log: seq<Message>, ms: seq<Message>, n: int)
    requires StrictlyAscending(log, SEQ_NO)
    ensures StrictlyAscending(DeliverAll(log, ms), SEQ_NO)
    ensures HasSeq(DeliverAll(log, ms), n) <==> HasSeq(log, n) || HasSeq(ms, n)
  {
    if ms != [] {
      var front, last := ms[..|ms| - 1], ms[|ms| - 1];
      DeliverAllHasSeq(log, front, n);
      DeliverKeepsOrder(DeliverAll(log, front), last);
      assert ms == front + [last];
    }
  }

  /**
   Whatever the order and duplication of the deliveries, an ascending log stays
   strictly ascending and holds exactly the first message of each number.
   */
  lemma {:induction false} DeliveredExactly(log: seq<Message>, ms: seq<Message>, x: Message)
    requires StrictlyAscending(log, SEQ_NO)
    ensures StrictlyAscending(DeliverAll(log, ms), SEQ_NO)
    ensures x in DeliverAll(log, ms) <==> FirstDelivered(log, ms, x)
  {
    if ms != [] {
      var front, last := ms[..|ms| - 1], ms[|ms| - 1];
      DeliveredExactly(log, front, x);
      DeliverAllHasSeq(log, front, last.seqNo);
      DeliverKeepsOrder(DeliverAll(log, front), last);
      FirstDeliveredSnoc(log, front, last, x);
      assert ms == front + [last];
    }
  }

  lemma FirstIsMember(log: seq<Message>)
    requires log != []
    ensures log[0] in log
  {
  }

  lemma {:induction false} StrictIsUnique(a: seq<Message>, b: seq<Message>)
    requires StrictlyAscending(a, SEQ_NO) && StrictlyAscending(b, SEQ_NO)
    requires forall x :: x in a <==> x in b
    ensures a == b
  {
    if a != [] && b != [] {
      var n, k := |a| - 1, |b| - 1;
      assert a[n] in b && b[k] in a;
      assert a[n] == b[k];
      forall x ensures x in a[..n] <==> x in b[..k] {
        assert x in a <==> x in a[..n] || x == a[n];
        assert x in b <==> x in b[..k] || x == b[k];
        assert a[n] !in a[..n] && b[k] !in b[..k];
      }
      StrictIsUnique(a[..n], b[..k]);
    } else {
      if |a| > 0 { FirstIsMember(a); }
      if |b| > 0 { FirstIsMember(b); }
    }
  }

  /** The number fixes the message, in the log and the streams alike. */
  predicate SeqFixesMessage(ms: seq<Message>) {
    forall x, y :: x in ms && y in ms && x.seqNo == y.seqNo ==> x == y
  }

  /** Two clients that started alike and received the same messages, in whatever order, hold equal logs. */
  lemma ClientsConverge(log: seq<Message>, ms: seq<Message>, ns: seq<Message>)
    requires StrictlyAscending(log, SEQ_NO) && SeqFixesMessage(log + ms)
    requires forall x :: x in ms <==> x in ns
    ensures DeliverAll(log, ms) == DeliverAll(log, ns)
  {
    forall x ensures x in DeliverAll(log, ms) <==> x in log || x in ms {
      DeliveredAre(log, ms, x);
    }
    assert SeqFixesMessage(log + ns);
    forall x ensures x in DeliverAll(log, ns) <==> x in log || x in ns {
      DeliveredAre(log, ns, x);
    }
    DeliverAllHasSeq(log, ms, 0);
    DeliverAllHasSeq(log, ns, 0);
    StrictIsUnique(DeliverAll(log, ms), DeliverAll(log, ns));
  }

  lemma DeliveredAre(log: seq<Message>, ms: seq<Message>, x: Message)
    requires StrictlyAscending(log, SEQ_NO) && SeqFixesMessage(log + ms)
    ensures x in DeliverAll(log, ms) <==> x in log || x in ms
  {
    DeliveredExactly(log, ms, x);
    if x in ms {
      DeliverAllHasSeq(log, ms, x.seqNo);
      var y :| y in DeliverAll(log, ms) && y.seqNo == x.seqNo;
      DeliveredExactly(log, ms, y);
      assert y in log + ms && x in log + ms;
    }
  }
}
