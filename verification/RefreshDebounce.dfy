/**
 The debounced dispatch of WebSocket events to cache refreshes
 (packages/core/realtime/use-realtime-sync.ts:150-280 and 788-789).
 */
module RefreshDebounce {
  import opened Wrappers

  type Prefix = string

  const DELAY: nat := 100

  /** The prefixes that have a refresh. */
  const REFRESHED: set<Prefix> := {
    "inbox", "agent", "member", "workspace", "skill", "project", "label", "pin", "daemon", "autopilot",
    "github_installation", "pull_request", "task"}

  /**
   The refreshes are looked up in an object literal, so these names find a member
   that every object inherits. They take the debounced path like the others, and
   what is called in the end refreshes nothing.
   */
  const INHERITED: set<Prefix> := {
    "constructor", "toString", "toLocaleString", "valueOf", "hasOwnProperty", "isPrototypeOf", "propertyIsEnumerable",
    "__proto__", "__defineGetter__", "__defineSetter__", "__lookupGetter__", "__lookupSetter__"}

  /** The event types that have their own handlers, or none. */
  const SPECIFIC: set<string> := {
    "issue:updated", "issue:created", "issue:deleted", "issue_labels:changed", "inbox:new",
    "comment:created", "comment:updated", "comment:deleted", "comment:resolved", "comment:unresolved",
    "activity:created", "reaction:added", "reaction:removed", "issue_reaction:added", "issue_reaction:removed",
    "subscriber:added", "subscriber:removed", "daemon:heartbeat",
    "chat:message", "chat:done", "chat:session_read", "chat:session_deleted", "task:message"}

  /** The text before the first colon. */
  function PrefixOf(eventType: string): Prefix {
    if eventType == "" || eventType[0] == ':' then "" else [eventType[0]] + PrefixOf(eventType[1..])
  }

  /** The refresh that an event asks for, if any. */
  function Route(eventType: string): Option<Prefix> {
    if eventType in SPECIFIC || eventType == "" then None
    else if PrefixOf(eventType) in REFRESHED + INHERITED then Some(PrefixOf(eventType))
    else None
  }

  /** A timeout that the browser holds. */
  datatype Timeout = Timeout(prefix: Prefix, due: nat)

  /** `timers` is the hook's map; `live` are the timeouts that will still fire. */
  datatype State = State(mounted: bool, now: nat, timers: map<Prefix, nat>, live: map<nat, Timeout>, next: nat)

  const INITIAL := State(true, 0, map[], map[], 1)

  datatype Event = Message(eventType: string) | Fire(handle: nat) | Pass(ms: nat) | Cleanup

  predicate Enabled(s: State, e: Event) {
    match e
    case Message(_) => s.mounted
    case Fire(h) => h in s.live && s.live[h].due <= s.now
    case Pass(_) => true
    case Cleanup => s.mounted
  }

  function Schedule(s: State, p: Prefix): State {
    s.(timers := s.timers[p := s.next],
       live := (s.live - (if p in s.timers then {s.timers[p]} else {}))[s.next := Timeout(p, s.now + DELAY)],
       next := s.next + 1)
  }

  function Next(s: State, e: Event): State
    requires Enabled(s, e)
  {
    match e
    case Message(eventType) =>
      var route := Route(eventType);
      if route.Some? then Schedule(s, route.value) else s
    case Fire(h) =>
      var p := s.live[h].prefix;
      s.(timers := s.timers - {p}, live := s.live - {h})
    case Pass(ms) => s.(now := s.now + ms)
    case Cleanup => s.(mounted := false, timers := map[], live := s.live - s.timers.Values)
  }

  /** The effect's closure, with the browser's timeouts beside it. */
  class RefreshEffect {
    var mounted: bool
    var now: nat
    var timers: map<Prefix, nat>
    var live: map<nat, Timeout>
    var next: nat

    ghost function Now(): State
      reads this
    {
      State(mounted, now, timers, live, next)
    }

    constructor ()
      ensures Now() == INITIAL
    {
      mounted, now, timers, live, next := true, 0, map[], map[], 1;
    }

    method SetTimeout(p: Prefix) returns (handle: nat)
      modifies this`live, this`next
      ensures handle == old(next) && next == old(next) + 1
      ensures live == old(live)[handle := Timeout(p, now + DELAY)]
    {
      handle := next;
      live := live[handle := Timeout(p, now + DELAY)];
      next := next + 1;
    }

    method DebouncedRefresh(p: Prefix)
      modifies this
      ensures Now() == Schedule(old(Now()), p)
    {
      if p in timers {
        live := live - {timers[p]};
      }
      var handle := SetTimeout(p);
      timers := timers[p := handle];
    }

    method OnAny(eventType: string)
      requires mounted
      modifies this
      ensures Now() == Next(old(Now()), Message(eventType))
    {
      if eventType in SPECIFIC || eventType == "" {
        return;
      }
      var prefix := PrefixOf(eventType);
      if prefix in REFRESHED + INHERITED {
        DebouncedRefresh(prefix);
      }
    }

    method OnTimeout(h: nat)
      requires Enabled(Now(), Fire(h))
      modifies this
      ensures Now() == Next(old(Now()), Fire(h))
    {
      var p := live[h].prefix;
      live := live - {h};
      timers := timers - {p};
    }

    method OnCleanup()
      requires mounted
      modifies this
      ensures Now() == Next(old(Now()), Cleanup)
    {
      mounted := false;
      live := live - timers.Values;
      timers := map[];
    }

    method Dispatch(e: Event)
      requires Enabled(Now(), e)
      modifies this
      ensures Now() == Next(old(Now()), e)
    {
      match e
      case Message(eventType) => OnAny(eventType);
      case Fire(h) => OnTimeout(h);
      case Pass(ms) => now := now + ms;
      case Cleanup => OnCleanup();
    }

    /** The effect goes through every run that begins as it is. */
    method Replay(events: seq<Event>, ghost states: seq<State>)
      requires IsRun(states, events) && Now() == states[0]
      modifies this
      ensures Now() == states[|events|]
    {
      for i := 0 to |events|
        invariant Now() == states[i]
      {
        Dispatch(events[i]);
      }
    }
  }

  // -------------------------------------------------------------- invariants

  /** Each prefix has at most one live timeout, the one in the map, and nothing else is live. */
  predicate OneTimer(s: State) {
    && (forall p :: p in s.timers ==> s.timers[p] in s.live && s.live[s.timers[p]].prefix == p)
    && (forall h :: h in s.live ==> h < s.next && s.live[h].prefix in s.timers && s.timers[s.live[h].prefix] == h)
  }

  lemma NextKeepsTimers(s: State, e: Event)
    requires OneTimer(s) && Enabled(s, e)
    ensures OneTimer(Next(s, e))
    ensures !Next(s, e).mounted && (!s.mounted ==> s.live == map[]) ==> Next(s, e).live == map[]
  {
    if e.Cleanup? {
      forall h | h in s.live ensures h in s.timers.Values {
        assert s.timers[s.live[h].prefix] == h;
      }
    }
  }

  // -------------------------------------------------------------------- runs

  predicate IsRun(states: seq<State>, events: seq<Event>) {
    && |states| == |events| + 1 && states[0] == INITIAL
    && forall i :: 0 <= i < |events| ==> Enabled(states[i], events[i]) && states[i + 1] == Next(states[i], events[i])
  }

  predicate AskedAt(events: seq<Event>, asked: seq<Option<Prefix>>, m: nat)
    requires m < |events| == |asked|
  {
    asked[m] == if events[m].Message? then Route(events[m].eventType) else None
  }

  /** `asked` has the refresh that each event asks for, if any. */
  predicate AsksFor(events: seq<Event>, asked: seq<Option<Prefix>>) {
    |asked| == |events| && forall m: nat :: m < |events| ==> AskedAt(events, asked, m)
  }

  /** The last of the first `n` events that asks for `p` is the one at `k`. */
  predicate LastAsked(asked: seq<Option<Prefix>>, n: nat, p: Prefix, k: nat) {
    k < n <= |asked| && asked[k] == Some(p) && forall j :: k < j < n ==> asked[j] != Some(p)
  }

  /** Timeout `h` is due 100 ms after the last message for its prefix, which is not before `i`. */
  ghost predicate DueAfterLast(states: seq<State>, asked: seq<Option<Prefix>>, i: nat, n: nat, h: nat)
    requires n < |states| == |asked| + 1 && h in states[n].live
  {
    exists k: nat :: i <= k && LastAsked(asked, n, states[n].live[h].prefix, k) && states[n].live[h].due == states[k].now + 100
  }

  /** A timeout that stays, or is set by the event, is due as it should. */
  lemma DueStep(states: seq<State>, asked: seq<Option<Prefix>>, i: nat, n: nat, h: nat)
    requires i <= n < |asked| && |states| == |asked| + 1 && h in states[n + 1].live
    requires if asked[n] == Some(states[n + 1].live[h].prefix) then states[n + 1].live[h].due == states[n].now + 100
             else h in states[n].live && states[n].live[h] == states[n + 1].live[h] && DueAfterLast(states, asked, i, n, h)
    ensures DueAfterLast(states, asked, i, n + 1, h)
  {
    var p := states[n + 1].live[h].prefix;
    if asked[n] == Some(p) {
      assert LastAsked(asked, n + 1, p, n);
    } else {
      var k: nat :| i <= k && LastAsked(asked, n, p, k) && states[n].live[h].due == states[k].now + 100;
      assert LastAsked(asked, n + 1, p, k);
    }
  }

  /** What one event does to a live timeout. */
  lemma LiveStep(s: State, e: Event, h: nat)
    requires OneTimer(s) && Enabled(s, e) && h in Next(s, e).live
    ensures var q := Next(s, e).live[h];
            if e.Message? && Route(e.eventType) == Some(q.prefix) then q.due == s.now + 100 else h in s.live && s.live[h] == q
  {
  }

  /**
   In every run each prefix has at most one live timeout, the one in the map, and
   every live timeout is due 100 ms after the last message for its prefix; once the
   effect is cleaned up none is left.
   */
  lemma {:induction false} TimersAreDue(states: seq<State>, events: seq<Event>, asked: seq<Option<Prefix>>, n: nat)
    requires IsRun(states, events) && AsksFor(events, asked) && n < |states|
    ensures OneTimer(states[n]) && (forall h :: h in states[n].live ==> DueAfterLast(states, asked, 0, n, h))
    ensures !states[n].mounted ==> states[n].live == map[]
  {
    if n > 0 {
      TimersAreDue(states, events, asked, n - 1);
      NextKeepsTimers(states[n - 1], events[n - 1]);
      assert AskedAt(events, asked, n - 1);
      forall h | h in states[n].live ensures DueAfterLast(states, asked, 0, n, h) {
        LiveStep(states[n - 1], events[n - 1], h);
        DueStep(states, asked, 0, n - 1, h);
      }
    }
  }

  lemma {:induction false} TimeGrows(states: seq<State>, events: seq<Event>, i: nat, n: nat)
    requires IsRun(states, events) && i <= n < |states|
    ensures states[i].now <= states[n].now
  {
    if i < n {
      TimeGrows(states, events, i, n - 1);
      assert states[n] == Next(states[n - 1], events[n - 1]);
    }
  }

  /** At `j` the timeout of `p` fires, at least 100 ms after the event at `i`, or the effect is cleaned up. */
  predicate AnswersAt(states: seq<State>, events: seq<Event>, i: nat, j: nat, p: Prefix)
    requires i < |states| && j < |events| < |states|
  {
    match events[j]
    case Cleanup => true
    case Fire(h) => h in states[j].live && states[j].live[h].prefix == p && states[i].now + 100 <= states[j].now
    case _ => false
  }

  predicate Answered(states: seq<State>, events: seq<Event>, i: nat, n: nat, p: Prefix)
    requires i < |states| && n <= |events| < |states|
  {
    exists j :: i < j < n && AnswersAt(states, events, i, j, p)
  }

  /** The map has a timeout for `p`. */
  predicate HasTimer(s: State, p: Prefix) {
    p in s.timers && s.timers[p] in s.live && s.live[s.timers[p]].prefix == p
  }

  /** The map has a live timeout for `p`, due 100 ms after the last message for it, which is not before `i`. */
  ghost predicate Waits(states: seq<State>, asked: seq<Option<Prefix>>, i: nat, n: nat, p: Prefix)
    requires n < |states| == |asked| + 1
  {
    HasTimer(states[n], p) && DueAfterLast(states, asked, i, n, states[n].timers[p])
  }

  /** What one event does to the timeout of `p`: it fires, is cleaned up, is set anew or stays. */
  lemma TimerStep(s: State, e: Event, p: Prefix)
    requires OneTimer(s) && Enabled(s, e) && HasTimer(s, p)
    ensures || e.Cleanup? || e == Fire(s.timers[p])
            || (HasTimer(Next(s, e), p)
                && ((e.Message? && Route(e.eventType) == Some(p)) || Next(s, e).timers[p] == s.timers[p]))
  {
  }

  lemma WaitsStep(states: seq<State>, events: seq<Event>, asked: seq<Option<Prefix>>, i: nat, n: nat, p: Prefix)
    requires IsRun(states, events) && AsksFor(events, asked) && i < n < |events|
    requires OneTimer(states[n]) && Waits(states, asked, i, n, p)
    ensures AnswersAt(states, events, i, n, p) || Waits(states, asked, i, n + 1, p)
  {
    TimerStep(states[n], events[n], p);
    assert AskedAt(events, asked, n);
    if events[n].Fire? && events[n].handle == states[n].timers[p] {
      FiresInTime(states, events, asked, i, n, p);
    } else if HasTimer(states[n + 1], p) {
      LiveStep(states[n], events[n], states[n + 1].timers[p]);
      DueStep(states, asked, i, n, states[n + 1].timers[p]);
    }
  }

  lemma FiresInTime(states: seq<State>, events: seq<Event>, asked: seq<Option<Prefix>>, i: nat, n: nat, p: Prefix)
    requires IsRun(states, events) && |asked| == |events| && i < n < |events| && Waits(states, asked, i, n, p)
    requires events[n] == Fire(states[n].timers[p])
    ensures states[i].now + 100 <= states[n].now
  {
    var h := states[n].timers[p];
    var k: nat :| i <= k && LastAsked(asked, n, p, k) && states[n].live[h].due == states[k].now + 100;
    TimeGrows(states, events, i, k);
  }

  lemma AnsweredStep(states: seq<State>, events: seq<Event>, i: nat, n: nat, p: Prefix)
    requires i < n < |events| < |states|
    requires Answered(states, events, i, n, p) || AnswersAt(states, events, i, n, p)
    ensures Answered(states, events, i, n + 1, p)
  {
  }

  lemma WaitsFirst(states: seq<State>, events: seq<Event>, asked: seq<Option<Prefix>>, i: nat, p: Prefix)
    requires IsRun(states, events) && AsksFor(events, asked) && i < |events| && asked[i] == Some(p)
    ensures Waits(states, asked, i, i + 1, p)
  {
    assert AskedAt(events, asked, i);
    assert states[i + 1] == Schedule(states[i], p);
    assert LastAsked(asked, i + 1, p, i);
  }

  /**
   No event is lost: behind a message that asks for a refresh, its prefix's timeout
   has fired at least 100 ms later, or the effect was cleaned up, or that timeout is
   live and due 100 ms after the last such message.
   */
  lemma {:induction false} NoEventIsLost(
      states: seq<State>, events: seq<Event>, asked: seq<Option<Prefix>>, i: nat, n: nat, p: Prefix)
    requires IsRun(states, events) && AsksFor(events, asked) && i < n <= |events| && asked[i] == Some(p)
    ensures Answered(states, events, i, n, p) || Waits(states, asked, i, n, p)
  {
    if n == i + 1 {
      WaitsFirst(states, events, asked, i, p);
    } else {
      NoEventIsLost(states, events, asked, i, n - 1, p);
      TimersAreDue(states, events, asked, n - 1);
      if Answered(states, events, i, n - 1, p) {
        AnsweredStep(states, events, i, n - 1, p);
      } else {
        WaitsStep(states, events, asked, i, n - 1, p);
        if AnswersAt(states, events, i, n - 1, p) {
          AnsweredStep(states, events, i, n - 1, p);
        }
      }
    }
  }

  /** Once no timeout is live, every such message has been answered. */
  lemma QuietMeansAnswered(states: seq<State>, events: seq<Event>, asked: seq<Option<Prefix>>, i: nat, n: nat, p: Prefix)
    requires IsRun(states, events) && AsksFor(events, asked) && i < n <= |events| && asked[i] == Some(p)
    requires states[n].live == map[]
    ensures Answered(states, events, i, n, p)
  {
    NoEventIsLost(states, events, asked, i, n, p);
  }

  /**
   An event with its own handler never takes the debounced path; of the others just
   those do that are a name the lookup finds, alone or with a colon behind it.
   */
  lemma RoutedPrefix(eventType: string, p: Prefix)
    requires p != "" && ':' !in p
    ensures Route(eventType) == Some(p) <==>
              eventType !in SPECIFIC && p in REFRESHED + INHERITED && (eventType == p || p + ":" <= eventType)
  {
    assert PrefixOf(eventType) == p <==> (eventType == p || p + ":" <= eventType) by {
      PrefixIsBeforeColon(eventType);
      if eventType == p || p + ":" <= eventType {
        PrefixUpToColon(eventType, p);
      }
    }
  }

  lemma {:induction false} PrefixUpToColon(eventType: string, p: Prefix)
    requires ':' !in p && (eventType == p || p + ":" <= eventType)
    ensures PrefixOf(eventType) == p
  {
    if p == "" {
      assert eventType != "" ==> eventType[0] == ':';
    } else {
      assert eventType[0] == p[0] && p[0] in p;
      if eventType != p {
        assert p[1..] + ":" == (p + ":")[1..];
      }
      PrefixUpToColon(eventType[1..], p[1..]);
      assert p == [p[0]] + p[1..];
    }
  }

  lemma {:induction false} PrefixIsBeforeColon(eventType: string)
    ensures PrefixOf(eventType) <= eventType && ':' !in PrefixOf(eventType)
    ensures |PrefixOf(eventType)| < |eventType| ==> eventType[|PrefixOf(eventType)|] == ':'
  {
    if eventType != "" && eventType[0] != ':' {
      PrefixIsBeforeColon(eventType[1..]);
      assert eventType == [eventType[0]] + eventType[1..];
    }
  }
}
