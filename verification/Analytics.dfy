/**
 The analytics glue, whose calls can come before its configuration
 (packages/core/analytics/index.ts).
 */
module Analytics {
  import opened Wrappers
  import Sorting
  import StreamingBlocks

  datatype Value = Text(text: string) | Number(number: int) | Flag(flag: bool)

  type Props = map<string, Value>

  datatype Config = Config(key: string, host: string, appVersion: Option<string>, environment: Option<string>)

  datatype Op = EventOp(name: string, props: Props) | SetOp(props: Props)

  datatype User = User(id: string, props: Option<Props>)

  /** What reaches the analytics library. `$set` carries its properties under one name. */
  datatype Emission =
    | Started(key: string, host: string)
    | Registered(props: Props)
    | Identified(user: User)
    | PageviewSent(url: Option<string>)
    | EventSent(name: string, props: Props)
    | PersonSet(props: Props)
    | WasReset

  datatype Call =
    | Init(inBrowser: bool, config: Option<Config>, client: string)
    | Identify(user: User)
    | CaptureEvent(name: string, props: Props)
    | SetPerson(props: Props)
    | Pageview(path: Option<string>)
    | Reset

  datatype State = State(
    initialized: bool,
    pendingIdentify: Option<User>,
    currentUserId: Option<string>,
    environment: string,
    pendingPageview: Option<string>,
    pendingOps: seq<Op>,
    superProperties: Props,
    sent: seq<Emission>)

  const EVENT_SCHEMA_VERSION := 2
  const DEFAULT_HOST := "https://us.i.posthog.com"
  const INITIAL := State(false, None, None, "dev", None, [], map[], [])

  // ---------------------------------------------------------------- helpers

  function Lower(s: string): string {
    if s == "" then "" else [if 'A' <= s[0] <= 'Z' then ((s[0] as int) + 32) as char else s[0]] + Lower(s[1..])
  }

  function NormalizeEnvironment(value: Option<string>): string {
    var v := Lower(StreamingBlocks.Trim(if value.Some? then value.value else ""));
    if v == "production" || v == "prod" then "production"
    else if v == "staging" || v == "stage" then "staging"
    else "dev"
  }

  function SuperProperties(config: Config, client: string): Props {
    var base: Props := map[
      "client_type" := Text(client),
      "event_schema_version" := Number(EVENT_SCHEMA_VERSION),
      "environment" := Text(NormalizeEnvironment(config.environment)),
      "is_demo" := Flag(false)];
    if config.appVersion.Some? && config.appVersion.value != "" then base["app_version" := Text(config.appVersion.value)] else base
  }

  function HostOf(config: Config): string {
    if config.host != "" then config.host else DEFAULT_HOST
  }

  /** Fills in what the event does not carry itself. */
  function Enrich(props: Props, user: Option<string>, environment: string): Props {
    var p1 := if user.Some? && user.value != "" && "user_id" !in props then props["user_id" := Text(user.value)] else props;
    var p2 := if "event_schema_version" !in p1 then p1["event_schema_version" := Number(EVENT_SCHEMA_VERSION)] else p1;
    var p3 := if "environment" !in p2 then p2["environment" := Text(environment)] else p2;
    if "is_demo" !in p3 then p3["is_demo" := Flag(false)] else p3
  }

  predicate Known(user: Option<string>) {
    user.Some? && user.value != ""
  }

  /** The caller's properties as they are, and each of the four defaults where the caller says nothing. */
  predicate Enriched(props: Props, user: Option<string>, environment: string, r: Props) {
    && (forall k :: k in props ==> k in r && r[k] == props[k])
    && r.Keys == props.Keys + {"event_schema_version", "environment", "is_demo"} + (if Known(user) then {"user_id"} else {})
    && ("user_id" !in props && Known(user) ==> r["user_id"] == Text(user.value))
    && ("event_schema_version" !in props ==> r["event_schema_version"] == Number(2))
    && ("environment" !in props ==> r["environment"] == Text(environment))
    && ("is_demo" !in props ==> r["is_demo"] == Flag(false))
  }

  /** What a caller says is never overwritten, and the defaults are there where it says nothing. */
  lemma EnrichKeepsCaller(props: Props, user: Option<string>, environment: string)
    ensures Enriched(props, user, environment, Enrich(props, user, environment))
  {
  }

  /** The environment is one of three, by the trimmed name in lower case. */
  lemma EnvironmentIs(value: Option<string>)
    ensures var v, r := Lower(StreamingBlocks.Trim(if value.Some? then value.value else "")), NormalizeEnvironment(value);
            && (r == "production" <==> v in {"production", "prod"})
            && (r == "staging" <==> v in {"staging", "stage"})
            && (r == "dev" <==> v !in {"production", "prod", "staging", "stage"})
  {
    assert "production" != "staging" && "dev" != "production" && "dev" != "staging" by {
      assert |"production"| == 10 && |"staging"| == 7 && |"dev"| == 3;
    }
  }

  /** The properties registered at the start: four of them, and the version if there is one. */
  predicate SupersAre(r: Props, config: Config, client: string) {
    && r.Keys == {"client_type", "event_schema_version", "environment", "is_demo"}
                 + (if Known(config.appVersion) then {"app_version"} else {})
    && r["client_type"] == Text(client) && r["event_schema_version"] == Number(2)
    && r["environment"] == Text(NormalizeEnvironment(config.environment)) && r["is_demo"] == Flag(false)
    && (Known(config.appVersion) ==> r["app_version"] == Text(config.appVersion.value))
  }

  lemma SuperPropertiesAre(config: Config, client: string)
    ensures SupersAre(SuperProperties(config, client), config, client)
  {
  }

  function Send(op: Op, user: Option<string>, environment: string): Emission {
    match op
    case EventOp(name, props) => EventSent(name, Enrich(props, user, environment))
    case SetOp(props) => PersonSet(props)
  }

  function SendAll(ops: seq<Op>, user: Option<string>, environment: string): seq<Emission> {
    if ops == [] then [] else [Send(ops[0], user, environment)] + SendAll(ops[1..], user, environment)
  }

  predicate OpSent(op: Op, user: Option<string>, environment: string, e: Emission) {
    match op
    case EventOp(name, props) => e.EventSent? && e.name == name && Enriched(props, user, environment, e.props)
    case SetOp(props) => e == PersonSet(props)
  }

  /** Each operation is sent once, in order. */
  predicate OpsSent(ops: seq<Op>, user: Option<string>, environment: string, sent: seq<Emission>) {
    |sent| == |ops| && forall i :: 0 <= i < |ops| ==> OpSent(ops[i], user, environment, sent[i])
  }

  lemma {:induction false} SendAllSends(ops: seq<Op>, user: Option<string>, environment: string)
    ensures OpsSent(ops, user, environment, SendAll(ops, user, environment))
  {
    if ops != [] {
      SendAllSends(ops[1..], user, environment);
      if ops[0].EventOp? {
        EnrichKeepsCaller(ops[0].props, user, environment);
      }
    }
  }

  /** An empty path is sent as none. */
  function SendPageview(path: string): Emission {
    PageviewSent(if path != "" then Some(path) else None)
  }

  predicate Starts(c: Call) {
    c.Init? && c.inBrowser && c.config.Some? && c.config.value.key != ""
  }

  function Emit(s: State, e: Emission): State {
    s.(sent := s.sent + [e])
  }

  // ------------------------------------------------------------- transitions

  /** What was held back goes out: the identify, the page view, then the rest in order. */
  function Flushed(s: State): State {
    var user := if s.pendingIdentify.Some? then Some(s.pendingIdentify.value.id) else s.currentUserId;
    var sent1 := if s.pendingIdentify.Some? then s.sent + [Identified(s.pendingIdentify.value)] else s.sent;
    var sent2 := if s.pendingPageview.Some? then sent1 + [SendPageview(s.pendingPageview.value)] else sent1;
    s.(pendingIdentify := None, currentUserId := user, pendingPageview := None, pendingOps := [],
       sent := sent2 + SendAll(s.pendingOps, user, s.environment))
  }

  function Registering(s: State, config: Config, client: string): State {
    var supers := SuperProperties(config, client);
    s.(initialized := true, environment := NormalizeEnvironment(config.environment), superProperties := supers,
       sent := s.sent + [Started(config.key, HostOf(config))] + [Registered(supers)])
  }

  function StartUp(s: State, config: Config, client: string): State {
    Flushed(Registering(s, config, client))
  }

  function Step(s: State, c: Call): State {
    match c
    case Init(_, _, client) =>
      if Starts(c) && !s.initialized then StartUp(s, c.config.value, client) else s
    case Identify(user) =>
      var s1 := s.(currentUserId := Some(user.id));
      if s.initialized then Emit(s1, Identified(user)) else s1.(pendingIdentify := Some(user))
    case CaptureEvent(name, props) =>
      if s.initialized then Emit(s, EventSent(name, Enrich(props, s.currentUserId, s.environment)))
      else s.(pendingOps := s.pendingOps + [EventOp(name, props)])
    case SetPerson(props) =>
      if s.initialized then Emit(s, PersonSet(props)) else s.(pendingOps := s.pendingOps + [SetOp(props)])
    case Pageview(path) =>
      var p := if path.Some? then path.value else "";
      if s.initialized then Emit(s, SendPageview(p)) else s.(pendingPageview := Some(p))
    case Reset =>
      var s1 := s.(currentUserId := None, pendingIdentify := None, pendingPageview := None, pendingOps := []);
      if !s.initialized then s1
      else if |s.superProperties.Keys| > 0 then Emit(Emit(s1, WasReset), Registered(s.superProperties))
      else Emit(s1, WasReset)
  }

  function Run(calls: seq<Call>): State {
    if calls == [] then INITIAL else Step(Run(calls[..|calls| - 1]), calls[|calls| - 1])
  }

  /** The module's variables, and the library as the record of what reached it. */
  class AnalyticsClient {
    var initialized: bool
    var pendingIdentify: Option<User>
    var currentUserId: Option<string>
    var environment: string
    var pendingPageview: Option<string>
    var pendingOps: seq<Op>
    var superProperties: Props
    var posthog: seq<Emission>

    function Now(): State
      reads this
    {
      State(initialized, pendingIdentify, currentUserId, environment, pendingPageview, pendingOps, superProperties, posthog)
    }

    constructor ()
      ensures Now() == INITIAL
    {
      initialized, pendingIdentify, currentUserId, environment := false, None, None, "dev";
      pendingPageview, pendingOps, superProperties, posthog := None, [], map[], [];
    }

    method InitAnalytics(inBrowser: bool, config: Option<Config>, client: string) returns (running: bool)
      modifies this
      ensures Now() == Step(old(Now()), Init(inBrowser, config, client))
      ensures running == (inBrowser && config.Some? && config.value.key != "")
    {
      if !inBrowser || config.None? || config.value.key == "" {
        return false;
      }
      if initialized {
        return true;
      }
      posthog := posthog + [Started(config.value.key, HostOf(config.value))];
      environment := NormalizeEnvironment(config.value.environment);
      superProperties := SuperProperties(config.value, client);
      posthog := posthog + [Registered(superProperties)];
      initialized := true;
      Flush();
      running := true;
    }

    method Flush()
      modifies this
      ensures Now() == Flushed(old(Now()))
    {
      if pendingIdentify.Some? {
        currentUserId := Some(pendingIdentify.value.id);
        posthog := posthog + [Identified(pendingIdentify.value)];
        pendingIdentify := None;
      }
      if pendingPageview.Some? {
        posthog := posthog + [SendPageview(pendingPageview.value)];
        pendingPageview := None;
      }
      DrainPendingOps();
    }

    method DrainPendingOps()
      modifies this`pendingOps, this`posthog
      ensures pendingOps == []
      ensures posthog == old(posthog) + SendAll(old(pendingOps), currentUserId, environment)
      ensures |old(posthog)| <= |posthog| && posthog[..|old(posthog)|] == old(posthog)
      ensures OpsSent(old(pendingOps), currentUserId, environment, posthog[|old(posthog)|..])
    {
      SendAllSends(pendingOps, currentUserId, environment);
      while |pendingOps| > 0
        invariant posthog + SendAll(pendingOps, currentUserId, environment) == old(posthog) + SendAll(old(pendingOps), currentUserId, environment)
        decreases |pendingOps|
      {
        var op := pendingOps[0];
        pendingOps := pendingOps[1..];
        match op
        case EventOp(name, props) =>
          posthog := posthog + [EventSent(name, Enrich(props, currentUserId, environment))];
        case SetOp(props) =>
          posthog := posthog + [PersonSet(props)];
      }
    }

    method IdentifyUser(user: User)
      modifies this
      ensures Now() == Step(old(Now()), Identify(user))
    {
      currentUserId := Some(user.id);
      if !initialized {
        pendingIdentify := Some(user);
        return;
      }
      posthog := posthog + [Identified(user)];
    }

    method Capture(name: string, props: Props)
      modifies this
      ensures Now() == Step(old(Now()), CaptureEvent(name, props))
    {
      if !initialized {
        pendingOps := pendingOps + [EventOp(name, props)];
        return;
      }
      posthog := posthog + [EventSent(name, Enrich(props, currentUserId, environment))];
    }

    method SetPersonProperties(props: Props)
      modifies this
      ensures Now() == Step(old(Now()), SetPerson(props))
    {
      if !initialized {
        pendingOps := pendingOps + [SetOp(props)];
        return;
      }
      posthog := posthog + [PersonSet(props)];
    }

    method CapturePageview(path: Option<string>)
      modifies this
      ensures Now() == Step(old(Now()), Pageview(path))
    {
      if !initialized {
        pendingPageview := Some(if path.Some? then path.value else "");
        return;
      }
      posthog := posthog + [PageviewSent(if path.Some? && path.value != "" then path else None)];
    }

    method ResetAnalytics()
      modifies this
      ensures Now() == Step(old(Now()), Reset)
    {
      currentUserId, pendingIdentify, pendingPageview, pendingOps := None, None, None, [];
      if !initialized {
        return;
      }
      posthog := posthog + [WasReset];
      if |superProperties.Keys| > 0 {
        posthog := posthog + [Registered(superProperties)];
      }
    }

    method Dispatch(c: Call)
      modifies this
      ensures Now() == Step(old(Now()), c)
    {
      match c
      case Init(inBrowser, config, client) => var _ := InitAnalytics(inBrowser, config, client);
      case Identify(user) => IdentifyUser(user);
      case CaptureEvent(name, props) => Capture(name, props);
      case SetPerson(props) => SetPersonProperties(props);
      case Pageview(path) => CapturePageview(path);
      case Reset => ResetAnalytics();
    }

    /** From the start, any sequence of calls takes the client through the run of that sequence. */
    method Replay(calls: seq<Call>)
      requires Now() == INITIAL
      modifies this
      ensures Now() == Run(calls)
    {
      for i := 0 to |calls|
        invariant Now() == Run(calls[..i])
      {
        assert calls[..i + 1][..i] == calls[..i];
        Dispatch(calls[i]);
      }
      assert calls[..|calls|] == calls;
    }
  }

  // ------------------------- what should be sent, read off the calls alone

  /** The calls behind the last reset. */
  function SinceReset(calls: seq<Call>): seq<Call> {
    if calls == [] || calls[|calls| - 1].Reset? then []
    else SinceReset(calls[..|calls| - 1]) + [calls[|calls| - 1]]
  }

  function LastIdentify(calls: seq<Call>): Option<User> {
    if calls == [] then None
    else if calls[|calls| - 1].Identify? then Some(calls[|calls| - 1].user)
    else LastIdentify(calls[..|calls| - 1])
  }

  function LastPageview(calls: seq<Call>): Option<string> {
    if calls == [] then None
    else if calls[|calls| - 1].Pageview? then
      Some(if calls[|calls| - 1].path.Some? then calls[|calls| - 1].path.value else "")
    else LastPageview(calls[..|calls| - 1])
  }

  /** The events and person-sets called, in order. */
  function Ops(calls: seq<Call>): seq<Op> {
    if calls == [] then []
    else
      var front, last := Ops(calls[..|calls| - 1]), calls[|calls| - 1];
      match last
      case CaptureEvent(name, props) => front + [EventOp(name, props)]
      case SetPerson(props) => front + [SetOp(props)]
      case _ => front
  }

  /** Who is identified after the calls. */
  function UserAfter(calls: seq<Call>): Option<string> {
    var user := LastIdentify(SinceReset(calls));
    if user.Some? then Some(user.value.id) else None
  }

  /** What one call sends once the library runs, `user` being identified before it. */
  function SentBy(c: Call, user: Option<string>, environment: string, supers: Props): seq<Emission> {
    match c
    case Init(_, _, _) => []
    case Identify(u) => [Identified(u)]
    case CaptureEvent(name, props) => [EventSent(name, Enrich(props, user, environment))]
    case SetPerson(props) => [PersonSet(props)]
    case Pageview(path) => [SendPageview(if path.Some? then path.value else "")]
    case Reset => [WasReset, Registered(supers)]
  }

  predicate NoStart(calls: seq<Call>) {
    forall c :: c in calls ==> !Starts(c)
  }

  /** At start: the last identify and page view, then every event and person-set, of the calls since the last reset. */
  function SentAtStart(before: seq<Call>, start: Call): seq<Emission>
    requires Starts(start)
  {
    var live := SinceReset(before);
    var supers := SuperProperties(start.config.value, start.client);
    [Started(start.config.value.key, HostOf(start.config.value)), Registered(supers)]
    + (if LastIdentify(live).Some? then [Identified(LastIdentify(live).value)] else [])
    + (if LastPageview(live).Some? then [SendPageview(LastPageview(live).value)] else [])
    + SendAll(Ops(live), UserAfter(before), NormalizeEnvironment(start.config.value.environment))
  }

  /** Behind the start: what each call sends, in order. */
  function SentAfter(before: seq<Call>, start: Call, after: seq<Call>): seq<Emission>
    requires Starts(start)
  {
    if after == [] then []
    else
      var front, last := after[..|after| - 1], after[|after| - 1];
      SentAfter(before, start, front)
      + SentBy(last, UserAfter(before + [start] + front), NormalizeEnvironment(start.config.value.environment),
          SuperProperties(start.config.value, start.client))
  }

  // ------------------------- the same, emission by emission

  predicate IsOp(c: Call) {
    c.CaptureEvent? || c.SetPerson?
  }

  /** What an event or a person-set call is sent as. */
  predicate CallSent(c: Call, user: Option<string>, environment: string, e: Emission) {
    match c
    case CaptureEvent(name, props) => e.EventSent? && e.name == name && Enriched(props, user, environment, e.props)
    case SetPerson(props) => e == PersonSet(props)
    case _ => false
  }

  predicate EachSent(calls: seq<Call>, user: Option<string>, environment: string, sent: seq<Emission>) {
    |sent| == |calls| && forall i :: 0 <= i < |calls| ==> CallSent(calls[i], user, environment, sent[i])
  }

  /**
   The emissions of the start: the library's start and its properties, the last
   identify and the last page view of the calls since the last reset, if any, and
   every event and person-set since then, each once and in the order of the calls.
   */
  predicate StartSends(before: seq<Call>, start: Call, sent: seq<Emission>)
    requires Starts(start)
  {
    var config, live := start.config.value, SinceReset(before);
    var user, path := LastIdentify(live), LastPageview(live);
    var k := 2 + (if user.Some? then 1 else 0) + (if path.Some? then 1 else 0);
    && k <= |sent|
    && sent[0] == Started(config.key, if config.host != "" then config.host else "https://us.i.posthog.com")
    && sent[1].Registered? && SupersAre(sent[1].props, config, start.client)
    && (user.Some? ==> sent[2] == Identified(user.value))
    && (path.Some? ==> sent[k - 1] == PageviewSent(if path.value != "" then path else None))
    && EachSent(Sorting.Filter(live, IsOp), if user.Some? then Some(user.value.id) else None,
         NormalizeEnvironment(config.environment), sent[k..])
  }

  /** The emissions of one call on a running client, `user` being identified before it. */
  predicate CallSends(c: Call, user: Option<string>, start: Call, sent: seq<Emission>)
    requires Starts(start)
  {
    match c
    case Init(_, _, _) => sent == []
    case Identify(u) => sent == [Identified(u)]
    case CaptureEvent(_, _) =>
      |sent| == 1 && CallSent(c, user, NormalizeEnvironment(start.config.value.environment), sent[0])
    case SetPerson(props) => sent == [PersonSet(props)]
    case Pageview(path) => sent == [PageviewSent(if Known(path) then path else None)]
    case Reset => |sent| == 2 && sent[0] == WasReset && sent[1].Registered? && SupersAre(sent[1].props, start.config.value, start.client)
  }

  /** `sent` is what the calls say: the emissions of the start, then those of each call, in order. */
  predicate SentAsCalled(before: seq<Call>, start: Call, after: seq<Call>, sent: seq<Emission>)
    requires Starts(start)
    decreases |after|
  {
    if after == [] then StartSends(before, start, sent)
    else
      var front, last := after[..|after| - 1], after[|after| - 1];
      exists n :: 0 <= n <= |sent| && SentAsCalled(before, start, front, sent[..n])
                  && CallSends(last, UserAfter(before + [start] + front), start, sent[n..])
  }

  lemma {:induction false} OpsAreCalls(calls: seq<Call>, user: Option<string>, environment: string, sent: seq<Emission>)
    requires OpsSent(Ops(calls), user, environment, sent)
    ensures EachSent(Sorting.Filter(calls, IsOp), user, environment, sent)
  {
    if calls != [] {
      var front, last := calls[..|calls| - 1], calls[|calls| - 1];
      if IsOp(last) {
        OpsAreCalls(front, user, environment, sent[..|sent| - 1]);
      } else {
        OpsAreCalls(front, user, environment, sent);
      }
    }
  }

  lemma SentAtStartIs(before: seq<Call>, start: Call)
    requires Starts(start)
    ensures StartSends(before, start, SentAtStart(before, start))
  {
    var config, live := start.config.value, SinceReset(before);
    var environment := NormalizeEnvironment(config.environment);
    var k := 2 + (if LastIdentify(live).Some? then 1 else 0) + (if LastPageview(live).Some? then 1 else 0);
    var ops := SendAll(Ops(live), UserAfter(before), environment);
    SuperPropertiesAre(config, start.client);
    SendAllSends(Ops(live), UserAfter(before), environment);
    assert SentAtStart(before, start)[k..] == ops;
    OpsAreCalls(live, UserAfter(before), environment, ops);
  }

  lemma SentByIs(c: Call, user: Option<string>, start: Call)
    requires Starts(start)
    ensures CallSends(c, user, start,
              SentBy(c, user, NormalizeEnvironment(start.config.value.environment), SuperProperties(start.config.value, start.client)))
  {
    SuperPropertiesAre(start.config.value, start.client);
    if c.CaptureEvent? {
      EnrichKeepsCaller(c.props, user, NormalizeEnvironment(start.config.value.environment));
    }
  }

  lemma {:induction false} SentIsAsCalled(before: seq<Call>, start: Call, after: seq<Call>)
    requires Starts(start)
    ensures SentAsCalled(before, start, after, SentAtStart(before, start) + SentAfter(before, start, after))
  {
    if after == [] {
      assert SentAtStart(before, start) + [] == SentAtStart(before, start);
      SentAtStartIs(before, start);
    } else {
      var front, last := after[..|after| - 1], after[|after| - 1];
      assert after == front + [last];
      SentIsAsCalled(before, start, front);
      NextAsCalled(before, start, front, last);
    }
  }

  lemma NextAsCalled(before: seq<Call>, start: Call, front: seq<Call>, last: Call)
    requires Starts(start)
    requires SentAsCalled(before, start, front, SentAtStart(before, start) + SentAfter(before, start, front))
    ensures SentAsCalled(before, start, front + [last], SentAtStart(before, start) + SentAfter(before, start, front + [last]))
  {
    var user, config := UserAfter(before + [start] + front), start.config.value;
    SentByIs(last, user, start);
    SentAfterSnoc(before, start, front, last);
    OneMoreAsCalled(before, start, front, last, SentAtStart(before, start) + SentAfter(before, start, front),
      SentBy(last, user, NormalizeEnvironment(config.environment), SuperProperties(config, start.client)));
  }

  lemma OneMoreAsCalled(before: seq<Call>, start: Call, front: seq<Call>, last: Call, sent: seq<Emission>, out: seq<Emission>)
    requires Starts(start) && SentAsCalled(before, start, front, sent)
    requires CallSends(last, UserAfter(before + [start] + front), start, out)
    ensures SentAsCalled(before, start, front + [last], sent + out)
  {
    var after, all := front + [last], sent + out;
    assert after[..|after| - 1] == front;
    assert all[..|sent|] == sent && all[|sent|..] == out;
  }

  // ------------------------------------------------------------- the theorem

  lemma SinceResetSnoc(calls: seq<Call>, c: Call)
    ensures SinceReset(calls + [c]) == if c.Reset? then [] else SinceReset(calls) + [c]
    ensures UserAfter(calls + [c]) == if c.Reset? then None else if c.Identify? then Some(c.user.id) else UserAfter(calls)
  {
    assert (calls + [c])[..|calls|] == calls;
    var live := SinceReset(calls);
    assert (live + [c])[..|live|] == live;
  }

  lemma BuffersSnoc(calls: seq<Call>, c: Call)
    ensures LastIdentify(calls + [c]) == if c.Identify? then Some(c.user) else LastIdentify(calls)
    ensures LastPageview(calls + [c]) ==
            if c.Pageview? then Some(if c.path.Some? then c.path.value else "") else LastPageview(calls)
    ensures Ops(calls + [c]) ==
            if c.CaptureEvent? then Ops(calls) + [EventOp(c.name, c.props)]
            else if c.SetPerson? then Ops(calls) + [SetOp(c.props)]
            else Ops(calls)
  {
    assert (calls + [c])[..|calls|] == calls;
  }

  /** Not started, with nothing sent, and with the buffers that the calls since the last reset give. */
  predicate Buffered(s: State, calls: seq<Call>) {
    var live := SinceReset(calls);
    && !s.initialized && s.sent == []
    && s.pendingIdentify == LastIdentify(live) && s.pendingPageview == LastPageview(live) && s.pendingOps == Ops(live)
    && s.currentUserId == UserAfter(calls)
  }

  lemma BufferedStep(s: State, calls: seq<Call>, c: Call)
    requires Buffered(s, calls) && !Starts(c)
    ensures Buffered(Step(s, c), calls + [c])
  {
    SinceResetSnoc(calls, c);
    BuffersSnoc(SinceReset(calls), c);
  }

  lemma BufferedSnoc(calls: seq<Call>, c: Call)
    requires Buffered(Run(calls), calls) && !Starts(c)
    ensures Buffered(Run(calls + [c]), calls + [c])
  {
    RunSnoc(calls, c);
    BufferedStep(Run(calls), calls, c);
  }

  /** Before the start nothing is sent, and the buffers are what the calls since the last reset say. */
  lemma {:induction false} Buffering(calls: seq<Call>)
    requires NoStart(calls)
    ensures Buffered(Run(calls), calls)
  {
    if calls != [] {
      var front, last := calls[..|calls| - 1], calls[|calls| - 1];
      assert last in calls && calls == front + [last];
      Buffering(front);
      BufferedSnoc(front, last);
    }
  }

  /** Started with `start`: nothing is pending, and nothing will be. */
  predicate Running(s: State, start: Call)
    requires Starts(start)
  {
    && s.initialized
    && s.pendingIdentify == None && s.pendingPageview == None && s.pendingOps == []
    && s.environment == NormalizeEnvironment(start.config.value.environment)
    && s.superProperties == SuperProperties(start.config.value, start.client)
  }

  lemma StartUpSends(s: State, before: seq<Call>, start: Call)
    requires Starts(start) && !s.initialized && s.sent == []
    requires s.pendingIdentify == LastIdentify(SinceReset(before)) && s.pendingPageview == LastPageview(SinceReset(before))
    requires s.pendingOps == Ops(SinceReset(before)) && s.currentUserId == UserAfter(before)
    ensures StartUp(s, start.config.value, start.client).sent == SentAtStart(before, start)
  {
    var config, live := start.config.value, SinceReset(before);
    var hello := [Started(config.key, HostOf(config)), Registered(SuperProperties(config, start.client))];
    assert s.sent + [hello[0]] + [hello[1]] == hello;
    assert hello + [] == hello;
    var h2 := if LastIdentify(live).Some? then hello + [Identified(LastIdentify(live).value)] else hello;
    assert h2 + [] == h2;
  }

  lemma StartingUp(before: seq<Call>, start: Call)
    requires NoStart(before) && Starts(start)
    ensures Running(Run(before + [start]), start)
    ensures Run(before + [start]).sent == SentAtStart(before, start)
    ensures Run(before + [start]).currentUserId == UserAfter(before + [start])
  {
    Buffering(before);
    assert (before + [start])[..|before|] == before;
    SinceResetSnoc(before, start);
    StartUpSends(Run(before), before, start);
  }

  /** One call on a running client sends its own and leaves nothing pending. */
  lemma RunningStep(s: State, start: Call, c: Call)
    requires Starts(start) && Running(s, start)
    ensures Running(Step(s, c), start)
    ensures Step(s, c).sent == s.sent + SentBy(c, s.currentUserId, s.environment, s.superProperties)
    ensures Step(s, c).currentUserId == if c.Reset? then None else if c.Identify? then Some(c.user.id) else s.currentUserId
  {
    assert s.sent + [] == s.sent;
    assert "client_type" in s.superProperties.Keys;
    assert s.sent + [WasReset] + [Registered(s.superProperties)] == s.sent + [WasReset, Registered(s.superProperties)];
  }

  lemma SentAfterSnoc(before: seq<Call>, start: Call, after: seq<Call>, c: Call)
    requires Starts(start)
    ensures SentAtStart(before, start) + SentAfter(before, start, after + [c]) ==
            SentAtStart(before, start) + SentAfter(before, start, after)
            + SentBy(c, UserAfter(before + [start] + after), NormalizeEnvironment(start.config.value.environment),
                SuperProperties(start.config.value, start.client))
  {
    assert (after + [c])[..|after|] == after;
  }

  lemma RunSnoc(calls: seq<Call>, c: Call)
    ensures Run(calls + [c]) == Step(Run(calls), c)
  {
    assert (calls + [c])[..|calls|] == calls;
  }

  /** The run through `start` and `after` went as the calls say. */
  predicate AsCalled(s: State, before: seq<Call>, start: Call, after: seq<Call>)
    requires Starts(start)
  {
    && Running(s, start)
    && s.sent == SentAtStart(before, start) + SentAfter(before, start, after)
    && s.currentUserId == UserAfter(before + [start] + after)
  }

  lemma CallsSnoc(before: seq<Call>, start: Call, after: seq<Call>, c: Call)
    ensures before + [start] + (after + [c]) == before + [start] + after + [c]
  {
  }

  lemma AsCalledStep(s: State, before: seq<Call>, start: Call, after: seq<Call>, c: Call)
    requires Starts(start) && AsCalled(s, before, start, after)
    ensures AsCalled(Step(s, c), before, start, after + [c])
  {
    var s' := Step(s, c);
    assert s'.sent == SentAtStart(before, start) + SentAfter(before, start, after + [c]) && Running(s', start) by {
      RunningStep(s, start, c);
      SentAfterSnoc(before, start, after, c);
    }
    assert s'.currentUserId == UserAfter(before + [start] + (after + [c])) by {
      RunningStep(s, start, c);
      CallsSnoc(before, start, after, c);
      SinceResetSnoc(before + [start] + after, c);
    }
  }

  lemma EmittedNothingYet(before: seq<Call>, start: Call)
    requires NoStart(before) && Starts(start)
    ensures AsCalled(Run(before + [start] + []), before, start, [])
  {
    StartingUp(before, start);
    assert before + [start] + [] == before + [start];
    assert SentAtStart(before, start) + [] == SentAtStart(before, start);
  }

  lemma EmittedOneMore(before: seq<Call>, start: Call, after: seq<Call>, c: Call)
    requires Starts(start) && AsCalled(Run(before + [start] + after), before, start, after)
    ensures AsCalled(Run(before + [start] + (after + [c])), before, start, after + [c])
  {
    CallsSnoc(before, start, after, c);
    RunSnoc(before + [start] + after, c);
    AsCalledStep(Run(before + [start] + after), before, start, after, c);
  }

  lemma {:induction false} RunsAsCalled(before: seq<Call>, start: Call, after: seq<Call>)
    requires NoStart(before) && Starts(start)
    ensures AsCalled(Run(before + [start] + after), before, start, after)
  {
    if after == [] {
      EmittedNothingYet(before, start);
    } else {
      var front, last := after[..|after| - 1], after[|after| - 1];
      assert after == front + [last];
      RunsAsCalled(before, start, front);
      EmittedOneMore(before, start, front, last);
    }
  }

  /**
   For any sequence of calls, what reaches the library is what the calls alone
   say: nothing before the first start; at the start, of the calls since the last
   reset, the last identify, the last page view and every event and person-set in
   order; and behind it each call once, at once. The buffers are empty from then on.
   */
  lemma EmittedExactly(before: seq<Call>, start: Call, after: seq<Call>)
    requires NoStart(before) && Starts(start)
    ensures Run(before).sent == []
    ensures SentAsCalled(before, start, after, Run(before + [start] + after).sent)
    ensures Running(Run(before + [start] + after), start)
  {
    Buffering(before);
    RunsAsCalled(before, start, after);
    SentIsAsCalled(before, start, after);
  }

  lemma SinceResetForgetsOne(calls: seq<Call>, live: seq<Call>, c: Call)
    requires SinceReset(calls) == SinceReset(live)
    ensures SinceReset(calls + [c]) == SinceReset(live + [c])
  {
    SinceResetSnoc(calls, c);
    SinceResetSnoc(live, c);
  }

  lemma {:induction false} SinceResetForgets(before: seq<Call>, live: seq<Call>)
    ensures SinceReset(before + [Reset] + live) == SinceReset(live)
  {
    if live == [] {
      assert before + [Reset] + live == before + [Reset];
      SinceResetSnoc(before, Reset);
    } else {
      var front, last := live[..|live| - 1], live[|live| - 1];
      assert live == front + [last];
      SinceResetForgets(before, front);
      SinceResetForgetsOne(before + [Reset] + front, front, last);
      assert before + [Reset] + live == before + [Reset] + front + [last];
    }
  }

  lemma {:induction false} SentAfterForgets(before: seq<Call>, live: seq<Call>, start: Call, after: seq<Call>)
    requires Starts(start)
    ensures SentAfter(before + [Reset] + live, start, after) == SentAfter(live, start, after)
  {
    if after != [] {
      var front := after[..|after| - 1];
      SentAfterForgets(before, live, start, front);
      SinceResetForgets(before, live + [start] + front);
      assert before + [Reset] + (live + [start] + front) == before + [Reset] + live + [start] + front;
    }
  }

  /** A reset before the start forgets: what was called before it makes no difference to what is ever sent. */
  lemma ResetForgets(before: seq<Call>, live: seq<Call>, start: Call, after: seq<Call>)
    requires NoStart(before) && NoStart(live) && Starts(start)
    ensures Run(before + [Reset] + live + [start] + after).sent == Run(live + [start] + after).sent
  {
    RunsAsCalled(before + [Reset] + live, start, after);
    RunsAsCalled(live, start, after);
    SinceResetForgets(before, live);
    SentAfterForgets(before, live, start, after);
  }
}
