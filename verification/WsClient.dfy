/**
 The reconnecting WebSocket client (packages/core/api/ws-client.ts:49-160), with
 the browser's sockets and timers beside it.
 */
module WsClients {
  import opened Wrappers

  datatype Phase = Connecting | Open | Closing | Closed

  /** `watched`: the client's `onclose` is attached. */
  datatype Socket = Socket(phase: Phase, watched: bool)

  /**
   The client's fields and the browser's state. `active` is whether the last of
   the caller's `connect` and `disconnect` was a connect; `auths` has the sockets of
   the authentications since, and `rounds` the callbacks that these ran.
   */
  datatype State = State(
    ws: Option<nat>,
    reconnectTimer: Option<nat>,
    hasConnectedBefore: bool,
    callbacks: set<nat>,
    cookieAuth: bool,
    token: Option<string>,
    sockets: map<nat, Socket>,
    timers: set<nat>,
    next: nat,
    active: bool,
    auths: seq<nat>,
    rounds: seq<set<nat>>)

  datatype Event =
    | Connect
    | Disconnect
    | Opened(socket: nat)
    | AuthAck(socket: nat)
    | Closes(socket: nat)
    | ClosedByPeer(socket: nat)
    | TimerFires(timer: nat)
    | AddCallback(cb: nat)
    | DropCallback(cb: nat)
    | SetAuth(token: Option<string>)

  function Initial(cookieAuth: bool): State {
    State(None, None, false, {}, cookieAuth, None, map[], {}, 1, false, [], [])
  }

  /** A socket whose close the client will hear of. */
  predicate Live(k: Socket) {
    k.watched && k.phase != Closed
  }

  /** What the browser may do next. The server may confirm at any time while the socket is open. */
  predicate Enabled(s: State, e: Event) {
    match e
    case Opened(k) => k in s.sockets && s.sockets[k].phase == Connecting
    case AuthAck(k) => k in s.sockets && s.sockets[k].phase == Open
    case Closes(k) => k in s.sockets && (s.sockets[k].phase == Connecting || s.sockets[k].phase == Open)
    case ClosedByPeer(k) => k in s.sockets && s.sockets[k].phase != Closed
    case TimerFires(t) => t in s.timers
    case _ => true
  }

  function OpenSocket(s: State): State {
    s.(ws := Some(s.next), sockets := s.sockets[s.next := Socket(Connecting, true)], next := s.next + 1)
  }

  function Authenticated(s: State, k: nat): State {
    s.(hasConnectedBefore := true,
       auths := s.auths + [k],
       rounds := if s.hasConnectedBefore then s.rounds + [s.callbacks] else s.rounds)
  }

  /** In token mode the token goes out when the socket opens. */
  predicate SendsToken(s: State) {
    !s.cookieAuth && s.token.Some? && s.token.value != ""
  }

  /** The handlers are taken off and the socket is closed. */
  function LetGo(sockets: map<nat, Socket>, k: nat): map<nat, Socket> {
    if k !in sockets then sockets
    else sockets[k := Socket(if sockets[k].phase == Closed then Closed else Closing, false)]
  }

  function Next(s: State, e: Event): State
    requires Enabled(s, e)
  {
    match e
    case Connect => OpenSocket(s).(active := true)
    case Disconnect =>
      s.(ws := None,
         reconnectTimer := None,
         hasConnectedBefore := false,
         callbacks := {},
         timers := if s.reconnectTimer.Some? then s.timers - {s.reconnectTimer.value} else s.timers,
         sockets := if s.ws.Some? then LetGo(s.sockets, s.ws.value) else s.sockets,
         active := false, auths := [], rounds := [])
    case Opened(k) =>
      var s1 := s.(sockets := s.sockets[k := s.sockets[k].(phase := Open)]);
      if SendsToken(s) then s1 else Authenticated(s1, k)
    case AuthAck(k) => Authenticated(s, k)
    case Closes(k) => s.(sockets := s.sockets[k := s.sockets[k].(phase := Closing)])
    case ClosedByPeer(k) =>
      var s1 := s.(sockets := s.sockets[k := s.sockets[k].(phase := Closed)]);
      if s.sockets[k].watched then s1.(reconnectTimer := Some(s.next), timers := s.timers + {s.next}, next := s.next + 1)
      else s1
    case TimerFires(t) => OpenSocket(s.(timers := s.timers - {t}))
    case AddCallback(cb) => s.(callbacks := s.callbacks + {cb})
    case DropCallback(cb) => s.(callbacks := s.callbacks - {cb})
    case SetAuth(token) => s.(token := token)
  }

  class WSClient {
    var ws: Option<nat>
    var reconnectTimer: Option<nat>
    var hasConnectedBefore: bool
    var onReconnectCallbacks: set<nat>
    const cookieAuth: bool
    var token: Option<string>
    var sockets: map<nat, Socket>
    var timers: set<nat>
    var next: nat
    ghost var active: bool
    ghost var auths: seq<nat>
    var rounds: seq<set<nat>>

    ghost function Now(): State
      reads this
    {
      State(ws, reconnectTimer, hasConnectedBefore, onReconnectCallbacks, cookieAuth, token, sockets, timers, next,
        active, auths, rounds)
    }

    constructor (cookieAuth: bool)
      ensures Now() == Initial(cookieAuth)
    {
      this.cookieAuth := cookieAuth;
      ws, reconnectTimer, hasConnectedBefore, onReconnectCallbacks, token := None, None, false, {}, None;
      sockets, timers, next, active, auths, rounds := map[], {}, 1, false, [], [];
    }

    /** `connect`, whether a caller or a timer calls it. */
    method NewSocket()
      modifies this`ws, this`sockets, this`next
      ensures Now() == OpenSocket(old(Now()))
    {
      var k := next;
      next := next + 1;
      sockets := sockets[k := Socket(Connecting, true)];
      ws := Some(k);
    }

    method ConnectClient()
      modifies this
      ensures Now() == Next(old(Now()), Connect)
    {
      NewSocket();
      active := true;
    }

    method OnAuthenticated(ghost k: nat)
      modifies this
      ensures Now() == Authenticated(old(Now()), k)
    {
      auths := auths + [k];
      if hasConnectedBefore {
        rounds := rounds + [onReconnectCallbacks];
      }
      hasConnectedBefore := true;
    }

    method OnOpen(k: nat)
      requires Enabled(Now(), Opened(k))
      modifies this
      ensures Now() == Next(old(Now()), Opened(k))
    {
      sockets := sockets[k := sockets[k].(phase := Open)];
      if !cookieAuth && token.Some? && token.value != "" {
        return;
      }
      OnAuthenticated(k);
    }

    method OnAuthAck(k: nat)
      requires Enabled(Now(), AuthAck(k))
      modifies this
      ensures Now() == Next(old(Now()), AuthAck(k))
    {
      OnAuthenticated(k);
    }

    method OnClose(k: nat)
      requires Enabled(Now(), ClosedByPeer(k))
      modifies this
      ensures Now() == Next(old(Now()), ClosedByPeer(k))
    {
      var watched := sockets[k].watched;
      sockets := sockets[k := sockets[k].(phase := Closed)];
      if watched {
        reconnectTimer := Some(next);
        timers := timers + {next};
        next := next + 1;
      }
    }

    method OnTimer(t: nat)
      requires Enabled(Now(), TimerFires(t))
      modifies this
      ensures Now() == Next(old(Now()), TimerFires(t))
    {
      timers := timers - {t};
      NewSocket();
    }

    method StopTimer()
      modifies this`reconnectTimer, this`timers
      ensures reconnectTimer == None
      ensures timers == if old(reconnectTimer).Some? then old(timers) - {old(reconnectTimer).value} else old(timers)
    {
      if reconnectTimer.Some? {
        timers := timers - {reconnectTimer.value};
        reconnectTimer := None;
      }
    }

    method LetSocketGo()
      modifies this`ws, this`sockets
      ensures ws == None
      ensures sockets == if old(ws).Some? then LetGo(old(sockets), old(ws).value) else old(sockets)
    {
      if ws.Some? {
        sockets := LetGo(sockets, ws.value);
        ws := None;
      }
    }

    method DisconnectClient()
      modifies this
      ensures Now() == Next(old(Now()), Disconnect)
    {
      StopTimer();
      LetSocketGo();
      hasConnectedBefore := false;
      onReconnectCallbacks := {};
      active, auths, rounds := false, [], [];
    }

    method Dispatch(e: Event)
      requires Enabled(Now(), e)
      modifies this
      ensures Now() == Next(old(Now()), e)
    {
      match e
      case Connect => ConnectClient();
      case Disconnect => DisconnectClient();
      case Opened(k) => OnOpen(k);
      case AuthAck(k) => OnAuthAck(k);
      case Closes(k) => sockets := sockets[k := sockets[k].(phase := Closing)];
      case ClosedByPeer(k) => OnClose(k);
      case TimerFires(t) => OnTimer(t);
      case AddCallback(cb) => onReconnectCallbacks := onReconnectCallbacks + {cb};
      case DropCallback(cb) => onReconnectCallbacks := onReconnectCallbacks - {cb};
      case SetAuth(auth) => token := auth;
    }

    /** The client goes through every run that begins as it is. */
    method Replay(events: seq<Event>, ghost states: seq<State>)
      requires |states| == |events| + 1 && Now() == states[0]
      requires forall i :: 0 <= i < |events| ==> Enabled(states[i], events[i]) && states[i + 1] == Next(states[i], events[i])
      modifies this
      ensures Now() == states[|events|]
    {
      for i := 0 to |events|
        invariant Now() == states[i]
      {
        Dispatch(events[i]);
      }
    }
  }

  // --------------------------------------------------------------- invariant

  /** Only socket `k` is live, or none. */
  predicate OnlyLive(s: State, k: Option<nat>) {
    forall i :: i in s.sockets && Live(s.sockets[i]) ==> k == Some(i)
  }

  /** The current socket is live, and no timer runs. */
  predicate HasSocket(s: State) {
    && s.ws.Some? && s.ws.value in s.sockets && Live(s.sockets[s.ws.value])
    && s.timers == {} && OnlyLive(s, s.ws)
  }

  /** The one running timer is the client's, and no socket is left to start another. */
  predicate HasTimer(s: State) {
    && s.reconnectTimer.Some? && s.timers == {s.reconnectTimer.value} && OnlyLive(s, None)
    && (s.ws.Some? ==> s.ws.value in s.sockets && s.sockets[s.ws.value].phase == Closed)
  }

  predicate IsIdle(s: State) {
    s.ws == None && s.timers == {} && OnlyLive(s, None)
  }

  /** Ids are fresh, and a socket that is not watched has been let go. */
  predicate Bookkept(s: State) {
    && (forall k :: k in s.sockets ==> k < s.next)
    && (forall t :: t in s.timers ==> t < s.next)
    && (forall k :: k in s.sockets && (s.sockets[k].phase == Connecting || s.sockets[k].phase == Open) ==> s.sockets[k].watched)
    && (s.hasConnectedBefore <==> s.auths != [])
    && |s.rounds| == if s.auths == [] then 0 else |s.auths| - 1
  }

  /** While active, exactly one of a live socket and a pending timer; otherwise neither. */
  predicate Invariant(s: State) {
    && Bookkept(s)
    && (if s.active then HasSocket(s) || HasTimer(s) else IsIdle(s))
  }

  predicate AtMostOneLive(s: State) {
    forall j, k :: j in s.sockets && k in s.sockets && Live(s.sockets[j]) && Live(s.sockets[k]) ==> j == k
  }

  lemma ExactlyOne(s: State)
    requires Invariant(s) && s.active
    ensures (s.timers != {}) <==> !(exists k :: k in s.sockets && Live(s.sockets[k]))
    ensures |s.timers| <= 1
    ensures AtMostOneLive(s)
  {
    if HasTimer(s) {
      assert s.reconnectTimer.value in s.timers;
    }
  }

  /** `connect` belongs to an idle client: on an active one it breaks the invariant, whatever the state. */
  lemma ConnectNeedsIdle(s: State)
    requires Invariant(s)
    ensures Invariant(Next(s, Connect)) <==> !s.active
  {
    var s' := Next(s, Connect);
    if s.active {
      if HasSocket(s) {
        assert s.ws.value in s'.sockets && Live(s'.sockets[s.ws.value]);
      } else {
        assert s.reconnectTimer.value in s'.timers;
        assert Live(s'.sockets[s.next]);
      }
    }
  }

  lemma NextKeepsInvariant(s: State, e: Event)
    requires Invariant(s) && Enabled(s, e) && (e.Connect? ==> !s.active)
    ensures Invariant(Next(s, e))
  {
    match e
    case Connect => ConnectNeedsIdle(s);
    case Disconnect => DisconnectIdles(s);
    case Opened(k) => SocketEventKeeps(s, e, k);
    case AuthAck(k) => SocketEventKeeps(s, e, k);
    case Closes(k) => SocketEventKeeps(s, e, k);
    case ClosedByPeer(k) => CloseKeeps(s, k);
    case TimerFires(t) => TimerKeeps(s, t);
    case AddCallback(_) =>
    case DropCallback(_) =>
    case SetAuth(_) =>
  }

  lemma DisconnectIdles(s: State)
    requires Invariant(s)
    ensures Invariant(Next(s, Disconnect)) && IsIdle(Next(s, Disconnect))
  {
  }

  lemma SocketEventKeeps(s: State, e: Event, k: nat)
    requires Invariant(s) && Enabled(s, e) && (e == Opened(k) || e == AuthAck(k) || e == Closes(k))
    ensures Invariant(Next(s, e))
  {
    assert Live(s.sockets[k]);
    assert s.active && HasSocket(s) && s.ws == Some(k);
  }

  lemma CloseKeeps(s: State, k: nat)
    requires Invariant(s) && Enabled(s, ClosedByPeer(k))
    ensures Invariant(Next(s, ClosedByPeer(k)))
  {
    var s' := Next(s, ClosedByPeer(k));
    if s.sockets[k].watched {
      assert Live(s.sockets[k]);
      assert s.active && HasSocket(s) && s.ws == Some(k);
      assert HasTimer(s');
    }
  }

  lemma TimerKeeps(s: State, t: nat)
    requires Invariant(s) && Enabled(s, TimerFires(t))
    ensures Invariant(Next(s, TimerFires(t)))
  {
    assert s.active && HasTimer(s) && s.timers == {t};
    assert s.timers - {t} == {};
  }

  // -------------------------------------------------------------------- runs

  /** A run in which the caller connects only an idle client. */
  predicate IsRun(states: seq<State>, events: seq<Event>, cookieAuth: bool) {
    && |states| == |events| + 1 && states[0] == Initial(cookieAuth)
    && forall i :: 0 <= i < |events| ==>
         && Enabled(states[i], events[i]) && (events[i].Connect? ==> !states[i].active)
         && states[i + 1] == Next(states[i], events[i])
  }

  lemma {:induction false} RunsKeepInvariant(states: seq<State>, events: seq<Event>, cookieAuth: bool, n: nat)
    requires IsRun(states, events, cookieAuth) && n < |states|
    ensures Invariant(states[n])
  {
    if n > 0 {
      RunsKeepInvariant(states, events, cookieAuth, n - 1);
      NextKeepsInvariant(states[n - 1], events[n - 1]);
    }
  }

  lemma IdleStaysIdle(s: State, e: Event)
    requires Invariant(s) && !s.active && Enabled(s, e) && !e.Connect?
    ensures Next(s, e).sockets.Keys == s.sockets.Keys && Next(s, e).timers == {}
  {
    if e.ClosedByPeer? {
      assert !Live(s.sockets[e.socket]);
    }
  }

  // -------------------------------------- what the events alone say of callbacks

  /** The token after the first `n` events. */
  function TokenAfter(events: seq<Event>, n: nat): Option<string>
    requires n <= |events|
  {
    if n == 0 then None else if events[n - 1].SetAuth? then events[n - 1].token else TokenAfter(events, n - 1)
  }

  /** The callbacks that are registered after the first `n` events. */
  function RegisteredAfter(events: seq<Event>, n: nat): set<nat>
    requires n <= |events|
  {
    if n == 0 then {}
    else
      match events[n - 1]
      case AddCallback(cb) => RegisteredAfter(events, n - 1) + {cb}
      case DropCallback(cb) => RegisteredAfter(events, n - 1) - {cb}
      case Disconnect => {}
      case _ => RegisteredAfter(events, n - 1)
  }

  /** Event `n` authenticates a socket: the server's word for it, or the opening when there is no token to send. */
  predicate AuthenticatesAt(events: seq<Event>, cookieAuth: bool, n: nat)
    requires n < |events|
  {
    || events[n].AuthAck?
    || (events[n].Opened? && (cookieAuth || TokenAfter(events, n) == None || TokenAfter(events, n) == Some("")))
  }

  /** The sockets authenticated by the first `n` events since the last disconnect. */
  function AuthsSince(events: seq<Event>, cookieAuth: bool, n: nat): seq<nat>
    requires n <= |events|
  {
    if n == 0 || events[n - 1].Disconnect? then []
    else if AuthenticatesAt(events, cookieAuth, n - 1) then AuthsSince(events, cookieAuth, n - 1) + [events[n - 1].socket]
    else AuthsSince(events, cookieAuth, n - 1)
  }

  /** The callbacks that should have run, round by round: at each authentication but the first, those registered then. */
  function RoundsSince(events: seq<Event>, cookieAuth: bool, n: nat): seq<set<nat>>
    requires n <= |events|
  {
    if n == 0 || events[n - 1].Disconnect? then []
    else if AuthenticatesAt(events, cookieAuth, n - 1) && AuthsSince(events, cookieAuth, n - 1) != [] then
      RoundsSince(events, cookieAuth, n - 1) + [RegisteredAfter(events, n - 1)]
    else RoundsSince(events, cookieAuth, n - 1)
  }

  /** The state's record of callbacks and authentications is what the events say. */
  predicate AsTold(s: State, events: seq<Event>, cookieAuth: bool, n: nat)
    requires n <= |events|
  {
    && s.cookieAuth == cookieAuth && s.token == TokenAfter(events, n) && s.callbacks == RegisteredAfter(events, n)
    && s.auths == AuthsSince(events, cookieAuth, n) && s.rounds == RoundsSince(events, cookieAuth, n)
  }

  /** What one event does to the callbacks and the token. */
  lemma NextInputs(s: State, e: Event)
    requires Enabled(s, e)
    ensures Next(s, e).cookieAuth == s.cookieAuth && Next(s, e).token == if e.SetAuth? then e.token else s.token
    ensures Next(s, e).callbacks ==
            if e.AddCallback? then s.callbacks + {e.cb} else if e.DropCallback? then s.callbacks - {e.cb}
            else if e.Disconnect? then {} else s.callbacks
  {
  }

  /** What one event does to the record of authentications. */
  lemma NextAuths(s: State, e: Event)
    requires Enabled(s, e)
    ensures var authenticates := e.AuthAck? || (e.Opened? && !SendsToken(s));
            && Next(s, e).auths == (if e.Disconnect? then [] else if authenticates then s.auths + [e.socket] else s.auths)
            && Next(s, e).rounds == (if e.Disconnect? then []
                                     else if authenticates && s.hasConnectedBefore then s.rounds + [s.callbacks] else s.rounds)
  {
  }

  lemma AsToldStep(s: State, events: seq<Event>, cookieAuth: bool, n: nat)
    requires n < |events| && AsTold(s, events, cookieAuth, n) && Enabled(s, events[n]) && (s.hasConnectedBefore <==> s.auths != [])
    ensures AsTold(Next(s, events[n]), events, cookieAuth, n + 1)
  {
    NextInputs(s, events[n]);
    NextAuths(s, events[n]);
  }

  /**
   Over every run, read off the events alone: the callbacks run at each
   authentication since the last disconnect but the first, and those run that are
   registered then.
   */
  lemma {:induction false} CallbacksRunWhen(states: seq<State>, events: seq<Event>, cookieAuth: bool, n: nat)
    requires IsRun(states, events, cookieAuth) && n < |states|
    ensures AsTold(states[n], events, cookieAuth, n)
  {
    if n > 0 {
      CallbacksRunWhen(states, events, cookieAuth, n - 1);
      RunsKeepInvariant(states, events, cookieAuth, n - 1);
      AsToldStep(states[n - 1], events, cookieAuth, n - 1);
    }
  }

  function SetOf(s: seq<nat>): set<nat> {
    set k | k in s
  }

  predicate Distinct(s: seq<nat>) {
    forall i, j :: 0 <= i < j < |s| ==> s[i] != s[j]
  }

  lemma {:induction false} DistinctBySize(s: seq<nat>)
    ensures |SetOf(s)| <= |s| && (|SetOf(s)| == |s| <==> Distinct(s))
  {
    if s == [] {
      assert SetOf(s) == {};
    } else {
      var front, last := s[..|s| - 1], s[|s| - 1];
      DistinctBySize(front);
      assert s == front + [last];
      assert SetOf(s) == SetOf(front) + {last};
      if last in front {
        var i :| 0 <= i < |front| && front[i] == last;
        assert s[i] == s[|s| - 1];
        assert SetOf(s) == SetOf(front);
      } else {
        assert Distinct(s) <==> Distinct(front);
      }
    }
  }

  /**
   Safety over every run: while active the client has exactly one of a live socket
   and a pending reconnect timer; while not, no step but `connect` opens a socket or
   starts a timer; the reconnect callbacks ran once for each authentication but the
   first; and so they ran once for each authenticated socket but the first if and
   only if no socket was authenticated twice.
   */
  lemma ReconnectSafety(states: seq<State>, events: seq<Event>, cookieAuth: bool, n: nat)
    requires IsRun(states, events, cookieAuth) && n < |states|
    ensures states[n].active ==>
              ((states[n].timers != {}) <==> !(exists k :: k in states[n].sockets && Live(states[n].sockets[k])))
              && |states[n].timers| <= 1
              && AtMostOneLive(states[n])
    ensures n < |events| && !states[n].active && !events[n].Connect? ==>
              states[n + 1].sockets.Keys == states[n].sockets.Keys && states[n + 1].timers == {}
    ensures var auths := AuthsSince(events, cookieAuth, n);
            && |states[n].rounds| == (if auths == [] then 0 else |auths| - 1)
            && (auths != [] ==> (|states[n].rounds| == |SetOf(auths)| - 1 <==> Distinct(auths)))
  {
    CallbacksRunWhen(states, events, cookieAuth, n);
    RunsKeepInvariant(states, events, cookieAuth, n);
    DistinctBySize(states[n].auths);
    if states[n].active {
      ExactlyOne(states[n]);
    } else if n < |events| && !events[n].Connect? {
      IdleStaysIdle(states[n], events[n]);
    }
  }
}
