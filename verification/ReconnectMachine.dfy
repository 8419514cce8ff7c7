/**
 * The WebSocket client as a state machine: its fields, and the sockets, timers and intervals the browser keeps
 * for it. Any socket the client ever made may still deliver events, replaced ones included.
 */
module ReconnectMachine {
  import opened Options

  /** Failed: the error event was delivered, the close event is to come; Closed: it was delivered too. */
  datatype Socket = Connecting | Open | Closing | Failed | Closed

  datatype Status = StatusConnecting | StatusConnected | StatusDisconnected | StatusError

  const MAX_RECONNECT_ATTEMPTS := 5
  const RECONNECT_DELAY := 1000
  const MAX_RECONNECT_DELAY := 30000

  /** ws, timer and ping are the client's references; sockets, timers (with delays) and intervals the browser's. */
  datatype State = State(
    ws: Option<nat>,
    status: Status,
    attempts: nat,
    delay: nat,
    timer: Option<nat>,
    ping: Option<nat>,
    sockets: seq<Socket>,
    timers: map<nat, nat>,
    intervals: set<nat>,
    nextId: nat)

  /**
   * Connect and Disconnect are calls from outside; the rest comes from the browser. When the server starts the
   * closing handshake (ServerCloses) the socket is closing before any handler runs.
   */
  datatype Event =
    | Connect(throws: bool)
    | Disconnect
    | ServerCloses(i: nat)
    | TimerFires(id: nat, throws: bool)
    | Opens(i: nat)
    | Errors(i: nat)
    | Closes(i: nat, code: int)

  const INITIAL := State(None, StatusDisconnected, 0, RECONNECT_DELAY, None, None, [], map[], {}, 0)

  predicate Enabled(s: State, e: Event) {
    match e
    case Connect(_) => true
    case Disconnect => true
    case ServerCloses(i) => i < |s.sockets| && s.sockets[i] == Open
    case TimerFires(id, _) => id in s.timers
    case Opens(i) => i < |s.sockets| && s.sockets[i] == Connecting
    case Errors(i) => i < |s.sockets| && s.sockets[i] in {Connecting, Open, Closing}
    case Closes(i, _) => i < |s.sockets| && s.sockets[i] != Closed
  }

  // ---- The handlers as functions ----

  function Pow2(n: nat): (r: nat)
    ensures r > 0
  {
    if n == 0 then 1 else 2 * Pow2(n - 1)
  }

  function Min(a: nat, b: nat): nat {
    if a < b then a else b
  }

  predicate IsConnected(s: State) {
    s.ws.Some? && s.ws.value < |s.sockets| && s.sockets[s.ws.value] == Open
  }

  function ClearReconnectTimer(s: State): State {
    if s.timer.Some? then s.(timer := None, timers := s.timers - {s.timer.value}) else s
  }

  function ClearPing(s: State): State {
    if s.ping.Some? then s.(ping := None, intervals := s.intervals - {s.ping.value}) else s
  }

  function StartPing(s: State): State {
    var c := ClearPing(s);
    c.(ping := Some(c.nextId), intervals := c.intervals + {c.nextId}, nextId := c.nextId + 1)
  }

  function Connected(s: State, throws: bool): State {
    if IsConnected(s) then s
    else if throws then s.(status := StatusError)
    else s.(status := StatusConnecting, ws := Some(|s.sockets|), sockets := s.sockets + [Connecting])
  }

  function ClosedByClient(sockets: seq<Socket>, i: nat): seq<Socket> {
    if i < |sockets| && sockets[i] in {Connecting, Open} then sockets[i := Closing] else sockets
  }

  function Disconnected(s: State): State {
    var c := ClearPing(ClearReconnectTimer(s));
    var d := if c.ws.Some? then c.(sockets := ClosedByClient(c.sockets, c.ws.value), ws := None) else c;
    d.(status := StatusDisconnected)
  }

  function HandleOpen(s: State): State {
    StartPing(s.(attempts := 0, delay := RECONNECT_DELAY, status := StatusConnected))
  }

  function HandleError(s: State): State {
    s.(status := StatusError)
  }

  predicate AuthFailure(code: int) {
    code == 1008 || code == 4001 || code == 4401
  }

  predicate Retries(s: State, code: int) {
    !AuthFailure(code) && code != 1000 && s.attempts < MAX_RECONNECT_ATTEMPTS
  }

  function ScheduleReconnect(s: State): State {
    var c := ClearReconnectTimer(s);
    var n := c.attempts + 1;
    c.(attempts := n, timer := Some(c.nextId), nextId := c.nextId + 1,
       timers := c.timers[c.nextId := Min(c.delay * Pow2(n - 1), MAX_RECONNECT_DELAY)])
  }

  function HandleClose(s: State, code: int): State {
    var c := ClearPing(s).(status := StatusDisconnected);
    if Retries(c, code) then ScheduleReconnect(c) else c
  }

  function Step(s: State, e: Event): State
    requires Enabled(s, e)
  {
    match e
    case Connect(throws) => Connected(s, throws)
    case Disconnect => Disconnected(s)
    case ServerCloses(i) => s.(sockets := s.sockets[i := Closing])
    case TimerFires(id, throws) => Connected(s.(timers := s.timers - {id}), throws)
    case Opens(i) => HandleOpen(s.(sockets := s.sockets[i := Open]))
    case Errors(i) => HandleError(s.(sockets := s.sockets[i := Failed]))
    case Closes(i, code) => HandleClose(s.(sockets := s.sockets[i := Closed]), code)
  }

  /** Every prefix of the events is enabled where it runs. */
  ghost predicate Runs(s: State, es: seq<Event>)
    decreases |es|
  {
    es == [] || (Enabled(s, es[0]) && Runs(Step(s, es[0]), es[1..]))
  }

  ghost function Run(s: State, es: seq<Event>): State
    requires Runs(s, es)
    decreases |es|
  {
    if es == [] then s else Run(Step(s, es[0]), es[1..])
  }

  // ---- Safety of every run ----

  /** The delays 1000, 2000, 4000, 8000 and 16000. */
  predicate BackoffDelay(d: nat) {
    exists k: nat :: k < MAX_RECONNECT_ATTEMPTS && d == Backoff(k)
  }

  function Backoff(k: nat): nat {
    RECONNECT_DELAY * Pow2(k)
  }

  ghost predicate Inv(s: State) {
    && s.attempts <= MAX_RECONNECT_ATTEMPTS && s.delay == RECONNECT_DELAY
    && (s.ws.Some? ==> s.ws.value < |s.sockets|)
    && (forall id :: id in s.timers ==> s.timer == Some(id) && id < s.nextId && BackoffDelay(s.timers[id]))
    && s.intervals == (if s.ping.Some? then {s.ping.value} else {})
    && (forall id :: id in s.intervals ==> id < s.nextId)
  }

  lemma {:induction false} BackoffValues(n: nat)
    requires 1 <= n <= MAX_RECONNECT_ATTEMPTS
    ensures Min(RECONNECT_DELAY * Pow2(n - 1), MAX_RECONNECT_DELAY) == Backoff(n - 1) <= 16000
  {
    assert Pow2(0) == 1 && Pow2(1) == 2 && Pow2(2) == 4 && Pow2(3) == 8 && Pow2(4) == 16;
  }

  lemma {:induction false} StepKeepsInv(s: State, e: Event)
    requires Inv(s) && Enabled(s, e)
    ensures Inv(Step(s, e))
  {
    hide Pow2;
    if e.Closes? && Retries(s, e.code) {
      BackoffValues(s.attempts + 1);
      assert BackoffDelay(Backoff(s.attempts));
    }
  }

  lemma {:induction false} RunKeepsInv(s: State, es: seq<Event>)
    requires Inv(s) && Runs(s, es)
    ensures Inv(Run(s, es))
    decreases |es|
  {
    hide Step, Inv;
    if es != [] {
      StepKeepsInv(s, es[0]);
      RunKeepsInv(Step(s, es[0]), es[1..]);
    }
  }

  /** At most one reconnect timer and one ping interval are ever live, and no delay reaches the 30 s cap. */
  lemma {:induction false} RunsAreSafe(es: seq<Event>)
    requires Runs(INITIAL, es)
    ensures var s := Run(INITIAL, es);
            && s.attempts <= MAX_RECONNECT_ATTEMPTS && |s.timers| <= 1 && |s.intervals| <= 1
            && forall id :: id in s.timers ==> s.timers[id] <= 16000
  {
    RunKeepsInv(INITIAL, es);
    var s := Run(INITIAL, es);
    if s.timer.Some? {
      assert s.timers.Keys <= {s.timer.value};
      AtMost(s.timers.Keys, s.timer.value);
    } else {
      assert s.timers == map[];
    }
    forall id | id in s.timers
      ensures s.timers[id] <= 16000
    {
      var k: nat :| k < MAX_RECONNECT_ATTEMPTS && s.timers[id] == Backoff(k);
      BackoffValues(k + 1);
    }
  }

  lemma {:induction false} AtMost(ids: set<nat>, id: nat)
    requires ids <= {id}
    ensures |ids| <= 1
  {
    if id in ids {
      assert ids == {id};
    } else {
      assert ids == {};
    }
  }

  /**
   * A close event arms a new timer exactly when its code is none of 1000, 1008, 4001 and 4401 and attempts are
   * left; the n-th attempt in a row waits exactly 1000 * 2^(n-1) milliseconds. Otherwise the timers stay.
   */
  lemma {:induction false} CloseArms(s: State, i: nat, code: int)
    requires Inv(s) && Enabled(s, Closes(i, code))
    ensures var t := Step(s, Closes(i, code));
            if code != 1000 && code != 1008 && code != 4001 && code != 4401 && s.attempts < MAX_RECONNECT_ATTEMPTS
            then t.attempts == s.attempts + 1 && t.timer.Some? && t.timer.value !in s.timers
                 && t.timers == map[t.timer.value := Backoff(t.attempts - 1)]
            else t.attempts == s.attempts && t.timer == s.timer && t.timers == s.timers
  {
    hide Pow2;
    if Retries(s, code) {
      BackoffValues(s.attempts + 1);
      var c := ClearReconnectTimer(s);
      assert c.timers == map[];
    }
  }

  /** No other event arms one. */
  lemma {:induction false} OnlyCloseArms(s: State, e: Event)
    requires Enabled(s, e) && !e.Closes?
    ensures Step(s, e).timers.Keys <= s.timers.Keys
  {
  }

  // ---- What each event does, field by field ----

  /** connect() while connected does nothing; else there is one more socket, or an error when none can be made. */
  lemma {:induction false} ConnectMeans(s: State, throws: bool)
    ensures var t := Connected(s, throws);
            if s.ws.Some? && s.ws.value < |s.sockets| && s.sockets[s.ws.value] == Open then t == s
            else if throws then t == s.(status := StatusError)
            else t == State(Some(|s.sockets|), StatusConnecting, s.attempts, s.delay, s.timer, s.ping,
                            s.sockets + [Connecting], s.timers, s.intervals, s.nextId)
  {
  }

  /** disconnect() leaves no timer, no ping and no socket of its own that could open. */
  lemma {:induction false} DisconnectMeans(s: State)
    requires Inv(s)
    ensures var t := Disconnected(s);
            && t == State(None, StatusDisconnected, s.attempts, 1000, None, None, t.sockets, map[], {}, s.nextId)
            && |t.sockets| == |s.sockets|
            && forall i :: 0 <= i < |s.sockets| ==>
                 t.sockets[i] == if s.ws == Some(i) && (s.sockets[i] == Connecting || s.sockets[i] == Open) then Closing
                                 else s.sockets[i]
  {
    DisconnectLightens(s);
    assert s.ping.None? ==> s.intervals == {};
  }

  /** An open resets the attempts and the delay, and starts a new ping in place of any other. */
  lemma {:induction false} OpenMeans(s: State, i: nat)
    requires Inv(s) && Enabled(s, Opens(i))
    ensures Step(s, Opens(i))
            == State(s.ws, StatusConnected, 0, 1000, s.timer, Some(s.nextId), s.sockets[i := Open], s.timers, {s.nextId}, s.nextId + 1)
  {
  }

  /** A close stops the ping, and arms a timer as CloseArms says. */
  lemma {:induction false} CloseMeans(s: State, i: nat, code: int)
    requires Inv(s) && Enabled(s, Closes(i, code))
    ensures var t := Step(s, Closes(i, code));
            && t.ws == s.ws && t.status == StatusDisconnected && t.delay == 1000 && t.ping == None && t.intervals == {}
            && t.sockets == s.sockets[i := Closed]
  {
    hide Pow2;
  }

  lemma {:induction false} ErrorMeans(s: State, i: nat)
    requires Enabled(s, Errors(i))
    ensures Step(s, Errors(i)) == s.(status := StatusError, sockets := s.sockets[i := Failed])
  {
  }

  /** A timer that fires is spent, and connects. */
  lemma {:induction false} TimerMeans(s: State, id: nat, throws: bool)
    requires Inv(s) && Enabled(s, TimerFires(id, throws))
    ensures Step(s, TimerFires(id, throws)) == Connected(s.(timers := map[]), throws)
  {
    LoneTimer(s, id);
  }

  /** The five delays, in milliseconds. */
  lemma {:induction false} Delays()
    ensures Backoff(0) == 1000 && Backoff(1) == 2000 && Backoff(2) == 4000 && Backoff(3) == 8000 && Backoff(4) == 16000
  {
    assert Pow2(0) == 1 && Pow2(1) == 2 && Pow2(2) == 4 && Pow2(3) == 8 && Pow2(4) == 16;
  }

  /** After an open, whatever came before, the first close that is retried waits one second. */
  lemma {:induction false} OpenStartsOver(s: State, i: nat, j: nat, code: int)
    requires Inv(s) && Enabled(s, Opens(i)) && Enabled(Step(s, Opens(i)), Closes(j, code))
    requires code != 1000 && code != 1008 && code != 4001 && code != 4401
    ensures var u := Step(Step(s, Opens(i)), Closes(j, code));
            u.attempts == 1 && u.timer.Some? && u.timers == map[u.timer.value := 1000]
  {
    StepKeepsInv(s, Opens(i));
    OpenMeans(s, i);
    CloseArms(Step(s, Opens(i)), j, code);
    assert Pow2(0) == 1;
  }

  /** The attempts, told from the events: the retried closes since the last open, up to five. */
  function Attempts(es: seq<Event>): nat {
    if es == [] then 0
    else
      var front := Attempts(es[..|es| - 1]);
      match es[|es| - 1]
      case Opens(_) => 0
      case Closes(_, code) =>
        if code != 1000 && code != 1008 && code != 4001 && code != 4401 && front < 5 then front + 1 else front
      case _ => front
  }

  lemma {:induction false} RunSnoc(s: State, es: seq<Event>, e: Event)
    requires Runs(s, es + [e])
    ensures Runs(s, es) && Enabled(Run(s, es), e) && Run(s, es + [e]) == Step(Run(s, es), e)
    decreases |es|
  {
    hide Step, Enabled;
    if es == [] {
      assert [] + [e] == [e] && [e][1..] == [];
      assert Run(s, [e]) == Run(Step(s, e), []);
    } else {
      assert (es + [e])[0] == es[0] && (es + [e])[1..] == es[1..] + [e];
      RunSnoc(Step(s, es[0]), es[1..], e);
    }
  }

  /** In every run the attempts are those the events tell. */
  lemma {:induction false} AttemptsFollowEvents(es: seq<Event>)
    requires Runs(INITIAL, es)
    ensures Run(INITIAL, es).attempts == Attempts(es)
    decreases |es|
  {
    if es != [] {
      var front, e := es[..|es| - 1], es[|es| - 1];
      assert es == front + [e];
      RunSnoc(INITIAL, front, e);
      AttemptsFollowEvents(front);
      RunKeepsInv(INITIAL, front);
      EventAttempts(Run(INITIAL, front), e);
    }
  }

  lemma {:induction false} EventAttempts(s: State, e: Event)
    requires Inv(s) && Enabled(s, e)
    ensures Step(s, e).attempts ==
            match e
            case Opens(_) => 0
            case Closes(_, code) =>
              if code != 1000 && code != 1008 && code != 4001 && code != 4401 && s.attempts < 5 then s.attempts + 1 else s.attempts
            case _ => s.attempts
  {
    hide Pow2;
    if e.Closes? {
      CloseArms(s, e.i, e.code);
    }
  }

  // ---- Giving up ----

  function Weight(socket: Socket): nat {
    match socket
    case Closed => 0
    case Failed => 1
    case Connecting => 2
    case Open => 3
    case Closing => 2
  }

  function Weights(sockets: seq<Socket>): nat {
    if sockets == [] then 0 else Weights(sockets[..|sockets| - 1]) + Weight(sockets[|sockets| - 1])
  }

  lemma {:induction false} WeightsUpdate(sockets: seq<Socket>, i: nat, socket: Socket)
    requires i < |sockets|
    ensures Weights(sockets[i := socket]) == Weights(sockets) - Weight(sockets[i]) + Weight(socket)
    decreases |sockets|
  {
    var n := |sockets| - 1;
    if i < n {
      WeightsUpdate(sockets[..n], i, socket);
      assert sockets[i := socket][..n] == sockets[..n][i := socket];
    } else {
      assert sockets[i := socket][..n] == sockets[..n];
    }
  }

  lemma {:induction false} WeightsSnoc(sockets: seq<Socket>, socket: Socket)
    ensures Weights(sockets + [socket]) == Weights(sockets) + Weight(socket)
  {
    assert (sockets + [socket])[..|sockets|] == sockets;
  }

  /** What the browser may still deliver before the client gives up. */
  function Measure(s: State): int {
    3 * (MAX_RECONNECT_ATTEMPTS - s.attempts) + 3 * |s.timers| + Weights(s.sockets)
  }

  predicate NoHelp(e: Event) {
    !e.Opens? && !e.Connect?
  }

  lemma {:induction false} TimerCount(s: State)
    requires Inv(s)
    ensures |s.timers| <= 1 && (s.timers != map[] ==> |s.timers| == 1)
  {
    if s.timers != map[] {
      var id :| id in s.timers;
      assert s.timers.Keys == {id};
      assert |s.timers| == |s.timers.Keys|;
    }
  }

  lemma {:induction false} MeasureFalls(s: State, e: Event)
    requires Inv(s) && Enabled(s, e) && NoHelp(e)
    ensures Measure(Step(s, e)) <= Measure(s) - if e.Disconnect? then 0 else 1
  {
    hide Pow2;
    match e {
      case Disconnect =>
        DisconnectLightens(s);
      case ServerCloses(i) =>
        WeightsUpdate(s.sockets, i, Closing);
      case TimerFires(id, throws) =>
        TimerCount(s);
        assert Step(s, e).timers == map[];
        WeightsSnoc(s.sockets, Connecting);
      case Errors(i) =>
        WeightsUpdate(s.sockets, i, Failed);
      case Closes(i, code) =>
        CloseLightens(s, i, code);
    }
  }

  lemma {:induction false} CloseLightens(s: State, i: nat, code: int)
    requires Inv(s) && Enabled(s, Closes(i, code))
    ensures Measure(Step(s, Closes(i, code))) < Measure(s)
  {
    CloseArms(s, i, code);
    hide Pow2, HandleClose;
    WeightsUpdate(s.sockets, i, Closed);
    CloseSockets(s.(sockets := s.sockets[i := Closed]), code);
  }

  lemma {:induction false} CloseSockets(s: State, code: int)
    ensures HandleClose(s, code).sockets == s.sockets
  {
  }

  lemma {:induction false} DisconnectLightens(s: State)
    requires Inv(s)
    ensures Disconnected(s).timers == map[] && Disconnected(s).attempts == s.attempts
    ensures Weights(Disconnected(s).sockets) <= Weights(s.sockets)
  {
    if s.ws.Some? && s.sockets[s.ws.value] in {Connecting, Open} {
      WeightsUpdate(s.sockets, s.ws.value, Closing);
    }
  }

  function Deliveries(es: seq<Event>): nat {
    if es == [] then 0 else (if es[0].Disconnect? then 0 else 1) + Deliveries(es[1..])
  }

  /**
   * While no socket opens and nobody calls connect(), the client gives up: the browser can deliver no more than
   * Measure(s) further events, however the sockets fail.
   */
  lemma {:induction false} GivesUp(s: State, es: seq<Event>)
    requires Inv(s) && Runs(s, es) && forall e :: e in es ==> NoHelp(e)
    ensures Deliveries(es) <= Measure(s)
    decreases |es|
  {
    hide Step, Inv, Measure, Enabled;
    if es == [] {
      TimerCount(s);
      MeasureNatural(s);
    } else {
      MeasureFalls(s, es[0]);
      StepKeepsInv(s, es[0]);
      GivesUp(Step(s, es[0]), es[1..]);
    }
  }

  lemma {:induction false} MeasureNatural(s: State)
    requires Inv(s)
    ensures Measure(s) >= 0
  {
  }

  /** Meanwhile it makes at most as many new sockets as a live timer and the attempts left allow. */
  lemma {:induction false} SocketsBounded(s: State, es: seq<Event>)
    requires Inv(s) && Runs(s, es) && forall e :: e in es ==> NoHelp(e)
    ensures |Run(s, es).sockets| <= |s.sockets| + |s.timers| + MAX_RECONNECT_ATTEMPTS - s.attempts
    decreases |es|
  {
    hide Step, Inv, Enabled;
    if es == [] {
      AttemptsLeft(s);
    } else {
      StepMakesSocket(s, es[0]);
      StepKeepsInv(s, es[0]);
      SocketsBounded(Step(s, es[0]), es[1..]);
    }
  }

  lemma {:induction false} AttemptsLeft(s: State)
    requires Inv(s)
    ensures s.attempts <= MAX_RECONNECT_ATTEMPTS
  {
  }

  lemma {:induction false} LoneTimer(s: State, id: nat)
    requires Inv(s) && id in s.timers
    ensures s.timers - {id} == map[]
  {
  }

  lemma {:induction false} DisconnectKeepsSockets(s: State)
    ensures |Disconnected(s).sockets| == |s.sockets|
  {
  }

  lemma {:induction false} StepMakesSocket(s: State, e: Event)
    requires Inv(s) && Enabled(s, e) && NoHelp(e)
    ensures var t := Step(s, e);
            |t.sockets| + |t.timers| - t.attempts <= |s.sockets| + |s.timers| - s.attempts
  {
    hide Pow2, HandleClose, Inv, Disconnected;
    TimerCount(s);
    match e {
      case Disconnect =>
        DisconnectLightens(s);
        DisconnectKeepsSockets(s);
      case ServerCloses(i) =>
      case TimerFires(id, throws) =>
        LoneTimer(s, id);
      case Errors(i) =>
      case Closes(i, code) =>
        CloseArms(s, i, code);
        CloseSockets(s.(sockets := s.sockets[i := Closed]), code);
    }
  }

  // ---- Replaced sockets ----

  /** All sockets but possibly one have delivered their close event. */
  ghost predicate OneAlive(s: State) {
    forall i, j :: 0 <= i < j < |s.sockets| ==> s.sockets[i] == Closed || s.sockets[j] == Closed
  }

  ghost predicate AllClosed(s: State) {
    forall i :: 0 <= i < |s.sockets| ==> s.sockets[i] == Closed
  }

  /** connect() is called from outside only when nothing is under way. */
  ghost predicate Careful(s: State, es: seq<Event>)
    requires Runs(s, es)
    decreases |es|
  {
    es == [] || ((es[0].Connect? ==> AllClosed(s) && s.timers == map[]) && Careful(Step(s, es[0]), es[1..]))
  }

  ghost predicate InStep(s: State) {
    && Inv(s) && OneAlive(s)
    && (s.timers != map[] ==> AllClosed(s))
    && (s.ping.Some? ==> !AllClosed(s))
    && (forall i :: 0 <= i < |s.sockets| && s.sockets[i] == Open ==> s.ws == Some(i) && s.ping.Some?)
    && (forall i :: 0 <= i < |s.sockets| && s.sockets[i] == Connecting ==> s.ws == Some(i))
    && (IsConnected(s) ==> s.status == StatusConnected)
    && (s.status == StatusConnected ==> s.ws.Some? && s.sockets[s.ws.value] in {Open, Closing})
  }

  lemma {:induction false} ConnectStaysInStep(s: State, throws: bool)
    requires InStep(s) && AllClosed(s)
    ensures InStep(Connected(s.(timers := map[]), throws))
  {
    hide Pow2, BackoffDelay;
  }

  lemma {:induction false} DisconnectStaysInStep(s: State)
    requires InStep(s)
    ensures InStep(Disconnected(s))
  {
    StepKeepsInv(s, Disconnect);
    DisconnectLightens(s);
    hide Pow2, BackoffDelay, Inv, ClearReconnectTimer;
    var t := Disconnected(s);
    assert |t.sockets| == |s.sockets|;
    forall i | 0 <= i < |t.sockets|
      ensures t.sockets[i] != Open && t.sockets[i] != Connecting && (t.sockets[i] == Closed <==> s.sockets[i] == Closed)
    {
    }
  }

  lemma {:induction false} OpenStaysInStep(s: State, i: nat)
    requires InStep(s) && Enabled(s, Opens(i))
    ensures InStep(Step(s, Opens(i)))
  {
    StepKeepsInv(s, Opens(i));
    hide Pow2, BackoffDelay, Inv, StartPing;
    var t := Step(s, Opens(i));
    StartPingFrame(s.(sockets := s.sockets[i := Open], attempts := 0, delay := RECONNECT_DELAY, status := StatusConnected));
    assert s.sockets[i] == Connecting && t.sockets[i] == Open;
    forall j | 0 <= j < |s.sockets| && j != i
      ensures t.sockets[j] == Closed
    {
      assert t.sockets[j] == s.sockets[j];
    }
  }

  lemma {:induction false} StartPingFrame(s: State)
    ensures var t := StartPing(s);
            t.ping.Some? && t == s.(ping := t.ping, intervals := t.intervals, nextId := t.nextId)
  {
  }

  lemma {:induction false} ServerCloseStaysInStep(s: State, i: nat)
    requires InStep(s) && Enabled(s, ServerCloses(i))
    ensures InStep(Step(s, ServerCloses(i)))
  {
    StepKeepsInv(s, ServerCloses(i));
    hide Pow2, BackoffDelay, Inv;
    var t := Step(s, ServerCloses(i));
    assert s.sockets[i] == Open && t.sockets[i] == Closing;
    forall j | 0 <= j < |s.sockets| && j != i
      ensures t.sockets[j] == s.sockets[j] == Closed
    {
    }
  }

  lemma {:induction false} ErrorStaysInStep(s: State, i: nat)
    requires InStep(s) && Enabled(s, Errors(i))
    ensures InStep(Step(s, Errors(i)))
  {
    StepKeepsInv(s, Errors(i));
    hide Pow2, BackoffDelay, Inv;
    var t := Step(s, Errors(i));
    assert s.sockets[i] != Closed && t.sockets[i] == Failed;
    forall j | 0 <= j < |s.sockets| && j != i
      ensures t.sockets[j] == s.sockets[j] == Closed
    {
    }
  }

  lemma {:induction false} CloseStaysInStep(s: State, i: nat, code: int)
    requires InStep(s) && Enabled(s, Closes(i, code))
    ensures InStep(Step(s, Closes(i, code)))
  {
    StepKeepsInv(s, Closes(i, code));
    hide Pow2, BackoffDelay, Inv, HandleClose;
    var c := s.(sockets := s.sockets[i := Closed]);
    assert AllClosed(c);
    CloseFrame(c, code);
  }

  lemma {:induction false} CloseFrame(s: State, code: int)
    ensures var t := HandleClose(s, code);
            t.sockets == s.sockets && t.ws == s.ws && t.status == StatusDisconnected && t.ping == None
  {
  }

  lemma {:induction false} StepStaysInStep(s: State, e: Event)
    requires InStep(s) && Enabled(s, e) && (e.Connect? ==> AllClosed(s) && s.timers == map[])
    ensures InStep(Step(s, e))
  {
    hide InStep, AllClosed;
    match e {
      case Connect(throws) =>
        ConnectStaysInStep(s, throws);
        assert s.(timers := map[]) == s;
      case Disconnect =>
        DisconnectStaysInStep(s);
      case ServerCloses(i) =>
        ServerCloseStaysInStep(s, i);
      case TimerFires(id, throws) =>
        TimerMeansClosed(s, id);
        ConnectStaysInStep(s, throws);
      case Opens(i) =>
        OpenStaysInStep(s, i);
      case Errors(i) =>
        ErrorStaysInStep(s, i);
      case Closes(i, code) =>
        CloseStaysInStep(s, i, code);
    }
  }

  lemma {:induction false} TimerMeansClosed(s: State, id: nat)
    requires InStep(s) && id in s.timers
    ensures AllClosed(s) && s.timers - {id} == map[]
  {
  }

  /**
   * When connect() is only called while every socket is closed and no timer runs, late events do no harm: at most
   * one socket is alive; while it is open the status is "connected" and a ping is live; and the status is
   * "connected" at no other time than while it is open or in a closing handshake the server has started.
   */
  lemma {:induction false} CarefulRunsInStep(s: State, es: seq<Event>)
    requires InStep(s) && Runs(s, es) && Careful(s, es)
    ensures InStep(Run(s, es))
    decreases |es|
  {
    hide Step, InStep, AllClosed;
    if es != [] {
      StepStaysInStep(s, es[0]);
      CarefulRunsInStep(Step(s, es[0]), es[1..]);
    }
  }

  ghost predicate PingsWhenConnected(s: State) {
    IsConnected(s) ==> s.ping.Some?
  }

  /** In any run, the one event that leaves an open connection without its ping is the close of another socket. */
  lemma {:induction false} PingLostIff(s: State, e: Event)
    requires Inv(s) && PingsWhenConnected(s) && Enabled(s, e)
    ensures !PingsWhenConnected(Step(s, e)) <==> e.Closes? && IsConnected(s) && s.ws != Some(e.i)
  {
    hide Pow2;
    match e {
      case Connect(_) =>
      case Disconnect =>
      case ServerCloses(_) =>
      case TimerFires(_, _) =>
      case Opens(i) =>
      case Errors(i) =>
      case Closes(i, code) =>
        CloseFrameAll(s.(sockets := s.sockets[i := Closed]), code);
    }
  }

  lemma {:induction false} CloseFrameAll(s: State, code: int)
    ensures var t := HandleClose(s, code); t.sockets == s.sockets && t.ws == s.ws && t.ping == None
  {
  }

  /** It happens: a second connect() while the first socket is connecting, and the first then failing. */
  lemma {:induction false} ReplacedSocketStopsPing()
    ensures var es := [Connect(false), Connect(false), Opens(1), Closes(0, 1006)];
            && Runs(INITIAL, es)
            && IsConnected(Run(INITIAL, es)) && Run(INITIAL, es).ping.None? && Run(INITIAL, es).timers != map[]
  {
    var es := [Connect(false), Connect(false), Opens(1), Closes(0, 1006)];
    var s1 := Step(INITIAL, es[0]);
    var s2 := Step(s1, es[1]);
    var s3 := Step(s2, es[2]);
    var s4 := Step(s3, es[3]);
    assert s4.timer.Some? && s4.timer.value in s4.timers;
    RunOne(s3, es[3..]);
    RunOne(s2, es[2..]);
    RunOne(s1, es[1..]);
    RunOne(INITIAL, es);
    assert es[1..][1..] == es[2..] && es[2..][1..] == es[3..] && es[3..][1..] == [];
    assert Run(s4, []) == s4;
  }

  lemma {:induction false} RunOne(s: State, es: seq<Event>)
    requires es != [] && Enabled(s, es[0]) && Runs(Step(s, es[0]), es[1..])
    ensures Runs(s, es) && Run(s, es) == Run(Step(s, es[0]), es[1..])
  {
  }

  // ---- After disconnect() ----

  predicate FinalCode(e: Event) {
    e.Closes? ==> AuthFailure(e.code) || e.code == 1000
  }

  /** disconnect() is final as long as every later close event has a code that is not retried ... */
  lemma {:induction false} StaysDisconnected(s: State, es: seq<Event>)
    requires Inv(s) && s.timers == map[] && Runs(s, es)
    requires forall e :: e in es ==> !e.Connect? && FinalCode(e)
    ensures Run(s, es).timers == map[] && |Run(s, es).sockets| == |s.sockets|
    decreases |es|
  {
    hide Step, Inv, FinalCode;
    if es != [] {
      QuietStep(s, es[0]);
      StepKeepsInv(s, es[0]);
      StaysDisconnected(Step(s, es[0]), es[1..]);
    }
  }

  lemma {:induction false} QuietStep(s: State, e: Event)
    requires Inv(s) && s.timers == map[] && Enabled(s, e) && !e.Connect? && FinalCode(e)
    ensures Step(s, e).timers == map[] && |Step(s, e).sockets| == |s.sockets|
  {
    hide Pow2;
  }

  /**
   * ... but whichever socket was still alive, connecting, open, closing or replaced: if it then closes with any
   * other code the reconnect timer is armed again, as long as attempts are left.
   */
  lemma {:induction false} DisconnectUndone(s: State, i: nat, code: int)
    requires Inv(s) && i < |s.sockets| && s.sockets[i] != Closed
    ensures var t := Disconnected(s);
            && t.timers == map[] && Enabled(t, Closes(i, code))
            && (Step(t, Closes(i, code)).timers != map[] <==> Retries(s, code))
  {
    DisconnectLightens(s);
    StepKeepsInv(s, Disconnect);
    var t := Disconnected(s);
    CloseArms(t, i, code);
    var u := Step(t, Closes(i, code));
    assert Retries(s, code) ==> u.timer.value in u.timers;
  }

  /** It happens to a socket that disconnect() finds connecting: the browser closes it with 1006. */
  lemma {:induction false} ConnectingDisconnectUndone()
    ensures var es := [Connect(false), Disconnect, Closes(0, 1006)];
            Runs(INITIAL, es) && Run(INITIAL, es).ws.None? && Run(INITIAL, es).timers != map[]
  {
    var es := [Connect(false), Disconnect, Closes(0, 1006)];
    var s1 := Step(INITIAL, es[0]);
    var s2 := Step(s1, es[1]);
    var s3 := Step(s2, es[2]);
    assert s1.sockets == [Connecting] && s2.sockets == [Closing];
    assert s3.timer.Some? && s3.timer.value in s3.timers;
    RunOne(s2, es[2..]);
    RunOne(s1, es[1..]);
    RunOne(INITIAL, es);
    assert es[1..][1..] == es[2..] && es[2..][1..] == [];
    assert Run(s3, []) == s3;
  }
}
