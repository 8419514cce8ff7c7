/** The client's class, method by method, proved to be the machine. */
module WebSocketClient {
  import opened Options
  import M = ReconnectMachine

  class Client {
    var ws: Option<nat>
    var status: M.Status
    var reconnectAttempts: nat
    var reconnectDelay: nat
    var reconnectTimer: Option<nat>
    var pingInterval: Option<nat>

    // The browser's side.
    var sockets: seq<M.Socket>
    var timers: map<nat, nat>
    var intervals: set<nat>
    var nextId: nat

    function State(): M.State
      reads this
    {
      M.State(ws, status, reconnectAttempts, reconnectDelay, reconnectTimer, pingInterval, sockets, timers, intervals, nextId)
    }

    ghost predicate Valid()
      reads this
    {
      M.Inv(State())
    }

    constructor ()
      ensures Valid() && State() == M.INITIAL
    {
      ws, status, reconnectAttempts, reconnectDelay := None, M.StatusDisconnected, 0, M.RECONNECT_DELAY;
      reconnectTimer, pingInterval := None, None;
      sockets, timers, intervals, nextId := [], map[], {}, 0;
    }

    method IsConnected() returns (r: bool)
      requires Valid()
      ensures r == M.IsConnected(State())
    {
      r := ws.Some? && sockets[ws.value] == M.Open;
    }

    /** `throws`: the WebSocket constructor does. */
    method Connect(throws: bool)
      requires Valid()
      modifies this
      ensures State() == M.Connected(old(State()), throws)
    {
      var connected := IsConnected();
      if connected {
        return;
      }
      status := M.StatusConnecting;
      if throws {
        HandleError();
      } else {
        ws := Some(|sockets|);
        sockets := sockets + [M.Connecting];
      }
    }

    method Disconnect()
      requires Valid()
      modifies this
      ensures State() == M.Disconnected(old(State()))
    {
      ClearReconnectTimer();
      ClearPingInterval();
      if ws.Some? {
        if sockets[ws.value] == M.Connecting || sockets[ws.value] == M.Open {
          sockets := sockets[ws.value := M.Closing];
        }
        ws := None;
      }
      status := M.StatusDisconnected;
    }

    method HandleOpen()
      modifies this
      ensures State() == M.HandleOpen(old(State()))
    {
      reconnectAttempts := 0;
      reconnectDelay := 1000;
      status := M.StatusConnected;
      StartPing();
    }

    method HandleError()
      modifies `status
      ensures State() == M.HandleError(old(State()))
    {
      status := M.StatusError;
    }

    method HandleClose(code: int)
      modifies this
      ensures State() == M.HandleClose(old(State()), code)
    {
      ClearPingInterval();
      status := M.StatusDisconnected;
      if code == 1008 || code == 4001 || code == 4401 {
        return;
      }
      if code != 1000 && reconnectAttempts < M.MAX_RECONNECT_ATTEMPTS {
        ScheduleReconnect();
      }
    }

    method ScheduleReconnect()
      modifies this
      ensures State() == M.ScheduleReconnect(old(State()))
    {
      ClearReconnectTimer();
      reconnectAttempts := reconnectAttempts + 1;
      var delay := M.Min(reconnectDelay * M.Pow2(reconnectAttempts - 1), M.MAX_RECONNECT_DELAY);
      timers := timers[nextId := delay];
      reconnectTimer := Some(nextId);
      nextId := nextId + 1;
    }

    method ClearReconnectTimer()
      modifies `timers, `reconnectTimer
      ensures State() == M.ClearReconnectTimer(old(State()))
    {
      if reconnectTimer.Some? {
        timers := timers - {reconnectTimer.value};
        reconnectTimer := None;
      }
    }

    method StartPing()
      modifies `pingInterval, `intervals, `nextId
      ensures State() == M.StartPing(old(State()))
    {
      ClearPingInterval();
      intervals := intervals + {nextId};
      pingInterval := Some(nextId);
      nextId := nextId + 1;
    }

    method ClearPingInterval()
      modifies `pingInterval, `intervals
      ensures State() == M.ClearPing(old(State()))
    {
      if pingInterval.Some? {
        intervals := intervals - {pingInterval.value};
        pingInterval := None;
      }
    }

    /** One event: the browser changes the socket or spends the timer, then calls the handler. */
    method Handle(e: M.Event)
      requires Valid() && M.Enabled(State(), e)
      modifies this
      ensures Valid() && State() == M.Step(old(State()), e)
    {
      M.StepKeepsInv(State(), e);
      match e {
        case Connect(throws) =>
          Connect(throws);
        case Disconnect =>
          Disconnect();
        case ServerCloses(i) =>
          sockets := sockets[i := M.Closing];
        case TimerFires(id, throws) =>
          timers := timers - {id};
          Connect(throws);
        case Opens(i) =>
          sockets := sockets[i := M.Open];
          HandleOpen();
        case Errors(i) =>
          sockets := sockets[i := M.Failed];
          HandleError();
        case Closes(i, code) =>
          sockets := sockets[i := M.Closed];
          HandleClose(code);
      }
    }
  }
}
