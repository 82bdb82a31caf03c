/**
 * `QlikConnector` as a class: its websocket in `ws`, and everything it does on the
 * websocket recorded in `log`. The engine's behaviour enters as parameters: whether
 * it accepts the connection, and the response it gives to each request.
 */
module QlikConnector {
  import opened Wrappers
  import opened ReloadSession

  class Connector {
    const host: string
    /** The `.qvf` files found in the apps folder, in the order they are connections. */
    const apps: seq<string>
    /** `self.ws`: the latest connection, `None` before the first. */
    var ws: Option<Socket>
    /** How many connections have been created; the next one is numbered `connections`. */
    var connections: nat
    /** Connections, requests sent and close calls, in order. */
    var log: seq<Event>

    constructor (host: string, apps: seq<string>)
      ensures this.host == host && this.apps == apps
      ensures ws == None && connections == 0 && log == []
    {
      this.host := host;
      this.apps := apps;
      ws := None;
      connections := 0;
      log := [];
    }

    predicate IsOpen()
      reads this
    {
      ws.Some? && !ws.value.closed
    }

    /** `self.ws.close()`; closing a closed connection again changes nothing. */
    method Close()
      requires ws.Some?
      modifies this
      ensures log == old(log) + [CloseCalled(old(ws).value.conn)]
      ensures ws == SocketAfter(old(ws), [CloseCalled(old(ws).value.conn)])
      ensures connections == old(connections)
    {
      log := log + [CloseCalled(ws.value.conn)];
      ws := Some(ws.value.(closed := true));
    }

    /** `__conect_engine`: a new connection when the engine is reachable; otherwise the process exits. */
    method ConnectEngine(reachable: bool) returns (outcome: Outcome)
      modifies this
      ensures var run := Connect(reachable, old(connections));
        log == old(log) + run.events && outcome == run.outcome && ws == SocketAfter(old(ws), run.events)
      ensures connections == if reachable then old(connections) + 1 else old(connections)
    {
      if !reachable {
        return Exited;
      }
      ws := Some(Socket(connections, false));
      log := log + [Connected(connections)];
      connections := connections + 1;
      outcome := Continue;
    }

    /**
     * The try block every step shares: send `request`, read `response`. An engine error
     * closes the connection and raises; the handler closes it (again) and re-raises.
     */
    method Exchange(request: Request, response: Response) returns (outcome: Outcome)
      requires IsOpen()
      modifies this
      ensures var run := Call(old(ws).value.conn, request, response);
        log == old(log) + run.events && outcome == run.outcome && ws == SocketAfter(old(ws), run.events)
      ensures connections == old(connections)
    {
      var conn := ws.value.conn;
      log := log + [Sent(conn, request)];
      var raised: Option<Outcome> := None;
      match response {
        case EngineError(m) =>
          Close();
          raised := Some(Raised(m));
        case Unreadable =>
          raised := Some(LibraryError);
        case Reply(_, _) =>
      }
      if raised.Some? {
        Close();
        return raised.value;
      }
      outcome := Continue;
      assert log == old(log) + Call(conn, request, response).events;
    }

    /** `__open_app`: OpenDoc for the app's path. */
    method OpenApp(path: string, response: Response) returns (outcome: Outcome)
      requires IsOpen()
      modifies this
      ensures var run := Call(old(ws).value.conn, OpenDocRequest(path), response);
        log == old(log) + run.events && outcome == run.outcome && ws == SocketAfter(old(ws), run.events)
      ensures connections == old(connections)
    {
      outcome := Exchange(OpenDocRequest(path), response);
    }

    /** `__check_app_status`: GetActiveDoc. */
    method CheckAppStatus(response: Response) returns (outcome: Outcome)
      requires IsOpen()
      modifies this
      ensures var run := Call(old(ws).value.conn, GetActiveDocRequest, response);
        log == old(log) + run.events && outcome == run.outcome && ws == SocketAfter(old(ws), run.events)
      ensures connections == old(connections)
    {
      outcome := Exchange(GetActiveDocRequest, response);
    }

    /** `__reload`: DoReloadEx, then, only when that round trip succeeded, the reload status. */
    method Reload(response: Response) returns (outcome: Outcome)
      requires IsOpen()
      modifies this
      ensures var run := ReloadSession.Reload(old(ws).value.conn, response);
        log == old(log) + run.events && outcome == run.outcome && ws == SocketAfter(old(ws), run.events)
      ensures connections == old(connections)
    {
      var conn := ws.value.conn;
      ghost var log0, ws0 := log, ws;
      outcome := Exchange(DoReloadExRequest, response);
      CallEnds(conn, DoReloadExRequest, response);
      CallSocket(conn, DoReloadExRequest, response);
      if outcome == Continue {
        ghost var log1 := log;
        outcome := GetReloadStatus(response);
        var status := ReloadStatus(conn, response);
        assert log == log0 + ([Sent(conn, DoReloadExRequest)] + status.events);
        SocketAfterAppend(ws0, [Sent(conn, DoReloadExRequest)], status.events);
      }
    }

    /**
     * `__get_reload_status`: a present `qSuccess` key completes the reload; otherwise
     * "Reload failed" is raised, after closing the connection when no log file is named.
     */
    method GetReloadStatus(response: Response) returns (outcome: Outcome)
      requires ws.Some?
      modifies this
      ensures var run := ReloadStatus(old(ws).value.conn, response);
        log == old(log) + run.events && outcome == run.outcome && ws == SocketAfter(old(ws), run.events)
      ensures connections == old(connections)
    {
      if response.Reply? && response.qSuccess.Some? {
        return Continue;
      }
      if !(response.Reply? && response.qScriptLogFile.Some?) {
        Close();
      }
      outcome := Raised("Reload failed");
    }

    /** `__save_app`: DoSave. */
    method SaveApp(response: Response) returns (outcome: Outcome)
      requires IsOpen()
      modifies this
      ensures var run := Call(old(ws).value.conn, DoSaveRequest, response);
        log == old(log) + run.events && outcome == run.outcome && ws == SocketAfter(old(ws), run.events)
      ensures connections == old(connections)
    {
      outcome := Exchange(DoSaveRequest, response);
    }

    /**
     * `open_apps`: for every app in order, connect, open, check, reload and save, on
     * the engine behaviour `engine[i]` for app `i`, until a step raises or exits.
     * What happens is `RunApps` (see the lemmas `AppsOutcome`, `AppsRequests` and
     * `AppsSocket`).
     */
    method OpenApps(engine: seq<EngineScript>) returns (outcome: Outcome)
      requires |engine| == |apps|
      modifies this
      ensures var run := RunApps(apps, engine, old(connections));
        log == old(log) + run.events && outcome == run.outcome && ws == SocketAfter(old(ws), run.events)
      ensures outcome == Continue ==> connections == old(connections) + |apps|
    {
      ghost var runs := AppRuns(apps, engine, old(connections));
      var i := 0;
      outcome := Continue;
      while i < |apps| && outcome == Continue
        invariant 0 <= i <= |apps|
        invariant outcome == Continue ==> connections == old(connections) + i
        invariant var done := Chain(runs[..i]);
          log == old(log) + done.events && outcome == done.outcome && ws == SocketAfter(old(ws), done.events)
      {
        ghost var log1, ws1 := log, ws;
        assert runs[i] == RunApp(apps[i], engine[i], old(connections) + i);
        outcome := OpenOne(apps[i], engine[i]);
        ChainStep(runs, i, old(log), old(ws), log1, ws1, log, ws);
        i := i + 1;
      }
      ChainEnd(runs, i);
    }

    /** One pass of the loop body of `open_apps`. */
    method OpenOne(path: string, s: EngineScript) returns (outcome: Outcome)
      modifies this
      ensures var run := RunApp(path, s, old(connections));
        log == old(log) + run.events && outcome == run.outcome && ws == SocketAfter(old(ws), run.events)
      ensures connections == if s.reachable then old(connections) + 1 else old(connections)
    {
      var conn := connections;
      ghost var log0, ws0 := log, ws;
      ghost var run := Start;
      outcome := ConnectEngine(s.reachable);
      run := Then(run, Connect(s.reachable, conn));
      ThenStart(Connect(s.reachable, conn));
      if outcome == Continue {
        ghost var step := Call(conn, OpenDocRequest(path), s.openDoc);
        ghost var log1, ws1 := log, ws;
        outcome := OpenApp(path, s.openDoc);
        CallEnds(conn, OpenDocRequest(path), s.openDoc);
        CallSocket(conn, OpenDocRequest(path), s.openDoc);
        StepAppended(log0, ws0, run, log1, ws1, step, log, ws);
      }
      run := Then(run, Call(conn, OpenDocRequest(path), s.openDoc));
      if outcome == Continue {
        ghost var step := Call(conn, GetActiveDocRequest, s.activeDoc);
        ghost var log1, ws1 := log, ws;
        outcome := CheckAppStatus(s.activeDoc);
        CallEnds(conn, GetActiveDocRequest, s.activeDoc);
        CallSocket(conn, GetActiveDocRequest, s.activeDoc);
        StepAppended(log0, ws0, run, log1, ws1, step, log, ws);
      }
      run := Then(run, Call(conn, GetActiveDocRequest, s.activeDoc));
      if outcome == Continue {
        ghost var step := ReloadSession.Reload(conn, s.reload);
        ghost var log1, ws1 := log, ws;
        outcome := Reload(s.reload);
        StepAppended(log0, ws0, run, log1, ws1, step, log, ws);
      }
      run := Then(run, ReloadSession.Reload(conn, s.reload));
      if outcome == Continue {
        ghost var step := Call(conn, DoSaveRequest, s.save);
        ghost var log1, ws1 := log, ws;
        ReloadRun(conn, s.reload);
        ReloadSocket(conn, s.reload);
        outcome := SaveApp(s.save);
        StepAppended(log0, ws0, run, log1, ws1, step, log, ws);
      }
      run := Then(run, Call(conn, DoSaveRequest, s.save));
      AppInSteps(path, s, conn);
    }
  }

  /** Appending a step's events to what has been done so far, on the log and on the socket. */
  lemma StepAppended(log0: seq<Event>, ws0: Option<Socket>, done: Run,
                     log1: seq<Event>, ws1: Option<Socket>, step: Run,
                     log2: seq<Event>, ws2: Option<Socket>)
    requires done.outcome == Continue
    requires log1 == log0 + done.events && ws1 == SocketAfter(ws0, done.events)
    requires log2 == log1 + step.events && ws2 == SocketAfter(ws1, step.events)
    ensures log2 == log0 + Then(done, step).events && ws2 == SocketAfter(ws0, Then(done, step).events)
  {
    SocketAfterAppend(ws0, done.events, step.events);
  }

  /** The loop of `open_apps` after one more app. */
  lemma ChainStep(runs: seq<Run>, i: nat, log0: seq<Event>, ws0: Option<Socket>,
                  log1: seq<Event>, ws1: Option<Socket>, log2: seq<Event>, ws2: Option<Socket>)
    requires i < |runs| && Chain(runs[..i]).outcome == Continue
    requires log1 == log0 + Chain(runs[..i]).events && ws1 == SocketAfter(ws0, Chain(runs[..i]).events)
    requires log2 == log1 + runs[i].events && ws2 == SocketAfter(ws1, runs[i].events)
    ensures var done := Chain(runs[..i + 1]);
      log2 == log0 + done.events && ws2 == SocketAfter(ws0, done.events) && done.outcome == runs[i].outcome
  {
    ChainPrefixStep(runs, i);
    StepAppended(log0, ws0, Chain(runs[..i]), log1, ws1, runs[i], log2, ws2);
  }

  /** The loop of `open_apps` stops after the last app or after the first that does not continue. */
  lemma ChainEnd(runs: seq<Run>, i: nat)
    requires i <= |runs| && (i < |runs| ==> Chain(runs[..i]).outcome != Continue)
    ensures Chain(runs[..i]) == Chain(runs)
  {
    if i < |runs| {
      assert runs == runs[..i] + runs[i..];
      ChainStops(runs[..i], runs[i..]);
    } else {
      assert runs[..i] == runs;
    }
  }
}
