/**
 * The reload session that `QlikConnector.open_apps` drives for each app, as values: the
 * fixed request envelopes, the engine's possible responses, and the run (events on the
 * websocket, then how the session ends) that a given sequence of responses produces.
 */
module ReloadSession {
  import opened Wrappers

  /** The `params` member of a request: a JSON array or a JSON object. */
  datatype Params = Positional(args: seq<string>) | Named(members: map<string, string>)

  /** A JSON-RPC request envelope. */
  datatype Request = Request(jsonrpc: string, id: int, name: string, handle: int, params: Params)

  function OpenDocRequest(path: string): Request
  {
    Request("2.0", 0, "OpenDoc", -1, Positional([path, ""]))
  }

  const GetActiveDocRequest := Request("2.0", 1, "GetActiveDoc", -1, Positional([]))
  const DoReloadExRequest := Request("2.0", 2, "DoReloadEx", 1, Named(map[]))
  const DoSaveRequest := Request("2.0", 6, "DoSave", 1, Positional([]))

  /** The five requests of one session after the connection, in order. */
  function Protocol(path: string): seq<Request>
  {
    [OpenDocRequest(path), GetActiveDocRequest, DoReloadExRequest, DoSaveRequest]
  }

  /** What a round trip gives back. */
  datatype Response =
    | EngineError(message: string)  // the decoded response has an `error` key with a `message`
    | Unreadable                    // `ws.recv()`, `json.loads` or the `message` lookup raised
    | Reply(qSuccess: Option<bool>, qScriptLogFile: Option<string>)
        // no `error` key; the keys `result.qResult.qSuccess` and `result.qResult.qScriptLogFile`, where present

  /** What happens on the websocket. `conn` numbers the connections in order of creation. */
  datatype Event = Connected(conn: nat) | Sent(conn: nat, request: Request) | CloseCalled(conn: nat)

  /** How a step, an app or the whole of `open_apps` ends. */
  datatype Outcome =
    | Continue               // returned normally
    | Raised(message: string) // raised `Exception(message)`
    | LibraryError           // re-raised an exception of the websocket or JSON library
    | Exited                 // `exit(1)` after the prompt: the process ends

  datatype Run = Run(events: seq<Event>, outcome: Outcome)

  /** The engine's behaviour towards one app: whether it accepts the connection, then its four responses. */
  datatype EngineScript = EngineScript(reachable: bool, openDoc: Response, activeDoc: Response, reload: Response, save: Response)

  /** `a` followed by `b`, unless `a` raised or exited. */
  function Then(a: Run, b: Run): Run
  {
    if a.outcome == Continue then Run(a.events + b.events, b.outcome) else a
  }

  /** `__conect_engine`: connection `conn` is established, or the process exits. */
  function Connect(reachable: bool, conn: nat): Run
  {
    if reachable then Run([Connected(conn)], Continue) else Run([], Exited)
  }

  /**
   * One step's try block: send the request and read the response. An `error` key closes
   * the connection, raises the engine's message, and the handler closes it again and
   * re-raises; any other exception is closed over once and re-raised.
   */
  function Call(conn: nat, request: Request, response: Response): Run
  {
    match response
    case EngineError(m) => Run([Sent(conn, request), CloseCalled(conn), CloseCalled(conn)], Raised(m))
    case Unreadable => Run([Sent(conn, request), CloseCalled(conn)], LibraryError)
    case Reply(_, _) => Run([Sent(conn, request)], Continue)
  }

  /**
   * `__get_reload_status`: the reload counts as completed when the `qSuccess` key is
   * present, whatever its value. Otherwise it raises "Reload failed", closing the
   * connection only when no `qScriptLogFile` is present either.
   */
  function ReloadStatus(conn: nat, response: Response): Run
  {
    if response.Reply? && response.qSuccess.Some? then Run([], Continue)
    else if response.Reply? && response.qScriptLogFile.Some? then Run([], Raised("Reload failed"))
    else Run([CloseCalled(conn)], Raised("Reload failed"))
  }

  /** `__reload`: the DoReloadEx round trip, then (in its `else` clause) the reload status. */
  function Reload(conn: nat, response: Response): Run
  {
    Then(Call(conn, DoReloadExRequest, response), ReloadStatus(conn, response))
  }

  /** The four steps of an app on the established connection `conn`. */
  function Session(path: string, s: EngineScript, conn: nat): Run
  {
    Then(Call(conn, OpenDocRequest(path), s.openDoc),
      Then(Call(conn, GetActiveDocRequest, s.activeDoc),
        Then(Reload(conn, s.reload),
          Call(conn, DoSaveRequest, s.save))))
  }

  /** One pass of the loop body of `open_apps` for an app, on the new connection `conn`. */
  function RunApp(path: string, s: EngineScript, conn: nat): Run
  {
    Then(Connect(s.reachable, conn), Session(path, s, conn))
  }

  /** `open_apps`: the apps in list order, app `j` on connection `conn + j`, until one raises or exits. */
  function RunApps(paths: seq<string>, scripts: seq<EngineScript>, conn: nat): Run
    requires |paths| == |scripts|
  {
    Chain(AppRuns(paths, scripts, conn))
  }

  /** What each app would do on its own. */
  function AppRuns(paths: seq<string>, scripts: seq<EngineScript>, conn: nat): (runs: seq<Run>)
    requires |paths| == |scripts|
    ensures |runs| == |paths|
  {
    seq(|paths|, j requires 0 <= j < |paths| => RunApp(paths[j], scripts[j], conn + j))
  }

  /** Runs one after the other, stopping at the first that does not continue. */
  function Chain(runs: seq<Run>): Run
  {
    if |runs| == 0 then Run([], Continue) else Then(runs[0], Chain(runs[1..]))
  }

  // ---------------------------------------------------------------------------
  // The state of `self.ws` that a sequence of events leaves behind.

  datatype Socket = Socket(conn: nat, closed: bool)

  function Apply(ws: Option<Socket>, e: Event): Option<Socket>
  {
    match e
    case Connected(c) => Some(Socket(c, false))
    case Sent(_, _) => ws
    case CloseCalled(c) => if ws.Some? && ws.value.conn == c then Some(ws.value.(closed := true)) else ws
  }

  function SocketAfter(ws: Option<Socket>, events: seq<Event>): Option<Socket>
    decreases |events|
  {
    if |events| == 0 then ws else SocketAfter(Apply(ws, events[0]), events[1..])
  }

  lemma {:induction false} SocketAfterAppend(ws: Option<Socket>, a: seq<Event>, b: seq<Event>)
    ensures SocketAfter(ws, a + b) == SocketAfter(SocketAfter(ws, a), b)
    decreases |a|
  {
    if |a| == 0 {
      assert a + b == b;
    } else {
      assert (a + b)[0] == a[0] && (a + b)[1..] == a[1..] + b;
      SocketAfterAppend(Apply(ws, a[0]), a[1..], b);
    }
  }

  /** The requests sent on connection `c`, in order. */
  function Requests(events: seq<Event>, c: nat): seq<Request>
  {
    if |events| == 0 then []
    else (if events[0].Sent? && events[0].conn == c then [events[0].request] else []) + Requests(events[1..], c)
  }

  lemma {:induction false} RequestsAppend(a: seq<Event>, b: seq<Event>, c: nat)
    ensures Requests(a + b, c) == Requests(a, c) + Requests(b, c)
    decreases |a|
  {
    if |a| == 0 {
      assert a + b == b;
    } else {
      assert (a + b)[0] == a[0] && (a + b)[1..] == a[1..] + b;
      RequestsAppend(a[1..], b, c);
    }
  }

  /** Every event of `events` is on a connection in `lo..hi`. */
  predicate OnConnections(events: seq<Event>, lo: nat, hi: nat)
  {
    forall i :: 0 <= i < |events| ==> lo <= events[i].conn < hi
  }

  lemma {:induction false} NoRequestsElsewhere(events: seq<Event>, lo: nat, hi: nat, c: nat)
    requires OnConnections(events, lo, hi) && !(lo <= c < hi)
    ensures Requests(events, c) == []
    decreases |events|
  {
    if |events| > 0 {
      assert OnConnections(events[1..], lo, hi) by {
        forall i | 0 <= i < |events[1..]| ensures lo <= events[1..][i].conn < hi {
          assert events[1..][i] == events[i + 1];
        }
      }
      NoRequestsElsewhere(events[1..], lo, hi, c);
    }
  }

  // ---------------------------------------------------------------------------
  // One app: an independent description of which steps run and how the app ends.

  /** Every step succeeds: the app is reloaded and saved and the next app follows. */
  predicate GoesThrough(s: EngineScript)
  {
    s.reachable && s.openDoc.Reply? && s.activeDoc.Reply? && s.reload.Reply? && s.reload.qSuccess.Some? && s.save.Reply?
  }

  /** The number of requests a session sends: it stops after the first step that fails. */
  function StepsSent(s: EngineScript): nat
  {
    if !s.reachable then 0 else SessionSteps(s)
  }

  /** The number of requests sent once connected. */
  function SessionSteps(s: EngineScript): nat
  {
    if !s.openDoc.Reply? then 1
    else if !s.activeDoc.Reply? then 2
    else if !s.reload.Reply? || s.reload.qSuccess.None? then 3
    else 4
  }

  /** The exception a failed round trip raises. */
  function Failure(r: Response): Outcome
  {
    if r.EngineError? then Raised(r.message) else LibraryError
  }

  /** How the app ends, step by step. */
  function AppOutcome(s: EngineScript): Outcome
  {
    if !s.reachable then Exited else SessionOutcome(s)
  }

  /** How the app ends once connected. */
  function SessionOutcome(s: EngineScript): Outcome
  {
    if !s.openDoc.Reply? then Failure(s.openDoc)
    else if !s.activeDoc.Reply? then Failure(s.activeDoc)
    else if !s.reload.Reply? then Failure(s.reload)
    else if s.reload.qSuccess.None? then Raised("Reload failed")
    else if !s.save.Reply? then Failure(s.save)
    else Continue
  }

  /** The one abort that leaves the connection open: a failed reload that names a script log. */
  predicate LeavesLogOpen(s: EngineScript)
  {
    s.reachable && s.openDoc.Reply? && s.activeDoc.Reply? && s.reload.Reply?
    && s.reload.qSuccess.None? && s.reload.qScriptLogFile.Some?
  }

  /** How a round trip ends: it continues exactly when the engine replied. */
  lemma CallEnds(conn: nat, request: Request, r: Response)
    ensures Call(conn, request, r).outcome == (if r.Reply? then Continue else Failure(r))
  {
  }

  /** A round trip sends its one request. */
  lemma CallRequests(conn: nat, request: Request, r: Response)
    ensures Requests(Call(conn, request, r).events, conn) == [request]
  {
    var ev := Call(conn, request, r).events;
    assert ev[0] == Sent(conn, request);
    if r.EngineError? {
      assert ev[1..] == [CloseCalled(conn), CloseCalled(conn)];
      assert ev[1..][1..] == [CloseCalled(conn)];
      assert Requests(ev[1..][1..], conn) == [];
    } else if r.Unreadable? {
      assert ev[1..] == [CloseCalled(conn)];
      assert Requests(ev[1..], conn) == [];
    }
  }

  lemma CallConnection(conn: nat, request: Request, r: Response)
    ensures OnConnections(Call(conn, request, r).events, conn, conn + 1)
  {
  }

  /** A round trip on an open connection closes it exactly when it fails. */
  lemma CallSocket(conn: nat, request: Request, r: Response)
    ensures SocketAfter(Some(Socket(conn, false)), Call(conn, request, r).events) == Some(Socket(conn, !r.Reply?))
  {
    var ev := Call(conn, request, r).events;
    var open := Some(Socket(conn, false));
    var shut := Some(Socket(conn, true));
    var close := [CloseCalled(conn)];
    SocketAfterOne(open, CloseCalled(conn));
    SocketAfterOne(shut, CloseCalled(conn));
    SocketAfterAppend(open, [Sent(conn, request)], ev[1..]);
    assert ev == [Sent(conn, request)] + ev[1..];
    SocketAfterOne(open, Sent(conn, request));
    if r.EngineError? {
      assert ev[1..] == close + close;
      SocketAfterAppend(open, close, close);
    } else if r.Unreadable? {
      assert ev[1..] == close;
    } else {
      assert ev[1..] == [];
    }
  }

  lemma SocketAfterOne(ws: Option<Socket>, e: Event)
    ensures SocketAfter(ws, [e]) == Apply(ws, e)
  {
    assert [e][1..] == [];
  }

  /** The reload status check of a reply: a close exactly when neither key is present. */
  lemma ReloadStatusSocket(conn: nat, r: Response)
    requires r.Reply?
    ensures SocketAfter(Some(Socket(conn, false)), ReloadStatus(conn, r).events)
         == Some(Socket(conn, r.qSuccess.None? && r.qScriptLogFile.None?))
  {
  }

  /** Requests under `Then`. */
  lemma ThenRequests(a: Run, b: Run, c: nat)
    ensures Requests(Then(a, b).events, c)
      == Requests(a.events, c) + (if a.outcome == Continue then Requests(b.events, c) else [])
  {
    if a.outcome == Continue {
      RequestsAppend(a.events, b.events, c);
    } else {
      assert Requests(a.events, c) + [] == Requests(a.events, c);
    }
  }

  /** Connections under `Then`. */
  lemma ThenConnections(a: Run, b: Run, lo: nat, hi: nat)
    requires OnConnections(a.events, lo, hi) && OnConnections(b.events, lo, hi)
    ensures OnConnections(Then(a, b).events, lo, hi)
  {
    if a.outcome == Continue {
      var ev := a.events + b.events;
      forall i | 0 <= i < |ev| ensures lo <= ev[i].conn < hi {
        if i >= |a.events| {
          assert ev[i] == b.events[i - |a.events|];
        }
      }
    }
  }

  /** The socket under `Then`. */
  lemma ThenSocket(a: Run, b: Run, ws: Option<Socket>)
    ensures SocketAfter(ws, Then(a, b).events)
      == if a.outcome == Continue then SocketAfter(SocketAfter(ws, a.events), b.events) else SocketAfter(ws, a.events)
  {
    if a.outcome == Continue {
      SocketAfterAppend(ws, a.events, b.events);
    }
  }

  /** The reload step: one request, and how it ends. */
  lemma ReloadRun(conn: nat, r: Response)
    ensures Requests(Reload(conn, r).events, conn) == [DoReloadExRequest]
    ensures OnConnections(Reload(conn, r).events, conn, conn + 1)
    ensures Reload(conn, r).outcome == (if !r.Reply? then Failure(r)
                                        else if r.qSuccess.Some? then Continue else Raised("Reload failed"))
  {
    var call := Call(conn, DoReloadExRequest, r);
    var status := ReloadStatus(conn, r);
    CallRequests(conn, DoReloadExRequest, r);
    CallConnection(conn, DoReloadExRequest, r);
    ThenRequests(call, status, conn);
    ThenConnections(call, status, conn, conn + 1);
    if r.Reply? {
      assert Requests(status.events, conn) == [];
      assert [DoReloadExRequest] + [] == [DoReloadExRequest];
    }
  }

  /** The reload step on an open connection: closed exactly when it fails without naming a log file. */
  lemma ReloadSocket(conn: nat, r: Response)
    ensures SocketAfter(Some(Socket(conn, false)), Reload(conn, r).events) ==
      Some(Socket(conn, !r.Reply? || (r.qSuccess.None? && r.qScriptLogFile.None?)))
  {
    CallSocket(conn, DoReloadExRequest, r);
    ThenSocket(Call(conn, DoReloadExRequest, r), ReloadStatus(conn, r), Some(Socket(conn, false)));
    if r.Reply? {
      ReloadStatusSocket(conn, r);
    }
  }

  /** The requests once connected, step by step. */
  lemma SessionRequestList(path: string, s: EngineScript, conn: nat)
    ensures Requests(Session(path, s, conn).events, conn) ==
      [OpenDocRequest(path)] + (if !s.openDoc.Reply? then [] else
        [GetActiveDocRequest] + (if !s.activeDoc.Reply? then [] else
          [DoReloadExRequest] + (if Reload(conn, s.reload).outcome != Continue then [] else [DoSaveRequest])))
  {
    var callOpen := Call(conn, OpenDocRequest(path), s.openDoc);
    var callActive := Call(conn, GetActiveDocRequest, s.activeDoc);
    var rl := Reload(conn, s.reload);
    var save := Call(conn, DoSaveRequest, s.save);
    var r4 := Then(rl, save);
    var r3 := Then(callActive, r4);
    CallRequests(conn, OpenDocRequest(path), s.openDoc);
    CallRequests(conn, GetActiveDocRequest, s.activeDoc);
    CallRequests(conn, DoSaveRequest, s.save);
    CallEnds(conn, OpenDocRequest(path), s.openDoc);
    CallEnds(conn, GetActiveDocRequest, s.activeDoc);
    ReloadRun(conn, s.reload);
    ThenRequests(rl, save, conn);
    ThenRequests(callActive, r4, conn);
    ThenRequests(callOpen, r3, conn);
  }

  /** The requests once connected: a prefix of the protocol. */
  lemma SessionRequests(path: string, s: EngineScript, conn: nat)
    ensures Requests(Session(path, s, conn).events, conn) == Protocol(path)[..SessionSteps(s)]
  {
    SessionRequestList(path, s, conn);
    ReloadRun(conn, s.reload);
    ProtocolPrefixes(path);
  }

  /** The prefixes of the protocol, written as the session sends them. */
  lemma ProtocolPrefixes(path: string)
    ensures var P := Protocol(path);
      && P[..1] == [OpenDocRequest(path)] + []
      && P[..2] == [OpenDocRequest(path)] + ([GetActiveDocRequest] + [])
      && P[..3] == [OpenDocRequest(path)] + ([GetActiveDocRequest] + ([DoReloadExRequest] + []))
      && P[..4] == [OpenDocRequest(path)] + ([GetActiveDocRequest] + ([DoReloadExRequest] + [DoSaveRequest]))
  {
  }

  /** Once connected, everything happens on the app's own connection. */
  lemma SessionConnection(path: string, s: EngineScript, conn: nat)
    ensures OnConnections(Session(path, s, conn).events, conn, conn + 1)
  {
    var callOpen := Call(conn, OpenDocRequest(path), s.openDoc);
    var callActive := Call(conn, GetActiveDocRequest, s.activeDoc);
    var rl := Reload(conn, s.reload);
    var save := Call(conn, DoSaveRequest, s.save);
    var r4 := Then(rl, save);
    var r3 := Then(callActive, r4);
    CallConnection(conn, OpenDocRequest(path), s.openDoc);
    CallConnection(conn, GetActiveDocRequest, s.activeDoc);
    CallConnection(conn, DoSaveRequest, s.save);
    ReloadRun(conn, s.reload);
    ThenConnections(rl, save, conn, conn + 1);
    ThenConnections(callActive, r4, conn, conn + 1);
    ThenConnections(callOpen, r3, conn, conn + 1);
  }

  /** How the steps end once connected. */
  lemma SessionEnds(path: string, s: EngineScript, conn: nat)
    ensures Session(path, s, conn).outcome == SessionOutcome(s)
  {
    ReloadRun(conn, s.reload);
    CallEnds(conn, OpenDocRequest(path), s.openDoc);
    CallEnds(conn, GetActiveDocRequest, s.activeDoc);
    CallEnds(conn, DoSaveRequest, s.save);
  }

  /** The socket once the steps are over: closed exactly when they aborted, unless a failed reload named a log. */
  lemma SessionSocket(path: string, s: EngineScript, conn: nat)
    ensures SocketAfter(Some(Socket(conn, false)), Session(path, s, conn).events)
      == Some(Socket(conn, SessionOutcome(s) != Continue && !(s.openDoc.Reply? && s.activeDoc.Reply? && s.reload.Reply?
                              && s.reload.qSuccess.None? && s.reload.qScriptLogFile.Some?)))
  {
    var open := Some(Socket(conn, false));
    var callOpen := Call(conn, OpenDocRequest(path), s.openDoc);
    var callActive := Call(conn, GetActiveDocRequest, s.activeDoc);
    var rl := Reload(conn, s.reload);
    var save := Call(conn, DoSaveRequest, s.save);
    var r4 := Then(rl, save);
    var r3 := Then(callActive, r4);
    SessionEnds(path, s, conn);
    CallEnds(conn, OpenDocRequest(path), s.openDoc);
    CallEnds(conn, GetActiveDocRequest, s.activeDoc);
    CallSocket(conn, OpenDocRequest(path), s.openDoc);
    CallSocket(conn, GetActiveDocRequest, s.activeDoc);
    CallSocket(conn, DoSaveRequest, s.save);
    ReloadRun(conn, s.reload);
    ReloadSocket(conn, s.reload);
    ThenSocket(rl, save, open);
    ThenSocket(callActive, r4, open);
    ThenSocket(callOpen, r3, open);
  }

  /** The requests of one app: the first `StepsSent(s)` of the fixed protocol. */
  lemma AppRequests(path: string, s: EngineScript, conn: nat)
    ensures Requests(RunApp(path, s, conn).events, conn) == Protocol(path)[..StepsSent(s)]
  {
    var connect := Connect(s.reachable, conn);
    var session := Session(path, s, conn);
    SessionRequests(path, s, conn);
    ThenRequests(connect, session, conn);
    if s.reachable {
      assert Requests(connect.events, conn) == [];
      assert Requests(connect.events, conn) + Requests(session.events, conn) == Requests(session.events, conn);
    }
  }

  /** Everything one app does happens on its own connection. */
  lemma AppConnection(path: string, s: EngineScript, conn: nat)
    ensures OnConnections(RunApp(path, s, conn).events, conn, conn + 1)
  {
    SessionConnection(path, s, conn);
    ThenConnections(Connect(s.reachable, conn), Session(path, s, conn), conn, conn + 1);
  }

  /** One app ends as `AppOutcome(s)`, and the loop goes on exactly when every step succeeded. */
  lemma AppEnds(path: string, s: EngineScript, conn: nat)
    ensures RunApp(path, s, conn).outcome == AppOutcome(s)
    ensures RunApp(path, s, conn).outcome == Continue <==> GoesThrough(s)
  {
    SessionEnds(path, s, conn);
  }

  /**
   * The socket one app leaves: its own connection, closed exactly when the app aborted,
   * except after a failed reload that names a log file; unchanged when the engine was unreachable.
   */
  lemma AppSocket(path: string, s: EngineScript, conn: nat, ws: Option<Socket>)
    ensures SocketAfter(ws, RunApp(path, s, conn).events) ==
      if !s.reachable then ws
      else Some(Socket(conn, RunApp(path, s, conn).outcome != Continue && !LeavesLogOpen(s)))
  {
    var connect := Connect(s.reachable, conn);
    var session := Session(path, s, conn);
    SessionEnds(path, s, conn);
    SessionSocket(path, s, conn);
    ThenSocket(connect, session, ws);
    if s.reachable {
      assert SocketAfter(ws, connect.events) == Some(Socket(conn, false));
    }
  }

  // ---------------------------------------------------------------------------
  // Composing runs one step at a time.

  lemma ThenAssoc(a: Run, b: Run, c: Run)
    ensures Then(Then(a, b), c) == Then(a, Then(b, c))
  {
    if a.outcome == Continue && b.outcome == Continue {
      assert (a.events + b.events) + c.events == a.events + (b.events + c.events);
    }
  }

  /** Nothing done yet. */
  const Start := Run([], Continue)

  lemma ThenStart(a: Run)
    ensures Then(Start, a) == a
  {
    assert [] + a.events == a.events;
  }

  /** One app's run as the loop body performs it: step after step, left to right. */
  lemma AppInSteps(path: string, s: EngineScript, conn: nat)
    ensures RunApp(path, s, conn) ==
      Then(Then(Then(Then(Then(Start, Connect(s.reachable, conn)),
        Call(conn, OpenDocRequest(path), s.openDoc)),
        Call(conn, GetActiveDocRequest, s.activeDoc)),
        Reload(conn, s.reload)),
        Call(conn, DoSaveRequest, s.save))
  {
    var c := Connect(s.reachable, conn);
    var o := Call(conn, OpenDocRequest(path), s.openDoc);
    var a := Call(conn, GetActiveDocRequest, s.activeDoc);
    var r := Reload(conn, s.reload);
    var v := Call(conn, DoSaveRequest, s.save);
    ThenStart(c);
    ThenAssoc(c, o, a);
    ThenAssoc(Then(c, o), a, r);
    ThenAssoc(c, Then(o, a), r);
    ThenAssoc(o, a, r);
    ThenAssoc(Then(Then(c, o), a), r, v);
    ThenAssoc(Then(c, o), a, Then(r, v));
    ThenAssoc(c, o, Then(a, Then(r, v)));
  }

  lemma {:induction false} ChainSnoc(runs: seq<Run>, r: Run)
    ensures Chain(runs + [r]) == Then(Chain(runs), r)
    decreases |runs|
  {
    if |runs| == 0 {
      assert runs + [r] == [r];
      assert Chain([r]) == Then(r, Start);
      assert r.events + [] == r.events;
      ThenStart(r);
    } else {
      assert (runs + [r])[0] == runs[0] && (runs + [r])[1..] == runs[1..] + [r];
      ChainSnoc(runs[1..], r);
      ThenAssoc(runs[0], Chain(runs[1..]), r);
    }
  }

  lemma ChainPrefixStep(runs: seq<Run>, i: nat)
    requires i < |runs|
    ensures Chain(runs[..i + 1]) == Then(Chain(runs[..i]), runs[i])
  {
    assert runs[..i + 1] == runs[..i] + [runs[i]];
    ChainSnoc(runs[..i], runs[i]);
  }

  /** Once a chain has stopped, later runs change nothing. */
  lemma {:induction false} ChainStops(runs: seq<Run>, more: seq<Run>)
    requires Chain(runs).outcome != Continue
    ensures Chain(runs + more) == Chain(runs)
    decreases |runs|
  {
    assert |runs| > 0;
    assert (runs + more)[0] == runs[0] && (runs + more)[1..] == runs[1..] + more;
    if runs[0].outcome == Continue {
      ChainStops(runs[1..], more);
    }
  }

  // ---------------------------------------------------------------------------
  // Chains of runs.

  /** The position of the first run that does not continue, or the number of runs. */
  function FirstFailed(runs: seq<Run>): (k: nat)
    ensures k <= |runs|
    ensures forall i :: 0 <= i < k ==> runs[i].outcome == Continue
    ensures k < |runs| ==> runs[k].outcome != Continue
  {
    if |runs| == 0 then 0
    else if runs[0].outcome != Continue then 0
    else 1 + FirstFailed(runs[1..])
  }

  /** A chain ends as its first run that does not continue, or continues. */
  lemma {:induction false} ChainOutcome(runs: seq<Run>)
    ensures Chain(runs).outcome == if FirstFailed(runs) == |runs| then Continue else runs[FirstFailed(runs)].outcome
    decreases |runs|
  {
    if |runs| > 0 && runs[0].outcome == Continue {
      ChainOutcome(runs[1..]);
      if FirstFailed(runs) < |runs| {
        assert runs[FirstFailed(runs)] == runs[1..][FirstFailed(runs[1..])];
      }
    }
  }

  /** Run `i` of the chain happens on connection `conn + i` alone. */
  predicate Numbered(runs: seq<Run>, conn: nat)
    decreases |runs|
  {
    |runs| == 0 || (OnConnections(runs[0].events, conn, conn + 1) && Numbered(runs[1..], conn + 1))
  }

  /** Runs each on its own connection, numbered from `conn`, are numbered. */
  lemma {:induction false} NumberedFromEach(runs: seq<Run>, conn: nat)
    requires forall i :: 0 <= i < |runs| ==> OnConnections(runs[i].events, conn + i, conn + i + 1)
    ensures Numbered(runs, conn)
    decreases |runs|
  {
    if |runs| > 0 {
      assert OnConnections(runs[0].events, conn, conn + 1);
      forall i | 0 <= i < |runs[1..]| ensures OnConnections(runs[1..][i].events, conn + 1 + i, conn + 1 + i + 1) {
        assert runs[1..][i] == runs[i + 1];
      }
      NumberedFromEach(runs[1..], conn + 1);
    }
  }

  lemma {:induction false} ChainConnections(runs: seq<Run>, conn: nat)
    requires Numbered(runs, conn)
    ensures OnConnections(Chain(runs).events, conn, conn + |runs|)
    decreases |runs|
  {
    if |runs| > 0 {
      ChainConnections(runs[1..], conn + 1);
      var head := runs[0].events;
      var rest := Chain(runs[1..]).events;
      assert OnConnections(head, conn, conn + 1);
      if runs[0].outcome == Continue {
        var ev := head + rest;
        forall i | 0 <= i < |ev| ensures conn <= ev[i].conn < conn + |runs| {
          if i >= |head| {
            assert ev[i] == rest[i - |head|];
          }
        }
      }
    }
  }

  /** The requests on connection `conn + j`: run `j`'s own, when every run before it continued, and none otherwise. */
  lemma {:induction false} ChainRequests(runs: seq<Run>, conn: nat, j: nat)
    requires Numbered(runs, conn) && j < |runs|
    ensures Requests(Chain(runs).events, conn + j) ==
      if j <= FirstFailed(runs) then Requests(runs[j].events, conn + j) else []
  {
    ChainRequestsOn(runs, conn, j);
    AllContinueFirstFailed(runs, j);
  }

  /** The first `j` runs all continue. */
  predicate AllContinue(runs: seq<Run>, j: nat)
    requires j <= |runs|
    decreases j
  {
    j == 0 || (runs[0].outcome == Continue && AllContinue(runs[1..], j - 1))
  }

  lemma {:induction false} AllContinueFirstFailed(runs: seq<Run>, j: nat)
    requires j <= |runs|
    ensures AllContinue(runs, j) <==> j <= FirstFailed(runs)
    decreases j
  {
    if j > 0 && runs[0].outcome == Continue {
      AllContinueFirstFailed(runs[1..], j - 1);
    }
  }

  /** `ChainRequests`, by induction on `j`. */
  lemma {:induction false} ChainRequestsOn(runs: seq<Run>, conn: nat, j: nat)
    requires Numbered(runs, conn) && j < |runs|
    ensures Requests(Chain(runs).events, conn + j) ==
      if AllContinue(runs, j) then Requests(runs[j].events, conn + j) else []
    decreases j, 1
  {
    if j == 0 {
      ChainRequestsHead(runs, conn);
    } else {
      ChainRequestsOnLater(runs, conn, j);
    }
  }

  /** `ChainRequestsOn` for a run after the first. */
  lemma {:induction false} ChainRequestsOnLater(runs: seq<Run>, conn: nat, j: nat)
    requires 0 < j < |runs| && OnConnections(runs[0].events, conn, conn + 1) && Numbered(runs[1..], conn + 1)
    ensures Requests(Chain(runs).events, conn + j) ==
      if AllContinue(runs, j) then Requests(runs[j].events, conn + j) else []
    decreases j, 0
  {
    ChainRequestsLater(runs, conn, j);
    if runs[0].outcome == Continue {
      assert AllContinue(runs, j) == AllContinue(runs[1..], j - 1);
      ChainRequestsOn(runs[1..], conn + 1, j - 1);
      assert runs[1..][j - 1] == runs[j];
    } else {
      assert !AllContinue(runs, j);
    }
  }

  /** The first run of a chain sends nothing on a later run's connection. */
  lemma ChainRequestsLater(runs: seq<Run>, conn: nat, j: nat)
    requires 0 < j < |runs| && OnConnections(runs[0].events, conn, conn + 1)
    ensures Requests(Chain(runs).events, conn + j) ==
      if runs[0].outcome == Continue then Requests(Chain(runs[1..]).events, conn + j) else []
  {
    assert OnConnections(runs[0].events, conn, conn + 1);
    LaterConnection(runs[0], Chain(runs[1..]), conn, conn + j);
  }

  /** A run on connection `conn` adds no request on another connection `c`. */
  lemma LaterConnection(head: Run, rest: Run, conn: nat, c: nat)
    requires OnConnections(head.events, conn, conn + 1) && c != conn
    ensures Requests(Then(head, rest).events, c) == if head.outcome == Continue then Requests(rest.events, c) else []
  {
    NoRequestsElsewhere(head.events, conn, conn + 1, c);
    ThenRequests(head, rest, c);
  }

  lemma ChainRequestsHead(runs: seq<Run>, conn: nat)
    requires Numbered(runs, conn) && 0 < |runs|
    ensures Requests(Chain(runs).events, conn) == Requests(runs[0].events, conn)
  {
    var head := runs[0];
    var rest := Chain(runs[1..]);
    if head.outcome == Continue {
      ChainConnections(runs[1..], conn + 1);
      NoRequestsElsewhere(rest.events, conn + 1, conn + |runs|, conn);
      RequestsAppend(head.events, rest.events, conn);
      assert Requests(head.events, conn) + [] == Requests(head.events, conn);
    }
  }

  /**
   * The socket a chain leaves: that of its first run that does not continue, started from
   * the socket the run before it left open, given that every run that continues leaves its
   * own connection open.
   */
  lemma {:induction false} ChainSocket(runs: seq<Run>, conn: nat, ws: Option<Socket>)
    requires forall i, w :: 0 <= i < |runs| && runs[i].outcome == Continue ==>
      SocketAfter(w, runs[i].events) == Some(Socket(conn + i, false))
    ensures var k := FirstFailed(runs);
      var before := if k == 0 then ws else Some(Socket(conn + k - 1, false));
      SocketAfter(ws, Chain(runs).events) == if k == |runs| then before else SocketAfter(before, runs[k].events)
    decreases |runs|
  {
    if |runs| > 0 {
      ThenSocket(runs[0], Chain(runs[1..]), ws);
      if runs[0].outcome == Continue {
        var open := Some(Socket(conn, false));
        assert SocketAfter(ws, runs[0].events) == open;
        forall i, w | 0 <= i < |runs[1..]| && runs[1..][i].outcome == Continue
          ensures SocketAfter(w, runs[1..][i].events) == Some(Socket(conn + 1 + i, false))
        {
          assert runs[1..][i] == runs[i + 1];
        }
        ChainSocket(runs[1..], conn + 1, open);
        var k := FirstFailed(runs);
        if k < |runs| {
          assert runs[k] == runs[1..][k - 1];
        }
      }
    }
  }

  // ---------------------------------------------------------------------------
  // The whole list of apps.

  predicate AllGoThrough(scripts: seq<EngineScript>)
  {
    forall i :: 0 <= i < |scripts| ==> GoesThrough(scripts[i])
  }

  /** The position of the first app that does not go through, or the number of apps. */
  function FirstStuck(scripts: seq<EngineScript>): (k: nat)
    ensures k <= |scripts|
    ensures forall i :: 0 <= i < k ==> GoesThrough(scripts[i])
    ensures k < |scripts| ==> !GoesThrough(scripts[k])
  {
    if |scripts| == 0 then 0
    else if !GoesThrough(scripts[0]) then 0
    else 1 + FirstStuck(scripts[1..])
  }

  /** Runs that continue exactly where the scripts go through stop at the same position. */
  lemma FirstFailedStuck(runs: seq<Run>, scripts: seq<EngineScript>)
    requires |runs| == |scripts|
    requires forall i :: 0 <= i < |runs| ==> (runs[i].outcome == Continue <==> GoesThrough(scripts[i]))
    ensures FirstFailed(runs) == FirstStuck(scripts)
  {
  }

  // What each app's run does, by position.

  lemma AppRunsEnds(paths: seq<string>, scripts: seq<EngineScript>, conn: nat, i: nat)
    requires |paths| == |scripts| && i < |paths|
    ensures AppRuns(paths, scripts, conn)[i].outcome == AppOutcome(scripts[i])
    ensures AppRuns(paths, scripts, conn)[i].outcome == Continue <==> GoesThrough(scripts[i])
  {
    assert AppRuns(paths, scripts, conn)[i] == RunApp(paths[i], scripts[i], conn + i);
    AppEnds(paths[i], scripts[i], conn + i);
  }

  lemma AppRunsConnection(paths: seq<string>, scripts: seq<EngineScript>, conn: nat, i: nat)
    requires |paths| == |scripts| && i < |paths|
    ensures OnConnections(AppRuns(paths, scripts, conn)[i].events, conn + i, conn + i + 1)
  {
    assert AppRuns(paths, scripts, conn)[i] == RunApp(paths[i], scripts[i], conn + i);
    AppConnection(paths[i], scripts[i], conn + i);
  }

  lemma AppRunsRequests(paths: seq<string>, scripts: seq<EngineScript>, conn: nat, i: nat)
    requires |paths| == |scripts| && i < |paths|
    ensures Requests(AppRuns(paths, scripts, conn)[i].events, conn + i) == Protocol(paths[i])[..StepsSent(scripts[i])]
  {
    assert AppRuns(paths, scripts, conn)[i] == RunApp(paths[i], scripts[i], conn + i);
    AppRequests(paths[i], scripts[i], conn + i);
  }

  lemma AppRunsSocket(paths: seq<string>, scripts: seq<EngineScript>, conn: nat, i: nat, w: Option<Socket>)
    requires |paths| == |scripts| && i < |paths|
    ensures var run := AppRuns(paths, scripts, conn)[i];
      SocketAfter(w, run.events) ==
        if !scripts[i].reachable then w
        else Some(Socket(conn + i, run.outcome != Continue && !LeavesLogOpen(scripts[i])))
  {
    assert AppRuns(paths, scripts, conn)[i] == RunApp(paths[i], scripts[i], conn + i);
    AppSocket(paths[i], scripts[i], conn + i, w);
  }

  /** The first app run that stops the loop is that of the first app that does not go through. */
  lemma FirstFailedApp(paths: seq<string>, scripts: seq<EngineScript>, conn: nat)
    requires |paths| == |scripts|
    ensures FirstFailed(AppRuns(paths, scripts, conn)) == FirstStuck(scripts)
  {
    var runs := AppRuns(paths, scripts, conn);
    forall i | 0 <= i < |runs| ensures runs[i].outcome == Continue <==> GoesThrough(scripts[i]) {
      AppRunsEnds(paths, scripts, conn, i);
    }
    FirstFailedStuck(runs, scripts);
  }

  /** `open_apps` returns normally exactly when every app goes through, and otherwise ends as the first app that does not. */
  lemma AppsOutcome(paths: seq<string>, scripts: seq<EngineScript>, conn: nat)
    requires |paths| == |scripts|
    ensures var k := FirstStuck(scripts);
      RunApps(paths, scripts, conn).outcome == if k == |scripts| then Continue else AppOutcome(scripts[k])
    ensures RunApps(paths, scripts, conn).outcome == Continue <==> AllGoThrough(scripts)
  {
    var runs := AppRuns(paths, scripts, conn);
    var k := FirstStuck(scripts);
    ChainOutcome(runs);
    FirstFailedApp(paths, scripts, conn);
    if k < |scripts| {
      AppRunsEnds(paths, scripts, conn, k);
    }
  }

  lemma AppsNumbered(paths: seq<string>, scripts: seq<EngineScript>, conn: nat)
    requires |paths| == |scripts|
    ensures Numbered(AppRuns(paths, scripts, conn), conn)
  {
    var runs := AppRuns(paths, scripts, conn);
    forall i | 0 <= i < |runs| ensures OnConnections(runs[i].events, conn + i, conn + i + 1) {
      AppRunsConnection(paths, scripts, conn, i);
    }
    NumberedFromEach(runs, conn);
  }

  /** App `j` is the only one to use connection `conn + j`. */
  lemma AppsConnections(paths: seq<string>, scripts: seq<EngineScript>, conn: nat)
    requires |paths| == |scripts|
    ensures OnConnections(RunApps(paths, scripts, conn).events, conn, conn + |paths|)
  {
    AppsNumbered(paths, scripts, conn);
    ChainConnections(AppRuns(paths, scripts, conn), conn);
  }

  /** Whether every app before position `j` goes through, in terms of the first that does not. */
  lemma PrefixGoesThrough(scripts: seq<EngineScript>, j: nat)
    requires j <= |scripts|
    ensures AllGoThrough(scripts[..j]) <==> j <= FirstStuck(scripts)
  {
    var k := FirstStuck(scripts);
    if k < j {
      assert scripts[..j][k] == scripts[k];
    } else {
      forall i | 0 <= i < j ensures GoesThrough(scripts[..j][i]) {
        assert scripts[..j][i] == scripts[i];
      }
    }
  }

  /**
   * The requests on app `j`'s connection: the prefix of the protocol its own engine
   * responses allow, when every earlier app went through, and none at all otherwise.
   */
  lemma AppsRequests(paths: seq<string>, scripts: seq<EngineScript>, conn: nat, j: nat)
    requires |paths| == |scripts| && j < |paths|
    ensures Requests(RunApps(paths, scripts, conn).events, conn + j)
      == if AllGoThrough(scripts[..j]) then Protocol(paths[j])[..StepsSent(scripts[j])] else []
  {
    var runs := AppRuns(paths, scripts, conn);
    AppsNumbered(paths, scripts, conn);
    ChainRequests(runs, conn, j);
    FirstFailedApp(paths, scripts, conn);
    AppRunsRequests(paths, scripts, conn, j);
    PrefixGoesThrough(scripts, j);
  }

  /**
   * `self.ws` after `open_apps`: after a run that goes through, the last app's connection,
   * still open; otherwise the connection the first stuck app leaves (see `AppSocket`), or the
   * previous app's open connection when the engine could not be reached.
   */
  lemma AppsSocket(paths: seq<string>, scripts: seq<EngineScript>, conn: nat, ws: Option<Socket>)
    requires |paths| == |scripts|
    ensures var k := FirstStuck(scripts);
      var before := if k == 0 then ws else Some(Socket(conn + k - 1, false));
      SocketAfter(ws, RunApps(paths, scripts, conn).events) ==
        if k == |scripts| then before
        else if !scripts[k].reachable then before
        else Some(Socket(conn + k, !LeavesLogOpen(scripts[k])))
  {
    var runs := AppRuns(paths, scripts, conn);
    AppsLeaveOpen(paths, scripts, conn);
    ChainSocket(runs, conn, ws);
    FirstFailedApp(paths, scripts, conn);
    var k := FirstStuck(scripts);
    if k < |scripts| {
      var before := if k == 0 then ws else Some(Socket(conn + k - 1, false));
      AppRunsEnds(paths, scripts, conn, k);
      AppRunsSocket(paths, scripts, conn, k, before);
    }
  }

  /** An app that goes through leaves its own connection open. */
  lemma AppsLeaveOpen(paths: seq<string>, scripts: seq<EngineScript>, conn: nat)
    requires |paths| == |scripts|
    ensures var runs := AppRuns(paths, scripts, conn);
      forall i, w :: 0 <= i < |runs| && runs[i].outcome == Continue ==>
        SocketAfter(w, runs[i].events) == Some(Socket(conn + i, false))
  {
    var runs := AppRuns(paths, scripts, conn);
    forall i, w | 0 <= i < |runs| && runs[i].outcome == Continue
      ensures SocketAfter(w, runs[i].events) == Some(Socket(conn + i, false))
    {
      AppRunsEnds(paths, scripts, conn, i);
      AppRunsSocket(paths, scripts, conn, i, w);
    }
  }
}
