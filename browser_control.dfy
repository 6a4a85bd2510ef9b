/**
 * Browser sessions that an agent or a human can drive, and the manager that keeps
 * them. A session's changing part (status, control mode, process, last activity
 * and the metadata dictionary saved beside it) is gathered in a `SessionView`; each
 * session method moves its view by a pure transition defined here, and the manager
 * methods are proved against those transitions.
 *
 * The operating system is a parameter: a spawn yields a process id or raises, and
 * `exited` maps the process ids that have ended to their exit codes at the time of
 * a call. Clock readings are integer parameters.
 */
module BrowserControl {
  import opened Wrappers
  import opened Strings

  /** A value in the metadata dictionary. */
  datatype Meta = MInt(i: int) | MStr(s: string) | MBool(b: bool)

  /** The fields of a session that its methods update. */
  datatype SessionView = SessionView(
    status: string,
    controlMode: string,
    process: Option<int>,
    lastActivity: int,
    metadata: map<string, Meta>)

  /** The metadata repeats the status and the control mode. */
  predicate Mirrors(v: SessionView) {
    "status" in v.metadata && v.metadata["status"] == MStr(v.status) &&
    "control_mode" in v.metadata && v.metadata["control_mode"] == MStr(v.controlMode)
  }

  /** The process was spawned and has not exited. */
  predicate Live(v: SessionView, exited: map<int, int>) {
    v.process.Some? && v.process.value !in exited
  }

  predicate ValidMode(mode: string) {
    mode == "agent" || mode == "human"
  }

  const InvalidModeText := "Invalid mode. Must be 'agent' or 'human'"

  function NotFoundText(sessionId: string): string {
    "Session " + sessionId + " not found"
  }

  function DebugUrl(debugPort: int): string {
    "http://localhost:" + IntToString(debugPort)
  }

  function ControlUrl(agentId: int, sessionId: string): string {
    "/browser-control/" + IntToString(agentId) + "/" + sessionId
  }

  // ---------------------------------------------------------------------------
  // Transitions of one session

  /** A new session: initialising, driven by the agent, no process yet. */
  function InitialView(agentId: int, sessionId: string, port: int, debugPort: int, now: int): (v: SessionView)
    ensures v.status == "initializing" && v.controlMode == "agent" && v.process.None?
    ensures Mirrors(v)
    ensures v.metadata.Keys == {"agent_id", "session_id", "port", "debug_port", "status", "start_time", "control_mode"}
  {
    SessionView("initializing", "agent", None, now,
      map["agent_id" := MInt(agentId), "session_id" := MStr(sessionId), "port" := MInt(port),
          "debug_port" := MInt(debugPort), "status" := MStr("initializing"), "start_time" := MInt(now),
          "control_mode" := MStr("agent")])
  }

  /** `start`: running with the process on a successful spawn, error (with its text) when spawning raises. */
  function StartView(v: SessionView, spawn: Result<int, string>): (w: SessionView)
    ensures w.status == (if spawn.Ok? then "running" else "error")
    ensures w.process == (if spawn.Ok? then Some(spawn.value) else v.process)
    ensures w.controlMode == v.controlMode && w.lastActivity == v.lastActivity
    ensures spawn.Ok? ==> w.metadata == v.metadata["status" := MStr("running")]["process_id" := MInt(spawn.value)]
    ensures spawn.Err? ==> w.metadata == v.metadata["status" := MStr("error")]["error" := MStr(spawn.error)]
  {
    match spawn
    case Ok(pid) =>
      v.(status := "running", process := Some(pid),
         metadata := v.metadata["status" := MStr("running")]["process_id" := MInt(pid)])
    case Err(e) =>
      v.(status := "error", metadata := v.metadata["status" := MStr("error")]["error" := MStr(e)])
  }

  /** `stop`: a live process is ended and the session is stopped; otherwise nothing changes. */
  function StopView(v: SessionView, exited: map<int, int>): (w: SessionView)
    ensures Live(v, exited) ==> w == v.(status := "stopped", metadata := v.metadata["status" := MStr("stopped")])
    ensures !Live(v, exited) ==> w == v
  {
    if Live(v, exited) then v.(status := "stopped", metadata := v.metadata["status" := MStr("stopped")]) else v
  }

  /** `transfer_control`: a valid mode is taken and the activity time is refreshed; any other mode changes nothing. */
  function TransferView(v: SessionView, mode: string, now: int): (w: SessionView)
    ensures !ValidMode(mode) ==> w == v
    ensures ValidMode(mode) ==> w.controlMode == mode && w.lastActivity == now && w.status == v.status && w.process == v.process
    ensures ValidMode(mode) ==> w.metadata == v.metadata["control_mode" := MStr(mode)]["last_activity" := MInt(now)]
  {
    if !ValidMode(mode) then v
    else v.(controlMode := mode, lastActivity := now,
            metadata := v.metadata["control_mode" := MStr(mode)]["last_activity" := MInt(now)])
  }

  /** `get_status`'s refresh: a running session whose process has exited becomes stopped, with the exit code. */
  function RefreshView(v: SessionView, exited: map<int, int>): (w: SessionView)
    ensures (v.process.Some? && v.process.value in exited && v.status == "running") ==>
      w == v.(status := "stopped", metadata := v.metadata["status" := MStr("stopped")]["exit_code" := MInt(exited[v.process.value])])
    ensures !(v.process.Some? && v.process.value in exited && v.status == "running") ==> w == v
  {
    if v.process.Some? && v.process.value in exited && v.status == "running" then
      v.(status := "stopped", metadata := v.metadata["status" := MStr("stopped")]["exit_code" := MInt(exited[v.process.value])])
    else v
  }

  /** Every transition keeps the status and control mode mirrored into the metadata. */
  lemma TransitionsKeepMirror(v: SessionView, spawn: Result<int, string>, exited: map<int, int>, mode: string, now: int)
    requires Mirrors(v)
    ensures Mirrors(StartView(v, spawn))
    ensures Mirrors(StopView(v, exited))
    ensures Mirrors(TransferView(v, mode, now))
    ensures Mirrors(RefreshView(v, exited))
  {
  }

  /**
   * Status moves only from running to stopped under a refresh, and only to stopped
   * under a stop; a transfer of control, to any mode at any time, leaves it alone.
   */
  lemma StatusMoves(v: SessionView, exited: map<int, int>, mode: string, now: int)
    ensures RefreshView(v, exited).status == v.status || (v.status == "running" && RefreshView(v, exited).status == "stopped")
    ensures StopView(v, exited).status == v.status || StopView(v, exited).status == "stopped"
    ensures TransferView(v, mode, now).status == v.status
  {
  }

  /** Refreshing or stopping twice against the same process table is doing it once. */
  lemma RefreshAndStopIdempotent(v: SessionView, exited: map<int, int>)
    ensures RefreshView(RefreshView(v, exited), exited) == RefreshView(v, exited)
    ensures StopView(StopView(v, exited), exited) == StopView(v, exited)
  {
  }

  /** Handing control back and forth ends where the last transfer put it; the status is untouched. */
  lemma TransferBackAndForth(v: SessionView, now: int, later: int)
    ensures TransferView(TransferView(v, "human", now), "agent", later).controlMode == "agent"
    ensures TransferView(TransferView(v, "human", now), "agent", later).status == v.status
    ensures TransferView(TransferView(v, "human", now), "agent", later).lastActivity == later
  {
  }

  // ---------------------------------------------------------------------------
  // Replies

  datatype StartReply = StartReply(sessionId: string, status: string, debugUrl: Option<string>,
                                   controlUrl: Option<string>, error: Option<string>)

  datatype StopReply = StopReply(sessionId: string, status: string)

  datatype TransferReply = TransferReply(sessionId: string, controlMode: string, status: string)

  /** `get_status`'s report; `uptime` and `idle` are seconds since start and since the last activity. */
  datatype SessionReport = SessionReport(sessionId: string, agentId: int, status: string, controlMode: string,
                                         debugUrl: string, controlUrl: string, uptime: int, idle: int)

  class BrowserSession {
    const agentId: int
    const sessionId: string
    const headless: bool
    const port: int
    const debugPort: int
    const startTime: int

    var status: string
    var controlMode: string
    var process: Option<int>
    var lastActivity: int
    var metadata: map<string, Meta>

    function View(): SessionView
      reads this
    {
      SessionView(status, controlMode, process, lastActivity, metadata)
    }

    /** The status report of this session when its fields are `v`. */
    function Report(v: SessionView, now: int): (r: SessionReport)
      ensures r.sessionId == sessionId && r.agentId == agentId && r.status == v.status && r.controlMode == v.controlMode
      ensures r.uptime == now - startTime && r.idle == now - v.lastActivity
    {
      SessionReport(sessionId, agentId, v.status, v.controlMode, DebugUrl(debugPort),
                    ControlUrl(agentId, sessionId), now - startTime, now - v.lastActivity)
    }

    constructor (agentId: int, sessionId: string, headless: bool, port: int, debugPort: int, now: int)
      ensures this.agentId == agentId && this.sessionId == sessionId && this.headless == headless
      ensures this.port == port && this.debugPort == debugPort && startTime == now
      ensures View() == InitialView(agentId, sessionId, port, debugPort, now)
    {
      this.agentId := agentId;
      this.sessionId := sessionId;
      this.headless := headless;
      this.port := port;
      this.debugPort := debugPort;
      startTime := now;
      status := "initializing";
      controlMode := "agent";
      process := None;
      lastActivity := now;
      metadata := map["agent_id" := MInt(agentId), "session_id" := MStr(sessionId), "port" := MInt(port),
                      "debug_port" := MInt(debugPort), "status" := MStr("initializing"), "start_time" := MInt(now),
                      "control_mode" := MStr("agent")];
    }

    method Start(spawn: Result<int, string>) returns (r: StartReply)
      modifies this
      ensures View() == StartView(old(View()), spawn)
      ensures spawn.Ok? ==> r == StartReply(sessionId, "running", Some(DebugUrl(debugPort)), Some(ControlUrl(agentId, sessionId)), None)
      ensures spawn.Err? ==> r == StartReply(sessionId, "error", None, None, Some(spawn.error))
    {
      if spawn.Err? {
        status := "error";
        metadata := metadata["status" := MStr(status)];
        metadata := metadata["error" := MStr(spawn.error)];
        return StartReply(sessionId, "error", None, None, Some(spawn.error));
      }
      process := Some(spawn.value);
      status := "running";
      metadata := metadata["status" := MStr(status)];
      metadata := metadata["process_id" := MInt(process.value)];
      r := StartReply(sessionId, status, Some(DebugUrl(debugPort)), Some(ControlUrl(agentId, sessionId)), None);
    }

    method Stop(exited: map<int, int>) returns (r: StopReply)
      modifies this
      ensures View() == StopView(old(View()), exited)
      ensures r == StopReply(sessionId, View().status)
    {
      if process.Some? && process.value !in exited {
        status := "stopped";
        metadata := metadata["status" := MStr(status)];
        return StopReply(sessionId, "stopped");
      }
      r := StopReply(sessionId, status);
    }

    method TransferControl(mode: string, now: int) returns (r: Result<TransferReply, string>)
      modifies this
      ensures View() == TransferView(old(View()), mode, now)
      ensures !ValidMode(mode) ==> r == Err(InvalidModeText)
      ensures ValidMode(mode) ==> r == Ok(TransferReply(sessionId, mode, View().status))
    {
      if mode != "agent" && mode != "human" {
        return Err(InvalidModeText);
      }
      controlMode := mode;
      metadata := metadata["control_mode" := MStr(mode)];
      lastActivity := now;
      metadata := metadata["last_activity" := MInt(lastActivity)];
      r := Ok(TransferReply(sessionId, mode, status));
    }

    method GetStatus(exited: map<int, int>, now: int) returns (r: SessionReport)
      modifies this
      ensures View() == RefreshView(old(View()), exited)
      ensures r == Report(View(), now)
    {
      if process.Some? {
        if process.value in exited && status == "running" {
          status := "stopped";
          metadata := metadata["status" := MStr(status)];
          metadata := metadata["exit_code" := MInt(exited[process.value])];
        }
      }
      r := SessionReport(sessionId, agentId, status, controlMode, DebugUrl(debugPort),
                         ControlUrl(agentId, sessionId), now - startTime, now - lastActivity);
    }
  }

  // ---------------------------------------------------------------------------
  // The manager

  /** The ids of `ids` under which `m` holds a session, in order. */
  function KnownIds<V>(ids: seq<string>, m: map<string, V>): (r: seq<string>)
    ensures |r| <= |ids|
    ensures forall j :: 0 <= j < |r| ==> r[j] in m
  {
    if ids == [] then []
    else KnownIds(ids[..|ids| - 1], m) + (if ids[|ids| - 1] in m then [ids[|ids| - 1]] else [])
  }

  /** An id is kept exactly when it is listed and has a session. */
  lemma {:induction false} KnownIdsMembers<V>(ids: seq<string>, m: map<string, V>, k: string)
    ensures k in KnownIds(ids, m) <==> k in ids && k in m
  {
    if ids != [] {
      var front := ids[..|ids| - 1];
      KnownIdsMembers(front, m, k);
      assert ids == front + [ids[|ids| - 1]];
    }
  }

  lemma KnownIdsStep<V>(ids: seq<string>, i: nat, m: map<string, V>)
    requires i < |ids|
    ensures KnownIds(ids[..i + 1], m) == KnownIds(ids[..i], m) + (if ids[i] in m then [ids[i]] else [])
  {
    assert ids[..i + 1][..i] == ids[..i];
  }

  /** Ids that are all known are all kept. */
  lemma {:induction false} KnownIdsAll<V>(ids: seq<string>, m: map<string, V>)
    requires forall j :: 0 <= j < |ids| ==> ids[j] in m
    ensures KnownIds(ids, m) == ids
  {
    if ids != [] {
      KnownIdsAll(ids[..|ids| - 1], m);
      assert ids[..|ids| - 1] + [ids[|ids| - 1]] == ids;
    }
  }

  /** The ids an agent's list should hold after `create_session` appends one. */
  function AppendedIds(agentSessions: map<int, seq<string>>, agentId: int, sessionId: string): (r: seq<string>)
    ensures agentId !in agentSessions ==> r == [sessionId]
    ensures agentId in agentSessions ==> r == agentSessions[agentId] + [sessionId]
  {
    (if agentId in agentSessions then agentSessions[agentId] else []) + [sessionId]
  }

  class BrowserManager {
    var sessions: map<string, BrowserSession>
    var agentSessions: map<int, seq<string>>

    /** Each session is stored under its own id, so distinct ids hold distinct sessions. */
    predicate Valid()
      reads this
    {
      forall k :: k in sessions ==> sessions[k].sessionId == k
    }

    constructor ()
      ensures Valid() && sessions == map[] && agentSessions == map[]
    {
      sessions, agentSessions := map[], map[];
    }

    /** `create_session`: a new session under the fresh id, listed for the agent, then started. */
    method CreateSession(agentId: int, headless: bool, sessionId: string, port: int, debugPort: int, now: int,
                         spawn: Result<int, string>) returns (r: StartReply)
      requires Valid()
      modifies this
      ensures Valid()
      ensures sessionId in sessions && fresh(sessions[sessionId])
      ensures sessions == old(sessions)[sessionId := sessions[sessionId]]
      ensures agentSessions == old(agentSessions)[agentId := AppendedIds(old(agentSessions), agentId, sessionId)]
      ensures sessions[sessionId].agentId == agentId
      ensures sessions[sessionId].View() == StartView(InitialView(agentId, sessionId, port, debugPort, now), spawn)
      ensures r.sessionId == sessionId && r.status == sessions[sessionId].View().status
      ensures spawn.Ok? ==> r == StartReply(sessionId, "running", Some(DebugUrl(debugPort)), Some(ControlUrl(agentId, sessionId)), None)
      ensures spawn.Err? ==> r == StartReply(sessionId, "error", None, None, Some(spawn.error))
    {
      var session := new BrowserSession(agentId, sessionId, headless, port, debugPort, now);
      sessions := sessions[sessionId := session];
      if agentId !in agentSessions {
        agentSessions := agentSessions[agentId := []];
      }
      agentSessions := agentSessions[agentId := agentSessions[agentId] + [sessionId]];
      r := session.Start(spawn);
    }

    /** `get_session`. */
    function GetSession(sessionId: string): (r: Option<BrowserSession>)
      reads this
      ensures r.Some? <==> sessionId in sessions
      ensures r.Some? ==> r.value == sessions[sessionId]
    {
      if sessionId in sessions then Some(sessions[sessionId]) else None
    }

    /** `get_status` of one stored session; every other session is left as it was. */
    method RefreshOne(id: string, exited: map<int, int>, now: int, ghost done: seq<string>, ghost before: map<string, SessionView>)
      returns (report: SessionReport)
      requires Valid() && id in sessions
      requires forall k :: k in sessions ==> k in before
      requires forall k :: k in sessions ==> sessions[k].View() == (if k in done then RefreshView(before[k], exited) else before[k])
      modifies sessions[id]
      ensures report == sessions[id].Report(RefreshView(before[id], exited), now)
      ensures forall k :: k in sessions ==> sessions[k].View() == (if k in done + [id] then RefreshView(before[k], exited) else before[k])
    {
      assert forall k :: k in sessions && k != id ==> sessions[k] != sessions[id];
      RefreshAndStopIdempotent(before[id], exited);
      report := sessions[id].GetStatus(exited, now);
    }

    /** One round of `RefreshListed`: refreshes and reports `ids[i]` when it is stored. */
    method RefreshStep(ids: seq<string>, i: nat, exited: map<int, int>, now: int, r: seq<SessionReport>,
                       ghost known: seq<string>, ghost before: map<string, SessionView>)
      returns (r': seq<SessionReport>, ghost known': seq<string>)
      requires Valid() && i < |ids|
      requires forall k :: k in sessions ==> k in before
      requires known == KnownIds(ids[..i], sessions)
      requires |r| == |known|
      requires forall j :: 0 <= j < |r| ==> r[j] == sessions[known[j]].Report(RefreshView(before[known[j]], exited), now)
      requires forall k :: k in sessions ==> sessions[k].View() == (if k in ids[..i] then RefreshView(before[k], exited) else before[k])
      modifies sessions.Values
      ensures sessions == old(sessions)
      ensures known' == KnownIds(ids[..i + 1], sessions)
      ensures |r'| == |known'|
      ensures forall j :: 0 <= j < |r'| ==> r'[j] == sessions[known'[j]].Report(RefreshView(before[known'[j]], exited), now)
      ensures forall k :: k in sessions ==> sessions[k].View() == (if k in ids[..i + 1] then RefreshView(before[k], exited) else before[k])
    {
      KnownIdsStep(ids, i, sessions);
      assert ids[..i + 1] == ids[..i] + [ids[i]];
      var id := ids[i];
      r', known' := r, known;
      if id in sessions {
        var report := RefreshOne(id, exited, now, ids[..i], before);
        r' := r + [report];
        known' := known + [id];
      }
    }

    /** Refreshes and reports, in order, every session of `ids` that is stored. */
    method RefreshListed(ids: seq<string>, exited: map<int, int>, now: int, ghost before: map<string, SessionView>) returns (r: seq<SessionReport>)
      requires Valid()
      requires forall k :: k in sessions ==> k in before && before[k] == sessions[k].View()
      modifies sessions.Values
      ensures |r| == |KnownIds(ids, sessions)|
      ensures forall j :: 0 <= j < |r| ==> r[j] == sessions[KnownIds(ids, sessions)[j]].Report(RefreshView(before[KnownIds(ids, sessions)[j]], exited), now)
      ensures forall k :: k in sessions ==> sessions[k].View() == (if k in ids then RefreshView(before[k], exited) else before[k])
    {
      r := [];
      ghost var known: seq<string> := [];
      var i := 0;
      while i < |ids|
        invariant 0 <= i <= |ids|
        invariant sessions == old(sessions)
        invariant known == KnownIds(ids[..i], sessions)
        invariant |r| == |known|
        invariant forall j :: 0 <= j < |r| ==> r[j] == sessions[known[j]].Report(RefreshView(before[known[j]], exited), now)
        invariant forall k :: k in sessions ==> sessions[k].View() == (if k in ids[..i] then RefreshView(before[k], exited) else before[k])
      {
        r, known := RefreshStep(ids, i, exited, now, r, known, before);
        i := i + 1;
      }
      assert ids[..i] == ids;
    }

    /** `stop` of one stored session; every other session is left as it was. */
    method StopOne(id: string, exited: map<int, int>, ghost done: seq<string>, ghost before: map<string, SessionView>)
      returns (reply: StopReply)
      requires Valid() && id in sessions
      requires forall k :: k in sessions ==> k in before
      requires forall k :: k in sessions ==> sessions[k].View() == (if k in done then StopView(before[k], exited) else before[k])
      modifies sessions[id]
      ensures reply == StopReply(id, StopView(before[id], exited).status)
      ensures forall k :: k in sessions ==> sessions[k].View() == (if k in done + [id] then StopView(before[k], exited) else before[k])
    {
      assert forall k :: k in sessions && k != id ==> sessions[k] != sessions[id];
      RefreshAndStopIdempotent(before[id], exited);
      reply := sessions[id].Stop(exited);
    }

    /** One round of `StopListed`: stops `ids[i]` when it is stored. */
    method StopStep(ids: seq<string>, i: nat, exited: map<int, int>, r: seq<StopReply>,
                       ghost known: seq<string>, ghost before: map<string, SessionView>)
      returns (r': seq<StopReply>, ghost known': seq<string>)
      requires Valid() && i < |ids|
      requires forall k :: k in sessions ==> k in before
      requires known == KnownIds(ids[..i], sessions)
      requires |r| == |known|
      requires forall j :: 0 <= j < |r| ==> r[j] == StopReply(known[j], StopView(before[known[j]], exited).status)
      requires forall k :: k in sessions ==> sessions[k].View() == (if k in ids[..i] then StopView(before[k], exited) else before[k])
      modifies sessions.Values
      ensures sessions == old(sessions)
      ensures known' == KnownIds(ids[..i + 1], sessions)
      ensures |r'| == |known'|
      ensures forall j :: 0 <= j < |r'| ==> r'[j] == StopReply(known'[j], StopView(before[known'[j]], exited).status)
      ensures forall k :: k in sessions ==> sessions[k].View() == (if k in ids[..i + 1] then StopView(before[k], exited) else before[k])
    {
      KnownIdsStep(ids, i, sessions);
      assert ids[..i + 1] == ids[..i] + [ids[i]];
      var id := ids[i];
      r', known' := r, known;
      if id in sessions {
        var reply := StopOne(id, exited, ids[..i], before);
        r' := r + [reply];
        known' := known + [id];
      }
    }

    /** Stops, in order, every session of `ids` that is stored. */
    method StopListed(ids: seq<string>, exited: map<int, int>, ghost before: map<string, SessionView>) returns (r: seq<StopReply>)
      requires Valid()
      requires forall k :: k in sessions ==> k in before && before[k] == sessions[k].View()
      modifies sessions.Values
      ensures |r| == |KnownIds(ids, sessions)|
      ensures forall j :: 0 <= j < |r| ==> r[j] == StopReply(KnownIds(ids, sessions)[j], StopView(before[KnownIds(ids, sessions)[j]], exited).status)
      ensures forall k :: k in sessions ==> sessions[k].View() == (if k in ids then StopView(before[k], exited) else before[k])
    {
      r := [];
      ghost var known: seq<string> := [];
      var i := 0;
      while i < |ids|
        invariant 0 <= i <= |ids|
        invariant sessions == old(sessions)
        invariant known == KnownIds(ids[..i], sessions)
        invariant |r| == |known|
        invariant forall j :: 0 <= j < |r| ==> r[j] == StopReply(known[j], StopView(before[known[j]], exited).status)
        invariant forall k :: k in sessions ==> sessions[k].View() == (if k in ids[..i] then StopView(before[k], exited) else before[k])
      {
        r, known := StopStep(ids, i, exited, r, known, before);
        i := i + 1;
      }
      assert ids[..i] == ids;
    }

    /**
     * `get_agent_sessions`: the report of every known session listed for the agent, in
     * list order; each of those sessions is refreshed on the way.
     */
    method GetAgentSessions(agentId: int, exited: map<int, int>, now: int) returns (r: seq<SessionReport>)
      requires Valid()
      modifies sessions.Values
      ensures agentId !in agentSessions ==> r == []
      ensures agentId in agentSessions ==>
        |r| == |KnownIds(agentSessions[agentId], sessions)| &&
        forall j :: 0 <= j < |r| ==>
          r[j] == sessions[KnownIds(agentSessions[agentId], sessions)[j]].Report(
                    RefreshView(old(sessions[KnownIds(agentSessions[agentId], sessions)[j]].View()), exited), now)
      ensures forall k :: k in sessions ==>
        sessions[k].View() ==
          (if agentId in agentSessions && k in agentSessions[agentId] then RefreshView(old(sessions[k].View()), exited)
           else old(sessions[k].View()))
    {
      if agentId !in agentSessions {
        return [];
      }
      ghost var before := map k | k in sessions :: sessions[k].View();
      r := RefreshListed(agentSessions[agentId], exited, now, before);
    }

    /** `stop_session`: an unknown id is an error and changes nothing. */
    method StopSession(sessionId: string, exited: map<int, int>) returns (r: Result<StopReply, string>)
      requires Valid()
      modifies if sessionId in sessions then {sessions[sessionId]} else {}
      ensures sessionId !in sessions ==> r == Err(NotFoundText(sessionId))
      ensures sessionId in sessions ==>
        sessions[sessionId].View() == StopView(old(sessions[sessionId].View()), exited) &&
        r == Ok(StopReply(sessionId, sessions[sessionId].View().status))
    {
      if sessionId !in sessions {
        return Err(NotFoundText(sessionId));
      }
      var reply := sessions[sessionId].Stop(exited);
      r := Ok(reply);
    }

    /** `stop_agent_sessions`: every known session listed for the agent is stopped, in list order. */
    method StopAgentSessions(agentId: int, exited: map<int, int>) returns (r: seq<StopReply>)
      requires Valid()
      modifies sessions.Values
      ensures agentId !in agentSessions ==> r == []
      ensures agentId in agentSessions ==>
        |r| == |KnownIds(agentSessions[agentId], sessions)| &&
        forall j :: 0 <= j < |r| ==>
          r[j] == StopReply(KnownIds(agentSessions[agentId], sessions)[j],
                            StopView(old(sessions[KnownIds(agentSessions[agentId], sessions)[j]].View()), exited).status)
      ensures forall k :: k in sessions ==>
        sessions[k].View() ==
          (if agentId in agentSessions && k in agentSessions[agentId] then StopView(old(sessions[k].View()), exited)
           else old(sessions[k].View()))
    {
      if agentId !in agentSessions {
        return [];
      }
      ghost var before := map k | k in sessions :: sessions[k].View();
      r := StopListed(agentSessions[agentId], exited, before);
    }

    /** `transfer_control`: an unknown id and an invalid mode are errors that change nothing. */
    method TransferControl(sessionId: string, mode: string, now: int) returns (r: Result<TransferReply, string>)
      requires Valid()
      modifies if sessionId in sessions then {sessions[sessionId]} else {}
      ensures sessionId !in sessions ==> r == Err(NotFoundText(sessionId))
      ensures sessionId in sessions ==>
        sessions[sessionId].View() == TransferView(old(sessions[sessionId].View()), mode, now) &&
        r == (if ValidMode(mode) then Ok(TransferReply(sessionId, mode, sessions[sessionId].View().status))
              else Err(InvalidModeText))
    {
      if sessionId !in sessions {
        return Err(NotFoundText(sessionId));
      }
      r := sessions[sessionId].TransferControl(mode, now);
    }
  }
}
