/**
 * The bridge's agent process control. Each agent has a working directory holding
 * up to two marker files: `agent.pid` (the process id written at start) and
 * `agent.paused` (written by pause). Every operation reads those markers, may
 * signal the process, and creates or removes markers; the status report is
 * computed from the markers and from whether the process is still alive.
 *
 * The operating system is a parameter: a spawn either yields a process id or
 * raises, and whether a process id is alive at the time of a call is given as a
 * set. The signals sent are recorded in order.
 */
module ManusBridge {
  import opened Wrappers

  const SIGTERM := 15
  const SIGCONT := 18
  const SIGSTOP := 19

  const NotRunningText := "Agent not running or PID file not found"
  const NotPausedText := "Agent not paused or PID file not found"
  const NoDirectoryText := "Agent directory not found"
  const WasNotRunningText := "Process was not running"
  const NotRunningNowText := "Process not running"
  /** `str(ProcessLookupError)` for a signal to a process that is gone. */
  const NoSuchProcessText := "[Errno 3] No such process"

  datatype BridgeStatus = Running | Stopped | Paused | Error | Unknown

  /** The reply dictionary: its status, the process id when reported, and its error or message text. */
  datatype Reply = Reply(status: BridgeStatus, processId: Option<int>, note: Option<string>)

  /** A signal sent to a process. */
  datatype Signal = Signal(pid: int, signal: int)

  /** The marker files: the agent directories, the `agent.pid` contents, the `agent.paused` markers. */
  datatype Markers = Markers(dirs: set<int>, pids: map<int, int>, paused: set<int>)

  /** Markers live inside their agent's directory. */
  predicate WellFormed(m: Markers) {
    m.pids.Keys <= m.dirs && m.paused <= m.dirs
  }

  /** What an operation leaves on disk, what it replies, and the signals it sends. */
  datatype Outcome = Outcome(markers: Markers, reply: Reply, sent: seq<Signal>)

  // ---------------------------------------------------------------------------
  // The operations on the markers

  /**
   * `start_agent`: the directory is created, and on a successful spawn the pid marker is
   * (re)written with the new process id. The paused marker is never touched.
   */
  function StartStep(m: Markers, id: int, spawn: Result<int, string>): (o: Outcome)
    ensures o.markers.dirs == m.dirs + {id} && o.markers.paused == m.paused && o.sent == []
    ensures spawn.Ok? ==> o.markers.pids == m.pids[id := spawn.value] && o.reply == Reply(Running, Some(spawn.value), None)
    ensures spawn.Err? ==> o.markers.pids == m.pids && o.reply == Reply(Error, None, Some(spawn.error))
  {
    var withDir := m.(dirs := m.dirs + {id});
    match spawn
    case Ok(pid) => Outcome(withDir.(pids := withDir.pids[id := pid]), Reply(Running, Some(pid), None), [])
    case Err(e) => Outcome(withDir, Reply(Error, None, Some(e)), [])
  }

  /**
   * `stop_agent`: without a pid marker, an error and no change. Otherwise only the pid
   * marker goes, and the reply is stopped whether or not the process was still alive.
   */
  function StopStep(m: Markers, id: int, alive: set<int>): (o: Outcome)
    ensures id !in m.pids ==> o == Outcome(m, Reply(Error, None, Some(NotRunningText)), [])
    ensures id in m.pids ==>
      o.markers == m.(pids := m.pids - {id}) && o.reply.status == Stopped &&
      o.sent == (if m.pids[id] in alive then [Signal(m.pids[id], SIGTERM)] else [])
  {
    if id !in m.pids then Outcome(m, Reply(Error, None, Some(NotRunningText)), [])
    else
      var pid := m.pids[id];
      var removed := m.(pids := m.pids - {id});
      if pid in alive then Outcome(removed, Reply(Stopped, None, None), [Signal(pid, SIGTERM)])
      else Outcome(removed, Reply(Stopped, None, Some(WasNotRunningText)), [])
  }

  /**
   * `pause_agent`: needs the pid marker and a live process (a signal to a dead one raises);
   * on success the paused marker is created. A failure changes nothing.
   */
  function PauseStep(m: Markers, id: int, alive: set<int>): (o: Outcome)
    ensures o.reply.status == Paused <==> id in m.pids && m.pids[id] in alive
    ensures o.reply.status == Paused ==>
      o.markers == m.(paused := m.paused + {id}) && o.sent == [Signal(m.pids[id], SIGSTOP)]
    ensures o.reply.status != Paused ==> o.markers == m && o.sent == [] && o.reply.status == Error
    ensures id !in m.pids ==> o.reply.note == Some(NotRunningText)
  {
    if id !in m.pids then Outcome(m, Reply(Error, None, Some(NotRunningText)), [])
    else
      var pid := m.pids[id];
      if pid !in alive then Outcome(m, Reply(Error, None, Some(NoSuchProcessText)), [])
      else Outcome(m.(paused := m.paused + {id}), Reply(Paused, None, None), [Signal(pid, SIGSTOP)])
  }

  /**
   * `resume_agent`: needs both markers and a live process; on success the paused marker
   * is removed and the pid marker kept. A failure changes nothing.
   */
  function ResumeStep(m: Markers, id: int, alive: set<int>): (o: Outcome)
    ensures o.reply.status == Running <==> id in m.pids && id in m.paused && m.pids[id] in alive
    ensures o.reply.status == Running ==>
      o.markers == m.(paused := m.paused - {id}) && o.sent == [Signal(m.pids[id], SIGCONT)]
    ensures o.reply.status != Running ==> o.markers == m && o.sent == [] && o.reply.status == Error
    ensures (id !in m.pids || id !in m.paused) ==> o.reply.note == Some(NotPausedText)
  {
    if id !in m.pids || id !in m.paused then Outcome(m, Reply(Error, None, Some(NotPausedText)), [])
    else
      var pid := m.pids[id];
      if pid !in alive then Outcome(m, Reply(Error, None, Some(NoSuchProcessText)), [])
      else Outcome(m.(paused := m.paused - {id}), Reply(Running, None, None), [Signal(pid, SIGCONT)])
  }

  /**
   * `get_agent_status`: unknown without a directory, stopped without a pid marker;
   * a live process is paused or running by the paused marker; a dead one has both of
   * its markers removed and is reported stopped. Only the probe signal 0 is used,
   * which delivers nothing.
   */
  function StatusStep(m: Markers, id: int, alive: set<int>): (o: Outcome)
    ensures o.sent == []
    ensures id !in m.dirs ==> o.markers == m && o.reply == Reply(Unknown, None, Some(NoDirectoryText))
    ensures id in m.dirs && id !in m.pids ==> o.markers == m && o.reply == Reply(Stopped, None, None)
    ensures id in m.dirs && id in m.pids && m.pids[id] in alive ==>
      o.markers == m && o.reply.processId == Some(m.pids[id]) &&
      o.reply.status == (if id in m.paused then Paused else Running)
    ensures id in m.dirs && id in m.pids && m.pids[id] !in alive ==>
      o.markers == m.(pids := m.pids - {id}, paused := m.paused - {id}) && o.reply.status == Stopped
  {
    if id !in m.dirs then Outcome(m, Reply(Unknown, None, Some(NoDirectoryText)), [])
    else if id !in m.pids then Outcome(m, Reply(Stopped, None, None), [])
    else
      var pid := m.pids[id];
      if pid in alive then
        Outcome(m, Reply(if id in m.paused then Paused else Running, Some(pid), None), [])
      else
        Outcome(m.(pids := m.pids - {id}, paused := m.paused - {id}), Reply(Stopped, None, Some(NotRunningNowText)), [])
  }

  // ---------------------------------------------------------------------------
  // Properties of the protocol

  /** Every operation keeps the markers inside existing directories. */
  lemma StepsKeepWellFormed(m: Markers, id: int, alive: set<int>, spawn: Result<int, string>)
    requires WellFormed(m)
    ensures WellFormed(StartStep(m, id, spawn).markers)
    ensures WellFormed(StopStep(m, id, alive).markers)
    ensures WellFormed(PauseStep(m, id, alive).markers)
    ensures WellFormed(ResumeStep(m, id, alive).markers)
    ensures WellFormed(StatusStep(m, id, alive).markers)
  {
  }

  /**
   * Stop keeps the paused marker, so after pause, stop and a successful start the new
   * process is reported paused although nothing paused it.
   */
  lemma PauseStopStartReportsPaused(m: Markers, id: int, alive: set<int>, later: set<int>, pid: int, now: set<int>)
    requires PauseStep(m, id, alive).reply.status == Paused
    requires pid in now
    ensures StatusStep(StartStep(StopStep(PauseStep(m, id, alive).markers, id, later).markers, id, Ok(pid)).markers, id, now).reply.status == Paused
  {
    var paused := PauseStep(m, id, alive).markers;
    var stopped := StopStep(paused, id, later).markers;
    assert id in stopped.paused;
    var started := StartStep(stopped, id, Ok(pid)).markers;
    assert id in started.dirs && started.pids[id] == pid && id in started.paused;
  }

  /** Pausing and then resuming a live process that was not paused restores the markers. */
  lemma PauseResumeRestores(m: Markers, id: int, alive: set<int>)
    requires id in m.pids && m.pids[id] in alive && id !in m.paused
    ensures ResumeStep(PauseStep(m, id, alive).markers, id, alive).reply.status == Running
    ensures ResumeStep(PauseStep(m, id, alive).markers, id, alive).markers == m
  {
    var p := PauseStep(m, id, alive).markers;
    assert p.paused - {id} == m.paused;
  }

  /** Asking for the status twice with the same live set answers the same and changes nothing more. */
  lemma StatusStable(m: Markers, id: int, alive: set<int>)
    ensures StatusStep(StatusStep(m, id, alive).markers, id, alive).reply.status == StatusStep(m, id, alive).reply.status
    ensures StatusStep(StatusStep(m, id, alive).markers, id, alive).markers == StatusStep(m, id, alive).markers
  {
  }

  /** A status report is running only for a live process without a paused marker. */
  lemma StatusRunningIff(m: Markers, id: int, alive: set<int>)
    ensures StatusStep(m, id, alive).reply.status == Running <==>
      id in m.dirs && id in m.pids && m.pids[id] in alive && id !in m.paused
  {
  }

  // ---------------------------------------------------------------------------
  // The bridge object

  class Bridge {
    /** The agent directories, the pid markers with their contents, the paused markers. */
    var dirs: set<int>
    var pidFiles: map<int, int>
    var pausedFiles: set<int>
    /** The `agent_config.json` written into each agent's directory. */
    var configs: map<int, string>
    /** Every signal sent, in order. */
    var signals: seq<Signal>

    constructor ()
      ensures dirs == {} && pidFiles == map[] && pausedFiles == {} && configs == map[] && signals == []
    {
      dirs, pidFiles, pausedFiles, configs, signals := {}, map[], {}, map[], [];
    }

    function Files(): Markers
      reads this
    {
      Markers(dirs, pidFiles, pausedFiles)
    }

    method StartAgent(id: int, config: string, spawn: Result<int, string>) returns (r: Reply)
      modifies this
      ensures Files() == StartStep(old(Files()), id, spawn).markers
      ensures r == StartStep(old(Files()), id, spawn).reply
      ensures configs == old(configs)[id := config] && signals == old(signals)
    {
      dirs := dirs + {id};
      configs := configs[id := config];
      if spawn.Err? {
        return Reply(Error, None, Some(spawn.error));
      }
      var pid := spawn.value;
      pidFiles := pidFiles[id := pid];
      r := Reply(Running, Some(pid), None);
    }

    method StopAgent(id: int, alive: set<int>) returns (r: Reply)
      modifies this
      ensures Files() == StopStep(old(Files()), id, alive).markers
      ensures r == StopStep(old(Files()), id, alive).reply
      ensures signals == old(signals) + StopStep(old(Files()), id, alive).sent
      ensures configs == old(configs)
    {
      if id !in pidFiles {
        return Reply(Error, None, Some(NotRunningText));
      }
      var pid := pidFiles[id];
      if pid !in alive {
        pidFiles := pidFiles - {id};
        return Reply(Stopped, None, Some(WasNotRunningText));
      }
      signals := signals + [Signal(pid, SIGTERM)];
      pidFiles := pidFiles - {id};
      r := Reply(Stopped, None, None);
    }

    method PauseAgent(id: int, alive: set<int>) returns (r: Reply)
      modifies this
      ensures Files() == PauseStep(old(Files()), id, alive).markers
      ensures r == PauseStep(old(Files()), id, alive).reply
      ensures signals == old(signals) + PauseStep(old(Files()), id, alive).sent
      ensures configs == old(configs)
    {
      if id !in pidFiles {
        return Reply(Error, None, Some(NotRunningText));
      }
      var pid := pidFiles[id];
      if pid !in alive {
        return Reply(Error, None, Some(NoSuchProcessText));
      }
      signals := signals + [Signal(pid, SIGSTOP)];
      pausedFiles := pausedFiles + {id};
      r := Reply(Paused, None, None);
    }

    method ResumeAgent(id: int, alive: set<int>) returns (r: Reply)
      modifies this
      ensures Files() == ResumeStep(old(Files()), id, alive).markers
      ensures r == ResumeStep(old(Files()), id, alive).reply
      ensures signals == old(signals) + ResumeStep(old(Files()), id, alive).sent
      ensures configs == old(configs)
    {
      if id !in pidFiles || id !in pausedFiles {
        return Reply(Error, None, Some(NotPausedText));
      }
      var pid := pidFiles[id];
      if pid !in alive {
        return Reply(Error, None, Some(NoSuchProcessText));
      }
      signals := signals + [Signal(pid, SIGCONT)];
      pausedFiles := pausedFiles - {id};
      r := Reply(Running, None, None);
    }

    method GetAgentStatus(id: int, alive: set<int>) returns (r: Reply)
      modifies this
      ensures Files() == StatusStep(old(Files()), id, alive).markers
      ensures r == StatusStep(old(Files()), id, alive).reply
      ensures signals == old(signals) && configs == old(configs)
    {
      if id !in dirs {
        return Reply(Unknown, None, Some(NoDirectoryText));
      }
      if id !in pidFiles {
        return Reply(Stopped, None, None);
      }
      var pid := pidFiles[id];
      if pid in alive {
        if id in pausedFiles {
          return Reply(Paused, Some(pid), None);
        }
        return Reply(Running, Some(pid), None);
      }
      pidFiles := pidFiles - {id};
      if id in pausedFiles {
        pausedFiles := pausedFiles - {id};
      }
      r := Reply(Stopped, None, Some(NotRunningNowText));
    }
  }
}
