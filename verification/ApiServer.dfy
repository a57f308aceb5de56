/** The apiserver object over its mutable tables: status transitions, the polling
    loop and the window sync, each proved to write what its step function says. */
module ApiServer {
  import opened Text
  import opened TaskDb
  import opened Poller
  import opened WindowSync
  import DispatchServer
  import StatusInfo

  class Server {
    var tasks: map<string, TaskRow>
    var history: seq<Change>
    var windows: seq<WindowRow>
    var started: seq<string>

    ghost function Tables(): Db reads this`tasks, this`history { Db(tasks, history) }

    ghost function State(): SyncState reads this { SyncState(Tables(), windows, started) }

    constructor ()
      ensures State() == SyncState(EMPTY_DB, [], [])
    {
      tasks, history, windows, started := map[], [], [], [];
    }

    method RecordStateChange(tid: string, fromState: int, toState: int, reason: string, changeType: ChangeType)
      modifies this`history
      ensures history == old(history) + [Change(tid, fromState, toState, reason, changeType)]
    {
      history := history + [Change(tid, fromState, toState, reason, changeType)];
    }

    method TransitionTaskStatus(tid: string, toState: int, reason: string, endTime: Option<int>, now: int)
      modifies this`tasks, this`history
      ensures Tables() == Transition(old(Tables()), tid, toState, reason, endTime, now)
    {
      var to := Normalize(toState);
      if tid !in tasks { return; }
      var row := tasks[tid];
      var updated := row.(status := to, statusInfo := reason);
      if endTime.Some? { updated := updated.(endTime := endTime); }
      if to == RUNNING && row.beginTime.None? { updated := updated.(beginTime := Some(now)); }
      var fromState := Normalize(row.status);
      tasks := tasks[tid := updated];
      if fromState != to { RecordStateChange(tid, fromState, to, reason, TaskChange); }
    }

    method EnsureTaskReached(tid: string, state: int, reason: string, now: int)
      modifies this`tasks, this`history
      ensures Tables() == EnsureReached(old(Tables()), tid, state, reason, now)
    {
      if tid !in tasks { return; }
      if Normalize(tasks[tid].status) < Normalize(state) {
        TransitionTaskStatus(tid, Normalize(state), reason, None, now);
      }
    }

    method SyncDropTaskStatus(tid: string, status: int, reason: string, now: int)
      modifies this`tasks, this`history
      ensures Tables() == SyncStatus(old(Tables()), tid, status, reason, now)
    {
      var s := Normalize(status);
      if s == SUCCESS || s == FAILED {
        TransitionTaskStatus(tid, s, reason, Some(now), now);
      } else {
        TransitionTaskStatus(tid, s, reason, None, now);
      }
    }

    method TransitionAnalysisStatus(tid: string, toState: int, reason: string)
      modifies this`tasks, this`history
      ensures Tables() == TransitionAnalysis(old(Tables()), tid, toState, reason)
    {
      if tid !in tasks { return; }
      var row := tasks[tid];
      if row.analysisStatus == toState {
        if reason != "" {
          tasks := tasks[tid := row.(statusInfo := StatusInfo.Merge(row.statusInfo, reason))];
        }
        return;
      }
      tasks := tasks[tid := row.(analysisStatus := toState, statusInfo := StatusInfo.Merge(row.statusInfo, reason))];
      RecordStateChange(tid, row.analysisStatus, toState, reason, AnalysisChange);
    }

    /** The result branch of the poll loop. */
    method StoreResult(tid: string, resp: FetchResponse, storage: Storage, now: int)
      modifies this`tasks, this`history
      ensures Tables() == StoreFetched(old(Tables()), tid, resp, storage, now)
    {
      var artefact := PersistResult(tid, resp, storage);
      EnsureTaskReached(tid, RUNNING, "collector ran before result was fetched", now);
      if artefact.Missing? {
        TransitionTaskStatus(tid, FAILED, artefact.error, Some(now), now);
        return;
      }
      EnsureTaskReached(tid, UPLOADING, "collector uploaded result", now);
      TransitionTaskStatus(tid, SUCCESS, "collector result ready" + ": " + artefact.key, Some(now), now);
      assert "collector result ready" + ": " == StatusInfo.MARKER;
    }

    method PollOnce(tid: string, turn: Turn) returns (exits: bool)
      modifies this`tasks, this`history
      ensures (Tables(), exits) == Handle(old(Tables()), tid, turn)
    {
      match turn
      case Cancelled(error, now) =>
        TransitionTaskStatus(tid, FAILED, "cancelled: " + error, Some(now), now);
        return true;
      case DeadlinePassed(now) =>
        TransitionTaskStatus(tid, FAILED, "timeout waiting for drop_server result", Some(now), now);
        return true;
      case FetchFailed =>
        return false;
      case Fetched(resp, storage, now) =>
        var polled := ParseStatus(resp.message);
        if polled.Some? {
          SyncDropTaskStatus(tid, polled.value.status, polled.value.reason, now);
          if polled.value.status == SUCCESS || polled.value.status == FAILED { return true; }
        }
        if resp.code == 0 {
          StoreResult(tid, resp, storage, now);
          return true;
        }
        if polled.None? && resp.message != "" && resp.message != NOT_FOUND {
          EnsureTaskReached(tid, RUNNING, "collector started before failure", now);
          TransitionTaskStatus(tid, FAILED, resp.message, Some(now), now);
          return true;
        }
        return false;
    }

    /** The poll loop over the turns it gets to see; without a connection to
        drop_server it returns at once and writes nothing. */
    method WaitTaskResult(connected: bool, tid: string, turns: seq<Turn>) returns (exited: bool)
      modifies this`tasks, this`history
      ensures !connected ==> Tables() == old(Tables()) && exited
      ensures connected ==> (Tables(), exited) == HandleAll(old(Tables()), tid, turns)
      ensures connected && exited && tid in old(tasks) ==> tid in tasks && Finished(tasks[tid].status)
    {
      if !connected { return true; }
      ghost var all := HandleAll(Tables(), tid, turns);
      if tid in tasks { ExitLeavesFinished(Tables(), tid, turns, []); }
      var i := 0;
      while i < |turns|
        invariant 0 <= i <= |turns|
        invariant HandleAll(Tables(), tid, turns[i..]) == all
      {
        assert turns[i..][1..] == turns[i + 1..];
        var exits := PollOnce(tid, turns[i]);
        if exits { return true; }
        i := i + 1;
      }
      return false;
    }

    method EnsureContinuousWindowTask(w: DispatchServer.WindowRecord) returns (child: Option<TaskRow>, created: bool)
      modifies this`tasks, this`history
      ensures Tables() == EnsureChild(old(Tables()), w)
      ensures child.Some? <==> HasChild(w)
      ensures child.Some? ==> w.windowTid in tasks && child.value == tasks[w.windowTid]
      ensures created <==> HasChild(w) && w.windowTid !in old(tasks)
    {
      if w.windowTid == "" || (w.status != 1 && w.status != 2) { return None, false; }
      var failed := w.status == 2;
      var status, info := WindowStatus(failed), WindowInfo(failed);
      if w.windowTid !in tasks {
        tasks := tasks[w.windowTid := TaskRow(status, ANALYSIS_PENDING, info, Some(w.startTime), Some(w.endTime))];
        RecordStateChange(w.windowTid, -1, status, info, TaskChange);
        return Some(tasks[w.windowTid]), true;
      }
      var row := tasks[w.windowTid];
      var updated := row.(status := status, statusInfo := info);
      if row.beginTime.None? { updated := updated.(beginTime := Some(w.startTime)); }
      if w.endTime > 0 || row.endTime.None? { updated := updated.(endTime := Some(w.endTime)); }
      tasks := tasks[w.windowTid := updated];
      if row.status != status { RecordStateChange(w.windowTid, row.status, status, info, TaskChange); }
      return Some(updated), false;
    }

    method SyncWindow(parent: string, w: DispatchServer.WindowRecord, configured: bool)
      modifies this
      ensures State() == SyncOne(old(State()), parent, w, configured)
    {
      var previousStatus, windowCreated := -1, false;
      var i := Find(windows, w.windowTid);
      if i < 0 {
        windows := windows + [WindowRow(parent, w.windowTid, w.seqNo, w.startTime, w.endTime, w.status, w.cosKey)];
        windowCreated := true;
      } else {
        previousStatus := windows[i].status;
        var row := windows[i].(status := w.status);
        if w.cosKey != "" { row := row.(cosKey := w.cosKey); }
        if w.endTime > 0 { row := row.(endTime := w.endTime); }
        windows := windows[i := row];
      }
      var child, childCreated := EnsureContinuousWindowTask(w);
      if child.Some? && w.status == 1 && w.cosKey != "" &&
         (childCreated || windowCreated || previousStatus != 1) {
        if child.value.analysisStatus == ANALYSIS_PENDING && configured {
          started := started + [w.windowTid];
        }
      }
    }

    /** One sync of the windows drop_server lists for a parent. */
    method SyncContinuousWindows(parent: string, ws: seq<DispatchServer.WindowRecord>, configured: bool)
      modifies this
      ensures State() == SyncAll(old(State()), parent, ws, configured)
    {
      var i := 0;
      assert ws[..0] == [];
      while i < |ws|
        invariant 0 <= i <= |ws|
        invariant State() == SyncAll(old(State()), parent, ws[..i], configured)
      {
        assert ws[..i + 1][..i] == ws[..i];
        SyncWindow(parent, ws[i], configured);
        i := i + 1;
      }
      assert ws[..i] == ws;
    }
  }
}
