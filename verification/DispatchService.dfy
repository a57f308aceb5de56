/** The mutable drop_server object. Each method performs one locked operation and
    is proved to change the fields exactly as the corresponding step function says. */
module DispatchService {
  import opened Text
  import opened DispatchServer
  import WindowId

  lemma {:induction false} ErasedPrefix(q: seq<TaskDesc>, i: nat, id: TaskId)
    requires i < |q| && q[i].taskId == id
    ensures Without(q[..i] + q[i + 1..], {id}) == Without(q, {id})
  {
    assert q == q[..i] + q[i..] && q[i..] == [q[i]] + q[i + 1..];
    WithoutAppend(q[..i], q[i..], {id});
    WithoutAppend(q[..i], q[i + 1..], {id});
  }

  lemma KeptPrefix(q: seq<TaskDesc>, i: nat, id: TaskId)
    requires i < |q| && q[i].taskId != id
    requires Without(q[..i], {id}) == q[..i]
    ensures Without(q[..i + 1], {id}) == q[..i + 1]
  {
    assert q[..i + 1] == q[..i] + [q[i]];
    WithoutAppend(q[..i], [q[i]], {id});
  }

  /** Erase-while-iterating over one queue. */
  method EraseById(q: seq<TaskDesc>, id: TaskId) returns (r: seq<TaskDesc>)
    ensures r == Without(q, {id})
  {
    r := q;
    var i := 0;
    while i < |r|
      invariant 0 <= i <= |r|
      invariant Without(r, {id}) == Without(q, {id})
      invariant Without(r[..i], {id}) == r[..i]
      decreases |r| - i
    {
      if r[i].taskId == id {
        ErasedPrefix(r, i, id);
        assert (r[..i] + r[i + 1..])[..i] == r[..i];
        r := r[..i] + r[i + 1..];
      } else {
        KeptPrefix(r, i, id);
        i := i + 1;
      }
    }
    assert r[..i] == r;
  }

  class HotmethodService {
    var tasks: map<Ip, seq<TaskDesc>>
    var results: map<TaskId, TaskResult>
    var tasksState: map<TaskId, TaskState>
    var continuousTasks: map<TaskId, ContinuousConfig>
    var continuousWindows: map<TaskId, seq<WindowRecord>>

    ghost function State(): ServerState reads this {
      ServerState(tasks, results, tasksState, continuousTasks, continuousWindows)
    }

    ghost predicate Valid() reads this { QueuesBounded(tasks) }

    constructor ()
      ensures Valid() && State() == EMPTY_SERVER
    {
      tasks, results, tasksState := map[], map[], map[];
      continuousTasks, continuousWindows := map[], map[];
    }

    method UpdateTaskStatus(id: TaskId, status: TaskStatus, reason: string, now: int)
      modifies this`tasksState
      ensures State() == SetStatus(old(State()), id, status, reason, now)
    {
      tasksState := tasksState[id := TaskState(status, reason, now)];
    }

    /** Indexing creates the queue on first use; a full queue refuses the task. */
    method Append(ip: Ip, task: TaskDesc, reason: string, now: int) returns (ok: bool)
      requires Valid()
      modifies this`tasks, this`tasksState
      ensures Valid()
      ensures (State(), ok) == Enqueue(old(State()), ip, task, reason, now)
    {
      if ip !in tasks { tasks := tasks[ip := []]; }
      if |tasks[ip]| >= MAX_TASK_QUEUE_SIZE { return false; }
      tasks := tasks[ip := tasks[ip] + [task]];
      assert tasks == old(tasks)[ip := At(old(tasks), ip) + [task]];
      UpdateTaskStatus(task.taskId, PENDING, reason, now);
      return true;
    }

    method PushTask(ip: Ip, task: TaskDesc, now: int) returns (ok: bool)
      requires Valid()
      modifies this`tasks, this`tasksState
      ensures Valid()
      ensures (State(), ok) == Push(old(State()), ip, task, now)
    {
      ok := Append(ip, task, "任务创建，等待派发", now);
    }

    method PopTask(ip: Ip, now: int) returns (task: Option<TaskDesc>)
      requires Valid()
      modifies this`tasks, this`tasksState
      ensures Valid()
      ensures (State(), task) == Pop(old(State()), ip, now)
    {
      if ip !in tasks || tasks[ip] == [] { return None; }
      var front := tasks[ip][0];
      tasks := tasks[ip := tasks[ip][1..]];
      if tasks[ip] == [] { tasks := tasks - {ip}; }
      assert tasks == if |old(tasks)[ip]| == 1 then old(tasks) - {ip} else old(tasks)[ip := old(tasks)[ip][1..]];
      UpdateTaskStatus(front.taskId, DISPATCHED, "任务已派发给 Agent " + ip, now);
      return Some(front);
    }

    method GetResult(id: TaskId) returns (r: Option<TaskResult>)
      ensures r == if id in State().results then Some(State().results[id]) else None
    {
      r := if id in results then Some(results[id]) else None;
    }

    method GetTaskStatus(id: TaskId) returns (r: Option<TaskState>)
      ensures r == if id in State().states then Some(State().states[id]) else None
    {
      r := if id in tasksState then Some(tasksState[id]) else None;
    }

    /** The UpdateTaskStatus remote call: any status overwrites any other. */
    method ReportStatus(id: TaskId, code: int, reason: string, now: int)
      modifies this`tasksState
      ensures State() == SetStatus(old(State()), id, FromProto(code), reason, now)
    {
      UpdateTaskStatus(id, FromProto(code), reason, now);
    }

    method NotifyResult(r: TaskResult, now: int, wall: int)
      requires Valid()
      modifies this
      ensures Valid()
      ensures State() == Notify(old(State()), r, now, wall)
    {
      if r.errorMessage == "" {
        UpdateTaskStatus(r.taskId, DONE, "采集完成", now);
      } else {
        UpdateTaskStatus(r.taskId, FAILED, "采集失败: " + r.errorMessage, now);
      }
      results := results[r.taskId := r];
      var wpos := LastIndex(r.taskId, WindowId.MARK);
      if wpos <= 0 { return; }
      var parent := r.taskId[..wpos];
      if parent !in continuousTasks { return; }
      RecordWindow(parent, r, now, wall);
    }

    method RecordWindow(parent: TaskId, r: TaskResult, now: int, wall: int)
      requires Valid() && WindowId.ParentOf(r.taskId) == Some(parent) && parent in continuousTasks
      modifies this`continuousWindows, this`tasks, this`tasksState
      ensures Valid()
      ensures State() == AdvanceWindows(old(State()), parent, r, now, wall)
    {
      var c := continuousTasks[parent];
      var seqNo := WindowId.SeqOf(r.taskId);
      var status := if r.errorMessage == "" then 1 else 2;
      var info := WindowRecord(r.taskId, seqNo, wall - c.windowSec, wall, status, r.cosKey);
      var recorded := if parent in continuousWindows then continuousWindows[parent] else [];
      continuousWindows := continuousWindows[parent := recorded + [info]];
      if !c.running { return; }
      var next := WindowTask(c.(parentTid := parent), WrapInt32(seqNo + 1));
      var _ := Append(c.targetIp, next, NEXT_WINDOW_REASON, now);
    }

    /** Erase one task from every queue, dropping queues that become empty. */
    method EraseFromQueues(id: TaskId)
      modifies this`tasks
      ensures tasks == WithoutTasks(old(tasks), {id})
    {
      var todo := tasks.Keys;
      while todo != {}
        invariant todo <= old(tasks).Keys && tasks.Keys <= old(tasks).Keys
        invariant forall ip :: ip in todo ==> ip in tasks && tasks[ip] == old(tasks)[ip]
        invariant forall ip :: ip in old(tasks) && ip !in todo ==>
          (ip in tasks <==> Without(old(tasks)[ip], {id}) != [])
        invariant forall ip :: ip in tasks && ip !in todo ==> tasks[ip] == Without(old(tasks)[ip], {id})
        decreases todo
      {
        var ip :| ip in todo;
        var q := EraseById(tasks[ip], id);
        tasks := if q == [] then tasks - {ip} else tasks[ip := q];
        todo := todo - {ip};
      }
      assert tasks.Keys == WithoutTasks(old(tasks), {id}).Keys;
    }

    /** First loop of the cleanup: fail the overdue waiting tasks, in any order. */
    method FailOverdue(timeoutSec: int, now: int)
      requires Valid()
      modifies this`tasks, this`tasksState
      ensures tasksState == FailAll(old(tasksState), Expired(old(tasksState), timeoutSec, now), now)
      ensures tasks == WithoutTasks(old(tasks), Expired(old(tasksState), timeoutSec, now))
    {
      ghost var expired := Expired(tasksState, timeoutSec, now);
      var todo := tasksState.Keys;
      ghost var failed := {};
      WithoutTasksNothing(tasks);
      assert tasksState == FailAll(old(tasksState), failed, now);
      while todo != {}
        invariant todo <= old(tasksState).Keys
        invariant failed == expired - todo
        invariant tasksState == FailAll(old(tasksState), failed, now)
        invariant tasks == WithoutTasks(old(tasks), failed)
        decreases todo
      {
        var id :| id in todo;
        var state := tasksState[id];
        todo := todo - {id};
        if state.status.Waiting() && Elapsed(now, state.timestamp) > timeoutSec {
          tasksState := tasksState[id := Expire(state, now)];
          EraseFromQueues(id);
          WithoutTasksTwice(old(tasks), failed, {id});
          failed := failed + {id};
        }
      }
      assert failed == expired;
    }

    /** Second loop of the cleanup: forget old finished tasks and their results. */
    method DropStale(now: int)
      modifies this`tasksState, this`results
      ensures tasksState == old(tasksState) - StaleIds(old(tasksState), now)
      ensures results == old(results) - StaleIds(old(tasksState), now)
    {
      ghost var stale := StaleIds(tasksState, now);
      var todo := tasksState.Keys;
      while todo != {}
        invariant todo <= old(tasksState).Keys
        invariant tasksState == old(tasksState) - (stale - todo)
        invariant results == old(results) - (stale - todo)
        decreases todo
      {
        var id :| id in todo;
        var rest := todo - {id};
        assert id in tasksState && tasksState[id] == old(tasksState)[id];
        if tasksState[id].status.Terminal() && Elapsed(now, tasksState[id].timestamp) > TTL_SEC {
          assert stale - rest == stale - todo + {id};
          results := results - {id};
          tasksState := tasksState - {id};
        } else {
          assert stale - rest == stale - todo;
        }
        todo := rest;
      }
      assert stale - todo == stale;
    }

    method CleanupTimeoutTasks(timeoutSec: int, now: int)
      requires Valid()
      modifies this`tasks, this`tasksState, this`results
      ensures Valid()
      ensures State() == Cleanup(old(State()), timeoutSec, now)
    {
      FailOverdue(timeoutSec, now);
      DropStale(now);
    }

    /** Empty when the queue is full. */
    method StartContinuousTask(ip: Ip, pid: int, hz: nat, windowSec: nat, profilerType: nat,
                               callgraph: string, event: string, ticks: nat, now: int)
      returns (parent: string)
      requires Valid()
      modifies this
      ensures Valid()
      ensures var c := NewConfig(ParentTid(ticks), ip, pid, hz, windowSec, profilerType, callgraph, event);
              var (s, ok) := Start(old(State()), c, now);
              State() == s && parent == if ok then ParentTid(ticks) else ""
    {
      parent := ParentTid(ticks);
      var c := NewConfig(parent, ip, pid, hz, windowSec, profilerType, callgraph, event);
      continuousTasks := continuousTasks[parent := c];
      continuousWindows := continuousWindows[parent := []];
      var ok := Append(ip, WindowTask(c, 0), "continuous first window created, waiting dispatch", now);
      if !ok { return ""; }
    }

    method StopContinuousTask(parent: TaskId) returns (ok: bool)
      modifies this`continuousTasks
      ensures (State(), ok) == Stop(old(State()), parent)
    {
      if parent !in continuousTasks { return false; }
      continuousTasks := continuousTasks[parent := continuousTasks[parent].(running := false)];
      return true;
    }
  }
}
