/** What the dispatch protocol guarantees over whole runs. */
module DispatchTheorems {
  import opened Text
  import opened DispatchServer
  import opened DispatchSystem
  import opened DispatchSafety
  import WindowId

  // ---------- history only grows ----------

  /** Acceptances are never revised, logs are only appended to, and no unfinished
      status shown to pollers ever falls back. */
  ghost predicate Extends(s: System, s': System) {
    && (forall id :: id in s.accepted ==> id in s'.accepted && s'.accepted[id] == s.accepted[id])
    && (forall id :: id in s.progress ==> id in s'.progress && s.progress[id] <= s'.progress[id])
    && (forall ip :: At(s.dispatched, ip) <= At(s'.dispatched, ip) && At(s.executed, ip) <= At(s'.executed, ip))
    && s.overdue <= s'.overdue && s.reported <= s'.reported
    && (forall p :: p in s.stoppedAt ==> p in s'.stoppedAt && s'.stoppedAt[p] == s.stoppedAt[p])
    && (forall p :: p in s.server.continuous ==>
          p in s'.server.continuous && At(s.server.windows, p) <= At(s'.server.windows, p))
  }

  lemma ExtendsTransitive(a: System, b: System, c: System)
    requires Extends(a, b) && Extends(b, c)
    ensures Extends(a, c)
  {
  }

  lemma AcceptExtends(s: System, ip: Ip, task: TaskDesc, reason: string, now: int)
    requires s.progress.Keys == s.accepted.Keys && task.taskId !in s.accepted
    ensures Extends(s, Accept(s, ip, task, reason, now))
  {
  }

  lemma SettleExtends(s: System, r: TaskResult, now: int, wall: int)
    ensures Extends(s, Settle(s, r, now, wall))
    ensures Settle(s, r, now, wall).accepted == s.accepted && Settle(s, r, now, wall).progress == s.progress
  {
  }

  lemma DeliverExtends(s: System, r: TaskResult, now: int, wall: int)
    requires Inv(s) && Free(s, r.taskId) && RoomForNext(s, r)
    ensures Extends(s, Deliver(s, r, now, wall))
  {
    SettleExtends(s, r, now, wall);
    if Chains(s, r) {
      var p := WindowId.ParentOf(r.taskId).value;
      NextWindowAcceptable(s, r, now, wall);
      AcceptExtends(Settle(s, r, now, wall), s.server.continuous[p].targetIp,
                    NextWindow(s.server, p, r), NEXT_WINDOW_REASON, now);
      ExtendsTransitive(s, Settle(s, r, now, wall), Deliver(s, r, now, wall));
    }
  }

  lemma ReportExtends(s: System, step: Step)
    requires Inv(s) && step.Report? && Enabled(s, step)
    ensures Extends(s, Next(s, step))
  {
    assert AgentProgress(s, step.ip);
  }

  lemma ResultExtends(s: System, step: Step)
    requires Inv(s) && (step.Finish? || step.Cancel?) && Enabled(s, step)
    ensures Extends(s, Next(s, step))
  {
    var s1 := Released(s, step);
    ResultKeepsInv(s, step);
    DeliverExtends(s1, step.result, step.now, step.wall);
    assert Extends(s, s1);
    ExtendsTransitive(s, s1, Next(s, step));
  }

  lemma RegisterExtends(s: System, c: ContinuousConfig)
    requires c.parentTid !in s.server.continuous
    ensures Extends(s, Register(s, c))
  {
  }

  lemma StartExtends(s: System, step: Step)
    requires WindowsChain(s) && s.progress.Keys == s.accepted.Keys && step.Start? && Enabled(s, step)
    ensures Extends(s, Next(s, step))
  {
    var p := ParentTid(step.ticks);
    var c := NewConfig(p, step.ip, step.pid, step.hz, step.windowSec, step.profilerType, step.callgraph, step.event);
    FirstWindowFresh(s, p);
    RegisterExtends(s, c);
    AcceptExtends(Register(s, c), step.ip, WindowTask(c, 0), "continuous first window created, waiting dispatch", step.now);
    ExtendsTransitive(s, Register(s, c), Next(s, step));
  }

  lemma StopExtends(s: System, parent: TaskId)
    requires StopHolds(s)
    ensures Extends(s, Next(s, Step.Stop(parent)))
  {
    if parent in s.stoppedAt { assert StoppedParent(s, parent); }
  }

  lemma HeartbeatExtends(s: System, ip: Ip, now: int)
    ensures Extends(s, Dispatch(s, ip, now))
  {
    if At(s.server.queues, ip) != [] {
      DispatchMoves(s, ip, now);
      forall other ensures At(s.dispatched, other) <= At(Dispatch(s, ip, now).dispatched, other) {}
    }
  }

  lemma BeginExtends(s: System, ip: Ip)
    requires Enabled(s, Begin(ip))
    ensures Extends(s, Next(s, Begin(ip)))
  {
  }

  lemma AgentExtends(s: System, ip: Ip, a: Agent)
    ensures Extends(s, WithAgent(s, ip, a))
  {
  }

  lemma CleanupExtends(s: System, timeoutSec: int, now: int)
    ensures Extends(s, Next(s, Step.Cleanup(timeoutSec, now)))
  {
  }

  lemma NextExtends(s: System, step: Step)
    requires Inv(s) && Enabled(s, step)
    ensures Extends(s, Next(s, step))
  {
    match step
    case Push(ip, task, now) => AcceptExtends(s, ip, task, "任务创建，等待派发", now);
    case Report(_, _, _, _) => ReportExtends(s, step);
    case Finish(_, _, _, _) => ResultExtends(s, step);
    case Cancel(_, _, _, _) => ResultExtends(s, step);
    case Start(_, _, _, _, _, _, _, _, _) => StartExtends(s, step);
    case Stop(p) => StopExtends(s, p);
    case Heartbeat(ip, now) => HeartbeatExtends(s, ip, now);
    case Begin(ip) => BeginExtends(s, ip);
    case Cleanup(timeoutSec, now) => CleanupExtends(s, timeoutSec, now);
    case Receive(ip) => AgentExtends(s, ip, AgentAt(Next(s, step), ip));
    case LoseReply(ip) => AgentExtends(s, ip, AgentAt(Next(s, step), ip));
    case Abandon(ip) => AgentExtends(s, ip, AgentAt(Next(s, step), ip));
    case Crash(ip) => AgentExtends(s, ip, AgentAt(Next(s, step), ip));
  }

  lemma {:induction false} RunExtends(trace: seq<System>, steps: seq<Step>, i: nat, j: nat)
    requires Run(trace, steps) && i <= j < |trace|
    ensures Extends(trace[i], trace[j])
    decreases j
  {
    if i < j {
      RunExtends(trace, steps, i, j - 1);
      RunKeepsInv(trace, steps, j - 1);
      assert StepAt(trace, steps, j - 1);
      NextExtends(trace[j - 1], steps[j - 1]);
      ExtendsTransitive(trace[i], trace[j - 1], trace[j]);
    }
  }

  // ---------- dispatch and execution ----------

  /** In a state in order: a dispatched task was accepted for the agent it went to, tasks
      went to each agent in the order they were accepted, and none went out twice. */
  lemma DispatchedOnceIn(s: System, ip: Ip, i: nat, ip': Ip, j: nat)
    requires ServerFifo(s) && i < |At(s.dispatched, ip)| && j < |At(s.dispatched, ip')|
    ensures var a, b := At(s.dispatched, ip)[i], At(s.dispatched, ip')[j];
      && a in s.accepted && s.accepted[a].ip == ip
      && (a == b ==> ip == ip' && i == j)
      && (ip == ip' && i < j ==> b in s.accepted && s.accepted[a].ticket < s.accepted[b].ticket)
  {
    LogIsOrdered(s, ip, i);
    LogIsOrdered(s, ip', j);
  }

  /** The same of execution: at most once, where it was dispatched to, in order. */
  lemma ExecutedOnceIn(s: System, ip: Ip, i: nat, ip': Ip, j: nat)
    requires AgentFifo(s) && i < |At(s.executed, ip)| && j < |At(s.executed, ip')|
    ensures var a, b := At(s.executed, ip)[i], At(s.executed, ip')[j];
      && a in At(s.dispatched, ip)
      && (a == b ==> ip == ip' && i == j)
      && (ip == ip' && i < j ==> a in s.accepted && b in s.accepted && s.accepted[a].ticket < s.accepted[b].ticket)
  {
    assert AgentFifoAt(s, ip) && AgentFifoAt(s, ip');
    var e, e' := At(s.executed, ip), At(s.executed, ip');
    assert forall n :: 0 <= n < |e| ==> (e + Backlog(AgentAt(s, ip)))[n] == e[n];
    assert forall n :: 0 <= n < |e'| ==> (e' + Backlog(AgentAt(s, ip')))[n] == e'[n];
  }

  /** Over every run: a dispatched task was accepted for the agent it went to, tasks
      go to each agent in the order they were accepted, and none goes out twice. */
  lemma DispatchedInOrderOnce(trace: seq<System>, steps: seq<Step>, k: nat, ip: Ip, i: nat, ip': Ip, j: nat)
    requires Run(trace, steps) && k < |trace|
    requires i < |At(trace[k].dispatched, ip)| && j < |At(trace[k].dispatched, ip')|
    ensures var s := trace[k]; var a, b := At(s.dispatched, ip)[i], At(s.dispatched, ip')[j];
      && a in s.accepted && s.accepted[a].ip == ip
      && (a == b ==> ip == ip' && i == j)
      && (ip == ip' && i < j ==> b in s.accepted && s.accepted[a].ticket < s.accepted[b].ticket)
  {
    RunKeepsInv(trace, steps, k);
    DispatchedOnceIn(trace[k], ip, i, ip', j);
  }

  lemma LogIsOrdered(s: System, ip: Ip, i: nat)
    requires ServerFifo(s) && i < |At(s.dispatched, ip)|
    ensures Ordered(s.accepted, At(s.dispatched, ip), ip)
  {
    assert FifoAt(s, ip);
    var d, q := At(s.dispatched, ip), Ids(At(s.server.queues, ip));
    assert forall k :: 0 <= k < |d| ==> (d + q)[k] == d[k];
  }

  /** Over every run: a task is executed at most once, by the agent it was dispatched
      to, and each agent executes in acceptance order. */
  lemma ExecutedInOrderOnce(trace: seq<System>, steps: seq<Step>, k: nat, ip: Ip, i: nat, ip': Ip, j: nat)
    requires Run(trace, steps) && k < |trace|
    requires i < |At(trace[k].executed, ip)| && j < |At(trace[k].executed, ip')|
    ensures var s := trace[k]; var a, b := At(s.executed, ip)[i], At(s.executed, ip')[j];
      && a in At(s.dispatched, ip)
      && (a == b ==> ip == ip' && i == j)
      && (ip == ip' && i < j ==> a in s.accepted && b in s.accepted && s.accepted[a].ticket < s.accepted[b].ticket)
  {
    RunKeepsInv(trace, steps, k);
    ExecutedOnceIn(trace[k], ip, i, ip', j);
  }

  /** A task that cleanup fails while it is still queued is never dispatched, held or
      executed afterwards, by any agent. */
  lemma OverdueNeverRuns(trace: seq<System>, steps: seq<Step>, i: nat, j: nat, id: TaskId, ip: Ip)
    requires Run(trace, steps) && i < j < |trace| && steps[i].Cleanup?
    requires id in trace[i].server.states && trace[i].server.states[id].status.PENDING?
    requires steps[i].now - trace[i].server.states[id].timestamp >= Deadline(steps[i].timeoutSec)
    ensures id !in At(trace[j].dispatched, ip) && id !in At(trace[j].executed, ip)
    ensures !Holds(AgentAt(trace[j], ip), id) && !Queued(trace[j], id)
  {
    RunKeepsInv(trace, steps, j);
    RunExtends(trace, steps, i + 1, j);
    assert StepAt(trace, steps, i);
    ElapsedReaches(steps[i].now, trace[i].server.states[id].timestamp, steps[i].timeoutSec);
    var s := trace[j];
    assert id in s.overdue;
    if id in At(s.dispatched, ip) { DispatchedNotQueued(s, ip, id); }
    assert AgentFifoAt(s, ip);
  }

  /** In every reachable state a task is in some queue exactly when its status is
      PENDING, queues hold 1 to 100 tasks, and every cached result has a status. */
  lemma QueuedExactlyWhenPending(trace: seq<System>, steps: seq<Step>, k: nat, id: TaskId)
    requires Run(trace, steps) && k < |trace|
    ensures var v := trace[k].server;
      && (id in v.states && v.states[id].status.PENDING? <==> exists ip :: id in Ids(At(v.queues, ip)))
      && (forall ip :: ip in v.queues ==> 1 <= |v.queues[ip]| <= 100) && v.results.Keys <= v.states.Keys
  {
    RunKeepsInv(trace, steps, k);
    var s := trace[k];
    assert PlaceOf(s, id);
    if ip :| id in Ids(At(s.server.queues, ip)) {
      var i :| 0 <= i < |At(s.server.queues, ip)| && Ids(At(s.server.queues, ip))[i] == id;
      QueuedAt(s, ip, i);
    }
  }

  /** Whatever a poller misses, two unfinished statuses it sees never go down. */
  lemma UnfinishedStatusNeverFalls(trace: seq<System>, steps: seq<Step>, i: nat, j: nat, id: TaskId)
    requires Run(trace, steps) && i <= j < |trace|
    requires id in trace[i].server.states && !trace[i].server.states[id].status.Terminal()
    requires id in trace[j].server.states && !trace[j].server.states[id].status.Terminal()
    ensures PublicCode(trace[i].server.states[id].status) <= PublicCode(trace[j].server.states[id].status)
  {
    RunKeepsInv(trace, steps, i);
    RunKeepsInv(trace, steps, j);
    RunExtends(trace, steps, i, j);
    assert StatusShown(trace[i], id) && StatusShown(trace[j], id);
  }

  // ---------- continuous profiling ----------

  /** In every reachable state a parent's records are its windows 0, 1, ..., n-1 in
      order, and a window of it that is accepted but not yet reported is number n,
      so at most one is outstanding. */
  lemma WindowsAreConsecutive(trace: seq<System>, steps: seq<Step>, k: nat, p: TaskId, id: TaskId)
    requires Run(trace, steps) && k < |trace| && p in trace[k].server.continuous
    ensures var s := trace[k]; var w := At(s.server.windows, p);
      && (forall i :: 0 <= i < |w| ==> w[i].seqNo == i && w[i].windowTid == WindowId.Make(p, i))
      && (id in s.accepted && id !in s.reported && WindowId.ParentOf(id) == Some(p) ==>
            id == WindowId.Make(p, |w|))
  {
    RunKeepsInv(trace, steps, k);
    var s := trace[k];
    assert RecordsNumbered(p, At(s.server.windows, p));
    if id in s.accepted && WindowId.ParentOf(id) == Some(p) { assert WindowPlace(s, p, id); }
  }

  /** After a stop at most one more window of the parent is ever recorded. */
  lemma AtMostOneWindowAfterStop(trace: seq<System>, steps: seq<Step>, i: nat, j: nat, p: TaskId)
    requires Run(trace, steps) && i < j < |trace| && steps[i] == Step.Stop(p)
    requires p in trace[i].server.continuous
    ensures |At(trace[j].server.windows, p)| <= |At(trace[i].server.windows, p)| + 1
  {
    RunKeepsInv(trace, steps, j);
    RunExtends(trace, steps, i + 1, j);
    assert StepAt(trace, steps, i);
    StopIsNoted(trace, steps, i, p);
    assert StoppedParent(trace[j], p);
  }

  lemma StopIsNoted(trace: seq<System>, steps: seq<Step>, i: nat, p: TaskId)
    requires Run(trace, steps) && i < |steps| && steps[i] == Step.Stop(p) && p in trace[i].server.continuous
    ensures p in trace[i + 1].stoppedAt && trace[i + 1].stoppedAt[p] <= |At(trace[i].server.windows, p)|
  {
    RunKeepsInv(trace, steps, i);
    assert StepAt(trace, steps, i);
    if p in trace[i].stoppedAt { assert StoppedParent(trace[i], p); }
  }

  // ---------- finished tasks ----------

  /** A DONE task has the fixed reason, and its error-free result is cached. */
  ghost predicate DoneAt(server: ServerState, id: TaskId) {
    id in server.states && server.states[id].status.DONE? ==>
      server.states[id].reason == DONE_REASON && id in server.results && server.results[id].errorMessage == ""
  }

  ghost predicate DoneCached(server: ServerState) { forall id :: DoneAt(server, id) }

  lemma EnqueueKeepsDone(server: ServerState, ip: Ip, task: TaskDesc, reason: string, now: int)
    requires DoneCached(server)
    ensures DoneCached(Enqueue(server, ip, task, reason, now).0)
  {
    forall id ensures DoneAt(Enqueue(server, ip, task, reason, now).0, id) { assert DoneAt(server, id); }
  }

  lemma NotifyKeepsDone(server: ServerState, r: TaskResult, now: int, wall: int)
    requires DoneCached(server)
    ensures DoneCached(Notify(server, r, now, wall))
  {
    var s1 := StoreResult(server, r, now);
    forall id ensures DoneAt(s1, id) { assert DoneAt(server, id); }
    var parent := WindowId.ParentOf(r.taskId);
    if parent.Some? && parent.value in s1.continuous {
      var p := parent.value;
      var s2 := RecordWindow(s1, p, r, wall);
      forall id ensures DoneAt(s2, id) { assert DoneAt(s1, id); }
      EnqueueKeepsDone(s2, s1.continuous[p].targetIp, NextWindow(s1, p, r), NEXT_WINDOW_REASON, now);
    }
  }

  lemma StatusKeepsDone(server: ServerState, id: TaskId, status: TaskStatus, reason: string, now: int)
    requires DoneCached(server) && !status.DONE?
    ensures DoneCached(SetStatus(server, id, status, reason, now))
  {
    forall x ensures DoneAt(SetStatus(server, id, status, reason, now), x) { assert DoneAt(server, x); }
  }

  lemma PopKeepsDone(server: ServerState, ip: Ip, now: int)
    requires DoneCached(server)
    ensures DoneCached(Pop(server, ip, now).0)
  {
    forall id ensures DoneAt(Pop(server, ip, now).0, id) { assert DoneAt(server, id); }
  }

  lemma CleanupKeepsDone(server: ServerState, timeoutSec: int, now: int)
    requires DoneCached(server)
    ensures DoneCached(DispatchServer.Cleanup(server, timeoutSec, now))
  {
    forall id ensures DoneAt(DispatchServer.Cleanup(server, timeoutSec, now), id) { assert DoneAt(server, id); }
  }

  /** Every step keeps the results of DONE tasks cached. */
  lemma NextKeepsDone(s: System, step: Step)
    requires DoneCached(s.server) && Enabled(s, step)
    ensures DoneCached(Next(s, step).server)
  {
    NextRunsTheServer(s, step);
    match step
    case Push(ip, task, now) => EnqueueKeepsDone(s.server, ip, task, "任务创建，等待派发", now);
    case Heartbeat(ip, now) => PopKeepsDone(s.server, ip, now);
    case Report(ip, uploading, reason, now) =>
      StatusKeepsDone(s.server, AgentAt(s, ip).current.task.taskId, if uploading then UPLOADING else RUNNING, reason, now);
    case Finish(_, r, now, wall) => NotifyKeepsDone(s.server, r, now, wall);
    case Cancel(_, r, now, wall) => NotifyKeepsDone(s.server, r, now, wall);
    case Cleanup(timeoutSec, now) => CleanupKeepsDone(s.server, timeoutSec, now);
    case Start(ticks, ip, pid, hz, windowSec, profilerType, callgraph, event, now) =>
      var c := NewConfig(ParentTid(ticks), ip, pid, hz, windowSec, profilerType, callgraph, event);
      var s1 := Register(s, c).server;
      forall id ensures DoneAt(s1, id) { assert DoneAt(s.server, id); }
      EnqueueKeepsDone(s1, c.targetIp, WindowTask(c, 0), "continuous first window created, waiting dispatch", now);
    case Stop(parent) =>
      forall id ensures DoneAt(Next(s, step).server, id) { assert DoneAt(s.server, id); }
    case _ =>
  }

  lemma {:induction false} DoneIsCached(trace: seq<System>, steps: seq<Step>, k: nat)
    requires Run(trace, steps) && k < |trace|
    ensures DoneCached(trace[k].server)
  {
    if k == 0 {
      forall id ensures DoneAt(INITIAL.server, id) {}
    } else {
      DoneIsCached(trace, steps, k - 1);
      assert StepAt(trace, steps, k - 1);
      NextKeepsDone(trace[k - 1], steps[k - 1]);
    }
  }

  // ---------- reasons ----------

  const CREATION_REASONS :=
    {"任务创建，等待派发", "continuous first window created, waiting dispatch", "continuous window created, waiting dispatch"}

  /** What the reason shown with a status says. A failed task was overdue, or its result is
      cached and the reason names its error; no task is ever shown TIMEOUT. */
  ghost predicate Explained(s: System, id: TaskId) {
    id in s.server.states ==>
      var reason := s.server.states[id].reason;
      match s.server.states[id].status
      case PENDING => reason in CREATION_REASONS
      case DISPATCHED => id in s.accepted && reason == "任务已派发给 Agent " + s.accepted[id].ip
      case DONE => reason == "采集完成"
      case FAILED =>
        || reason in {"任务等待超时，Agent 未拉取或不存在", "任务派发超时，Agent 未开始执行"}
        || (id in s.server.results && s.server.results[id].errorMessage != "" && reason == "采集失败: " + s.server.results[id].errorMessage)
      case TIMEOUT => false
      case _ => true
  }

  ghost predicate AllExplained(s: System) { forall id :: Explained(s, id) }

  /** Nothing that is said of the task has changed. */
  ghost predicate SaidBefore(s: System, s': System, id: TaskId) {
    && id in s.server.states && id in s'.server.states && s'.server.states[id] == s.server.states[id]
    && (id in s.server.results ==> id in s'.server.results && s'.server.results[id] == s.server.results[id])
    && (id in s.accepted ==> id in s'.accepted && s'.accepted[id].ip == s.accepted[id].ip)
  }

  lemma SaidStays(s: System, s': System)
    requires AllExplained(s)
    requires forall id :: id in s'.server.states && !Explained(s', id) ==> SaidBefore(s, s', id)
    ensures AllExplained(s')
  {
    forall id ensures Explained(s', id) { assert Explained(s, id); }
  }

  lemma AcceptExplained(s: System, ip: Ip, task: TaskDesc, reason: string, now: int)
    requires AllExplained(s) && task.taskId !in s.accepted
    requires reason in CREATION_REASONS
    ensures AllExplained(Accept(s, ip, task, reason, now))
  {
    SaidStays(s, Accept(s, ip, task, reason, now));
  }

  lemma SettleExplained(s: System, r: TaskResult, now: int, wall: int)
    requires AllExplained(s)
    ensures AllExplained(Settle(s, r, now, wall))
  {
    SaidStays(s, Settle(s, r, now, wall));
  }

  lemma ResultExplained(s: System, step: Step)
    requires Inv(s) && (step.Finish? || step.Cancel?) && Enabled(s, step) && AllExplained(s)
    ensures AllExplained(Next(s, step))
  {
    var s1, r := Released(s, step), step.result;
    ResultKeepsInv(s, step);
    SaidStays(s, s1);
    SettleExplained(s1, r, step.now, step.wall);
    if Chains(s1, r) {
      var p := WindowId.ParentOf(r.taskId).value;
      NextWindowAcceptable(s1, r, step.now, step.wall);
      AcceptExplained(Settle(s1, r, step.now, step.wall), s1.server.continuous[p].targetIp,
                      NextWindow(s1.server, p, r), NEXT_WINDOW_REASON, step.now);
    }
  }

  lemma HeartbeatExplained(s: System, ip: Ip, now: int)
    requires ServerFifo(s) && AllExplained(s)
    ensures AllExplained(Dispatch(s, ip, now))
  {
    if At(s.server.queues, ip) != [] {
      QueuedAt(s, ip, 0);
      SaidStays(s, Dispatch(s, ip, now));
    }
  }

  lemma StartExplained(s: System, step: Step)
    requires WindowsChain(s) && step.Start? && Enabled(s, step) && AllExplained(s)
    ensures AllExplained(Next(s, step))
  {
    var p := ParentTid(step.ticks);
    var c := NewConfig(p, step.ip, step.pid, step.hz, step.windowSec, step.profilerType, step.callgraph, step.event);
    FirstWindowFresh(s, p);
    SaidStays(s, Register(s, c));
    AcceptExplained(Register(s, c), step.ip, WindowTask(c, 0), "continuous first window created, waiting dispatch", step.now);
  }

  lemma CleanupExplained(s: System, timeoutSec: int, now: int)
    requires AllExplained(s)
    ensures AllExplained(Next(s, Step.Cleanup(timeoutSec, now)))
  {
    SaidStays(s, Next(s, Step.Cleanup(timeoutSec, now)));
  }

  lemma ReportExplained(s: System, step: Step)
    requires step.Report? && Enabled(s, step) && AllExplained(s)
    ensures AllExplained(Next(s, step))
  {
    SaidStays(s, Next(s, step));
  }

  lemma QuietExplained(s: System, s': System)
    requires AllExplained(s) && s'.accepted == s.accepted
    requires s'.server.states == s.server.states && s'.server.results == s.server.results
    ensures AllExplained(s')
  {
    SaidStays(s, s');
  }

  lemma NextExplained(s: System, step: Step)
    requires Inv(s) && Enabled(s, step) && AllExplained(s)
    ensures AllExplained(Next(s, step))
  {
    match step
    case Push(ip, task, now) => AcceptExplained(s, ip, task, "任务创建，等待派发", now);
    case Heartbeat(ip, now) => HeartbeatExplained(s, ip, now);
    case Report(_, _, _, _) => ReportExplained(s, step);
    case Finish(_, _, _, _) => ResultExplained(s, step);
    case Cancel(_, _, _, _) => ResultExplained(s, step);
    case Cleanup(timeoutSec, now) => CleanupExplained(s, timeoutSec, now);
    case Start(_, _, _, _, _, _, _, _, _) => StartExplained(s, step);
    case _ => QuietExplained(s, Next(s, step));
  }

  /** Over every run the reason shown with a status is the one for what happened. */
  lemma {:induction false} EveryStatusExplained(trace: seq<System>, steps: seq<Step>, k: nat)
    requires Run(trace, steps) && k < |trace|
    ensures AllExplained(trace[k])
  {
    if k > 0 {
      EveryStatusExplained(trace, steps, k - 1);
      RunKeepsInv(trace, steps, k - 1);
      assert StepAt(trace, steps, k - 1);
      NextExplained(trace[k - 1], steps[k - 1]);
    }
  }

  // ---------- what repeated and late reports do ----------

  /** The record says what the result says: status 1 if and only if there was no error, else
      2, the artefact's key, and the time from the window's start to its arrival. */
  ghost predicate Describes(rec: WindowRecord, r: TaskResult, wall: int, windowSec: nat) {
    && rec.windowTid == r.taskId && rec.cosKey == r.cosKey
    && (rec.status == 1 <==> r.errorMessage == "") && (rec.status == 2 <==> r.errorMessage != "")
    && rec.endTime == wall && rec.startTime == wall - windowSec
  }

  /** A window's result appends one record that describes it and has the window's number. */
  lemma NotifyRecords(server: ServerState, r: TaskResult, p: TaskId, now: int, wall: int) returns (rec: WindowRecord)
    requires WindowId.ParentOf(r.taskId) == Some(p) && p in server.continuous
    ensures var s' := Notify(server, r, now, wall);
      p in s'.continuous && At(s'.windows, p) == At(server.windows, p) + [rec]
    ensures Describes(rec, r, wall, server.continuous[p].windowSec) && rec.seqNo == WindowId.SeqOf(r.taskId)
  {
    var w := At(Notify(server, r, now, wall).windows, p);
    rec := w[|w| - 1];
  }

  lemma NumberedSnoc(p: TaskId, w: seq<WindowRecord>, rec: WindowRecord)
    requires RecordsNumbered(p, w) && WindowId.ParentOf(rec.windowTid) == Some(p) && rec.seqNo == WindowId.SeqOf(rec.windowTid)
    ensures RecordsNumbered(p, w + [rec]) <==> |w| < WindowId.INT32_MAX && rec.windowTid == WindowId.Make(p, |w|)
  {
    var w' := w + [rec];
    assert w'[|w|] == rec && forall i :: 0 <= i < |w| ==> w'[i] == w[i];
    NumberOfNext(p, |w|, rec);
  }

  lemma NumberOfNext(p: TaskId, n: nat, rec: WindowRecord)
    requires n <= WindowId.INT32_MAX && WindowId.ParentOf(rec.windowTid) == Some(p) && rec.seqNo == WindowId.SeqOf(rec.windowTid)
    ensures rec.windowTid == WindowId.Make(p, n) ==> rec.seqNo == n
  {
    if rec.windowTid == WindowId.Make(p, n) { WindowId.ServerRoundTrip(p, n); }
  }

  lemma NotifyElsewhere(server: ServerState, r: TaskResult, p: TaskId, now: int, wall: int)
    requires WindowId.ParentOf(r.taskId) != Some(p) && p in server.continuous
    ensures var s' := Notify(server, r, now, wall); p in s'.continuous && At(s'.windows, p) == At(server.windows, p)
  {
  }

  /** The result is for another parent, or for the next window of `p`. */
  ghost predicate InSequence(p: TaskId, n: nat, id: TaskId) {
    WindowId.ParentOf(id) == Some(p) ==> n < WindowId.INT32_MAX && id == WindowId.Make(p, n)
  }

  /** A result keeps a parent's records numbered 0, 1, 2, ... if and only if it is for
      another parent or for the parent's next window. */
  lemma NotifyKeepsNumberingExactly(server: ServerState, r: TaskResult, p: TaskId, now: int, wall: int)
    requires p in server.continuous && RecordsNumbered(p, At(server.windows, p))
    ensures RecordsNumbered(p, At(Notify(server, r, now, wall).windows, p)) <==>
      InSequence(p, |At(server.windows, p)|, r.taskId)
  {
    if WindowId.ParentOf(r.taskId) == Some(p) {
      var rec := NotifyRecords(server, r, p, now, wall);
      NumberedSnoc(p, At(server.windows, p), rec);
    } else {
      NotifyElsewhere(server, r, p, now, wall);
    }
  }

  datatype Delivery = Delivery(result: TaskResult, now: int, wall: int)

  /** The server after a sequence of results, delivered in this order. */
  function NotifyAll(server: ServerState, ds: seq<Delivery>): ServerState {
    if ds == [] then server
    else
      var d := ds[|ds| - 1];
      Notify(NotifyAll(server, ds[..|ds| - 1]), d.result, d.now, d.wall)
  }

  /** The windows of `p` among the results delivered. */
  function WindowsOf(p: TaskId, ds: seq<Delivery>): seq<TaskId> {
    if ds == [] then []
    else
      var id, before := ds[|ds| - 1].result.taskId, WindowsOf(p, ds[..|ds| - 1]);
      if WindowId.ParentOf(id) == Some(p) then before + [id] else before
  }

  /** The ids are the windows `n`, `n` + 1, ... of `p`. */
  ghost predicate Consecutive(p: TaskId, n: nat, ids: seq<TaskId>) {
    n + |ids| <= WindowId.INT32_MAX && forall k :: 0 <= k < |ids| ==> ids[k] == WindowId.Make(p, n + k)
  }

  lemma {:induction false} RecordsGrow(server: ServerState, p: TaskId, ds: seq<Delivery>)
    requires p in server.continuous
    ensures var s' := NotifyAll(server, ds);
      p in s'.continuous && |At(s'.windows, p)| == |At(server.windows, p)| + |WindowsOf(p, ds)|
  {
    if ds != [] {
      var n := |ds| - 1;
      RecordsGrow(server, p, ds[..n]);
      NotifyGrows(NotifyAll(server, ds[..n]), ds[n], p);
    }
  }

  lemma NotifyGrows(server: ServerState, d: Delivery, p: TaskId)
    requires p in server.continuous
    ensures var s' := Notify(server, d.result, d.now, d.wall);
      && p in s'.continuous && At(server.windows, p) <= At(s'.windows, p)
      && |At(s'.windows, p)| == |At(server.windows, p)| + (if WindowId.ParentOf(d.result.taskId) == Some(p) then 1 else 0)
      && (RecordsNumbered(p, At(s'.windows, p)) ==> RecordsNumbered(p, At(server.windows, p)))
  {
    if WindowId.ParentOf(d.result.taskId) == Some(p) {
      var rec := NotifyRecords(server, d.result, p, d.now, d.wall);
      NumberedPrefix(p, At(server.windows, p), rec);
    } else {
      NotifyElsewhere(server, d.result, p, d.now, d.wall);
    }
  }

  lemma NumberedPrefix(p: TaskId, w: seq<WindowRecord>, rec: WindowRecord)
    ensures RecordsNumbered(p, w + [rec]) ==> RecordsNumbered(p, w)
  {
    assert forall i :: 0 <= i < |w| ==> (w + [rec])[i] == w[i];
  }

  /** Whatever results are delivered, repeated, late or for several parents mixed: the
      records of a parent with `n` numbered records stay numbered if and only if its
      windows among them are exactly `n`, `n` + 1, ... in this order, each once. */
  lemma {:induction false} NumberingKeptExactly(server: ServerState, p: TaskId, ds: seq<Delivery>)
    requires p in server.continuous && RecordsNumbered(p, At(server.windows, p))
    ensures RecordsNumbered(p, At(NotifyAll(server, ds).windows, p)) <==>
      Consecutive(p, |At(server.windows, p)|, WindowsOf(p, ds))
  {
    if ds != [] {
      var k := |ds| - 1;
      NumberingKeptExactly(server, p, ds[..k]);
      RecordsGrow(server, p, ds[..k]);
      OneMoreDelivery(NotifyAll(server, ds[..k]), p, |At(server.windows, p)|, WindowsOf(p, ds[..k]), ds[k]);
    }
  }

  lemma OneMoreDelivery(mid: ServerState, p: TaskId, n: nat, ids: seq<TaskId>, d: Delivery)
    requires p in mid.continuous && |At(mid.windows, p)| == n + |ids|
    requires RecordsNumbered(p, At(mid.windows, p)) <==> Consecutive(p, n, ids)
    ensures RecordsNumbered(p, At(Notify(mid, d.result, d.now, d.wall).windows, p)) <==>
      Consecutive(p, n, if WindowId.ParentOf(d.result.taskId) == Some(p) then ids + [d.result.taskId] else ids)
  {
    NotifyGrows(mid, d, p);
    if RecordsNumbered(p, At(mid.windows, p)) { NotifyKeepsNumberingExactly(mid, d.result, p, d.now, d.wall); }
    ConsecutiveSnoc(p, n, ids, d.result.taskId);
  }

  lemma ConsecutiveSnoc(p: TaskId, n: nat, ids: seq<TaskId>, id: TaskId)
    ensures Consecutive(p, n, ids + [id]) <==>
      Consecutive(p, n, ids) && n + |ids| < WindowId.INT32_MAX && id == WindowId.Make(p, n + |ids|)
  {
    var all := ids + [id];
    assert all[|ids|] == id && forall k :: 0 <= k < |ids| ==> all[k] == ids[k];
  }

  /** A report that arrives late: a status code, or a result once more. */
  datatype Late = LateStatus(id: TaskId, code: int, reason: string, now: int) | LateResult(delivery: Delivery)

  function Accepted(server: ServerState, e: Late): ServerState {
    match e
    case LateStatus(id, code, reason, now) => SetStatus(server, id, FromProto(code), reason, now)
    case LateResult(d) => Notify(server, d.result, d.now, d.wall)
  }

  /** Delivering `r` puts `id` into a queue, as the window after it. */
  ghost predicate Requeues(server: ServerState, r: TaskResult, id: TaskId) {
    match WindowId.ParentOf(r.taskId)
    case None => false
    case Some(p) =>
      && p in server.continuous && server.continuous[p].running
      && NextWindow(server, p, r).taskId == id
      && |At(server.queues, server.continuous[p].targetIp)| < MAX_TASK_QUEUE_SIZE
  }

  /** A finished task is reopened exactly by a late status for it that is not final, or
      by a result of the window before it, delivered while its parent is running and
      the queue has room. */
  lemma LateReportKeepsFinished(server: ServerState, id: TaskId, e: Late)
    requires id in server.states && server.states[id].status.Terminal()
    ensures id in Accepted(server, e).states
    ensures Accepted(server, e).states[id].status.Terminal() <==>
      match e
      case LateStatus(x, code, _, _) => x == id ==> FromProto(code).Terminal()
      case LateResult(d) => !Requeues(server, d.result, id)
  {
    if e.LateResult? { StatusAfterResult(server, e.delivery, id); }
  }

  lemma StatusAfterResult(server: ServerState, d: Delivery, id: TaskId)
    requires id in server.states
    ensures var states := Notify(server, d.result, d.now, d.wall).states;
      && id in states
      && (Requeues(server, d.result, id) ==> states[id].status.PENDING?)
      && (!Requeues(server, d.result, id) ==>
            if id == d.result.taskId then states[id].status.Terminal() else states[id] == server.states[id])
  {
    var r, s1 := d.result, StoreResult(server, d.result, d.now);
    var parent := WindowId.ParentOf(r.taskId);
    if parent.Some? && parent.value in server.continuous {
      var p := parent.value;
      assert NextWindow(s1, p, r) == NextWindow(server, p, r);
    }
  }

  /** The unfinished status a poller is shown falls exactly by a late status with a lower
      public code, or by a result of the window before it that queues the task again
      after it had started. */
  lemma LateReportLowersExactly(server: ServerState, id: TaskId, e: Late)
    requires id in server.states && !server.states[id].status.Terminal()
    ensures var shown := PublicCode(server.states[id].status);
      && id in Accepted(server, e).states
      && (PublicCode(Accepted(server, e).states[id].status) < shown <==>
            match e
            case LateStatus(x, code, _, _) => x == id && PublicCode(FromProto(code)) < shown
            case LateResult(d) => Requeues(server, d.result, id) && shown > Code(PENDING))
  {
    if e.LateResult? { StatusAfterResult(server, e.delivery, id); }
  }

  /** A server on which the numbering fails: the result of window 0 arrives twice. */
  lemma RepeatBreaksNumbering()
    ensures var rec := WindowRecord(WindowId.Make("p", 0), 0, 0, 0, 1, "");
      var server := EMPTY_SERVER.(continuous := map["p" := ContinuousConfig("p", "a", 1, 99, 60, 0, "", "", false)],
                                  windows := map["p" := [rec]]);
      && RecordsNumbered("p", At(server.windows, "p"))
      && !RecordsNumbered("p", At(Notify(server, TaskResult(WindowId.Make("p", 0), "", "", None), 0, 0).windows, "p"))
  {
    var rec := WindowRecord(WindowId.Make("p", 0), 0, 0, 0, 1, "");
    var server := EMPTY_SERVER.(continuous := map["p" := ContinuousConfig("p", "a", 1, 99, 60, 0, "", "", false)],
                                windows := map["p" := [rec]]);
    WindowId.ParentOfMake("p", 0);
    if WindowId.Make("p", 0) == WindowId.Make("p", 1) { WindowId.MakeInjective("p", 0, "p", 1); }
    NotifyKeepsNumberingExactly(server, TaskResult(WindowId.Make("p", 0), "", "", None), "p", 0, 0);
  }
}
