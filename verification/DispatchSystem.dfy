/** drop_server together with its agents, as a state machine. A run interleaves the
    server's locked operations with what agents and the network do: heartbeats,
    lost or delivered replies, execution, reports, cancellation, crashes.

    What the code takes for granted is stated as `Enabled`: task ids are new, only
    drop_server makes ids of window shape, a parent id is not reused, and an agent
    reports on a task it holds, in order and at most once. */
module DispatchSystem {
  import opened Text
  import opened DispatchServer
  import WindowId

  /** How far the worker got with its current task, by the reports that arrived. */
  datatype Phase = Taken | SaidRunning | SaidUploading

  datatype Current = Idle | Busy(task: TaskDesc, phase: Phase)

  /** `inbox` is a heartbeat reply on its way; `queue` the agent's bounded queue. */
  datatype Agent = Agent(inbox: Option<TaskDesc>, queue: seq<TaskDesc>, current: Current)

  const NEW_AGENT := Agent(None, [], Idle)

  datatype Acceptance = Acceptance(ip: Ip, ticket: nat)

  /** `server` and `agents` are the running system. The rest is history: which tasks
      were accepted, for whom and in what order, what was dispatched to and executed
      by each agent, which tasks were reported on, which ones cleanup failed before
      dispatch, the furthest unfinished status each task showed to pollers, and how
      many windows a parent had when it was stopped. */
  datatype System = System(
    server: ServerState,
    agents: map<Ip, Agent>,
    accepted: map<TaskId, Acceptance>,
    clock: nat,
    dispatched: map<Ip, seq<TaskId>>,
    executed: map<Ip, seq<TaskId>>,
    reported: set<TaskId>,
    overdue: set<TaskId>,
    progress: map<TaskId, int>,
    stoppedAt: map<TaskId, nat>)

  const INITIAL := System(EMPTY_SERVER, map[], map[], 0, map[], map[], {}, {}, map[], map[])

  datatype Step =
    | Push(ip: Ip, task: TaskDesc, now: int)
    | Heartbeat(ip: Ip, now: int)
    | Receive(ip: Ip)
    | LoseReply(ip: Ip)
    | Begin(ip: Ip)
    | Report(ip: Ip, uploading: bool, reason: string, now: int)
    | Finish(ip: Ip, result: TaskResult, now: int, wall: int)
    | Abandon(ip: Ip)
    | Cancel(ip: Ip, result: TaskResult, now: int, wall: int)
    | Crash(ip: Ip)
    | Cleanup(timeoutSec: int, now: int)
    | Start(ticks: nat, ip: Ip, pid: int, hz: nat, windowSec: nat, profilerType: nat,
            callgraph: string, event: string, now: int)
    | Stop(parent: TaskId)

  function AgentAt(s: System, ip: Ip): Agent {
    if ip in s.agents then s.agents[ip] else NEW_AGENT
  }

  function Ids(q: seq<TaskDesc>): (r: seq<TaskId>)
    ensures |r| == |q|
    ensures forall i :: 0 <= i < |q| ==> r[i] == q[i].taskId
  {
    seq(|q|, i requires 0 <= i < |q| => q[i].taskId)
  }

  function InboxIds(a: Agent): seq<TaskId> {
    if a.inbox.Some? then [a.inbox.value.taskId] else []
  }

  /** Tasks an agent was given and has not begun. */
  function Backlog(a: Agent): seq<TaskId> { Ids(a.queue) + InboxIds(a) }

  // ---------- the transitions ----------

  function Accept(s: System, ip: Ip, task: TaskDesc, reason: string, now: int): System {
    var (server, ok) := Enqueue(s.server, ip, task, reason, now);
    if !ok then s
    else s.(server := server,
            accepted := s.accepted[task.taskId := Acceptance(ip, s.clock)],
            clock := s.clock + 1,
            progress := s.progress[task.taskId := Code(PENDING)])
  }

  function Dispatch(s: System, ip: Ip, now: int): System {
    var (server, popped) := Pop(s.server, ip, now);
    if popped.None? then s
    else s.(server := server,
            agents := s.agents[ip := AgentAt(s, ip).(inbox := popped)],
            dispatched := s.dispatched[ip := At(s.dispatched, ip) + [popped.value.taskId]])
  }

  /** Store a result and record the window it completes, if it is one. */
  function Settle(s: System, r: TaskResult, now: int, wall: int): System {
    var stored := StoreResult(s.server, r, now);
    var parent := WindowId.ParentOf(r.taskId);
    var server := if parent.Some? && parent.value in stored.continuous
                  then RecordWindow(stored, parent.value, r, wall) else stored;
    s.(server := server, reported := s.reported + {r.taskId})
  }

  /** The window to queue after `r`, if any. */
  predicate Chains(s: System, r: TaskResult) {
    var parent := WindowId.ParentOf(r.taskId);
    parent.Some? && parent.value in s.server.continuous && s.server.continuous[parent.value].running
  }

  /** NotifyResult with its effect on the history. */
  function Deliver(s: System, r: TaskResult, now: int, wall: int): System {
    var settled := Settle(s, r, now, wall);
    if !Chains(s, r) then settled
    else
      var parent := WindowId.ParentOf(r.taskId).value;
      Accept(settled, s.server.continuous[parent].targetIp, NextWindow(s.server, parent, r), NEXT_WINDOW_REASON, now)
  }

  function Pending(states: map<TaskId, TaskState>, ids: set<TaskId>): set<TaskId> {
    set id | id in ids && id in states && states[id].status.PENDING?
  }

  function WithAgent(s: System, ip: Ip, a: Agent): System { s.(agents := s.agents[ip := a]) }

  predicate Enabled(s: System, step: Step) {
    match step
    case Push(_, task, _) => task.taskId !in s.accepted && WindowId.ParentOf(task.taskId).None?
    case Heartbeat(ip, _) => AgentAt(s, ip).inbox.None?
    case Receive(ip) => AgentAt(s, ip).inbox.Some?
    case LoseReply(ip) => AgentAt(s, ip).inbox.Some?
    case Begin(ip) => AgentAt(s, ip).current.Idle? && AgentAt(s, ip).queue != []
    case Report(ip, uploading, _, _) =>
      var c := AgentAt(s, ip).current;
      c.Busy? && (c.phase.Taken? || (uploading && c.phase.SaidRunning?))
    case Finish(ip, r, _, _) =>
      var c := AgentAt(s, ip).current;
      c.Busy? && c.task.taskId == r.taskId && RoomForNext(s, r)
    case Abandon(ip) => AgentAt(s, ip).current.Busy?
    case Cancel(ip, r, _, _) =>
      var q := AgentAt(s, ip).queue;
      q != [] && q[0].taskId == r.taskId && r.errorMessage != "" && RoomForNext(s, r)
    case Crash(ip) => true
    case Cleanup(_, _) => true
    case Start(ticks, _, _, _, _, _, _, _, _) => ParentTid(ticks) !in s.server.continuous
    case Stop(_) => true
  }

  /** The next window number still fits the 32-bit counter. */
  predicate RoomForNext(s: System, r: TaskResult) {
    var parent := WindowId.ParentOf(r.taskId);
    parent.Some? ==> |At(s.server.windows, parent.value)| < WindowId.INT32_MAX
  }

  function Next(s: System, step: Step): System
    requires Enabled(s, step)
  {
    match step
    case Push(ip, task, now) => Accept(s, ip, task, "任务创建，等待派发", now)
    case Heartbeat(ip, now) => Dispatch(s, ip, now)
    case Receive(ip) =>
      var a := AgentAt(s, ip);
      WithAgent(s, ip, a.(inbox := None, queue := Offer(a.queue, a.inbox.value)))
    case LoseReply(ip) => WithAgent(s, ip, AgentAt(s, ip).(inbox := None))
    case Begin(ip) =>
      var a := AgentAt(s, ip);
      WithAgent(s, ip, a.(queue := a.queue[1..], current := Busy(a.queue[0], Taken)))
        .(executed := s.executed[ip := At(s.executed, ip) + [a.queue[0].taskId]])
    case Report(ip, uploading, reason, now) =>
      var a := AgentAt(s, ip);
      var id := a.current.task.taskId;
      var status := if uploading then UPLOADING else RUNNING;
      var phase := if uploading then SaidUploading else SaidRunning;
      WithAgent(s, ip, a.(current := a.current.(phase := phase)))
        .(server := SetStatus(s.server, id, status, reason, now),
          progress := s.progress[id := Code(status)])
    case Finish(ip, r, now, wall) =>
      Deliver(WithAgent(s, ip, AgentAt(s, ip).(current := Idle)), r, now, wall)
    case Abandon(ip) => WithAgent(s, ip, AgentAt(s, ip).(current := Idle))
    case Cancel(ip, r, now, wall) =>
      var a := AgentAt(s, ip);
      Deliver(WithAgent(s, ip, a.(queue := a.queue[1..])), r, now, wall)
    case Crash(ip) => WithAgent(s, ip, NEW_AGENT)
    case Cleanup(timeoutSec, now) =>
      var expired := Expired(s.server.states, timeoutSec, now);
      s.(server := DispatchServer.Cleanup(s.server, timeoutSec, now),
         overdue := s.overdue + Pending(s.server.states, expired))
    case Start(ticks, ip, pid, hz, windowSec, profilerType, callgraph, event, now) =>
      var c := NewConfig(ParentTid(ticks), ip, pid, hz, windowSec, profilerType, callgraph, event);
      Accept(Register(s, c), ip, WindowTask(c, 0), "continuous first window created, waiting dispatch", now)
    case Stop(parent) =>
      var first := parent in s.server.continuous && s.server.continuous[parent].running;
      s.(server := DispatchServer.Stop(s.server, parent).0,
         stoppedAt := if first then s.stoppedAt[parent := |At(s.server.windows, parent)|] else s.stoppedAt)
  }

  function Register(s: System, c: ContinuousConfig): System {
    s.(server := s.server.(continuous := s.server.continuous[c.parentTid := c],
                           windows := s.server.windows[c.parentTid := []]))
  }

  /** The server component of every transition is the server operation it stands for. */
  lemma NextRunsTheServer(s: System, step: Step)
    requires Enabled(s, step)
    ensures var s' := Next(s, step);
      match step
      case Push(ip, task, now) => s'.server == DispatchServer.Push(s.server, ip, task, now).0
      case Heartbeat(ip, now) => s'.server == Pop(s.server, ip, now).0
      case Report(ip, uploading, reason, now) =>
        s'.server == SetStatus(s.server, AgentAt(s, ip).current.task.taskId,
                               FromProto(if uploading then 3 else 2), reason, now)
      case Finish(ip, r, now, wall) => s'.server == Notify(s.server, r, now, wall)
      case Cancel(ip, r, now, wall) => s'.server == Notify(s.server, r, now, wall)
      case Cleanup(timeoutSec, now) => s'.server == DispatchServer.Cleanup(s.server, timeoutSec, now)
      case Start(ticks, ip, pid, hz, windowSec, profilerType, callgraph, event, now) =>
        s'.server == DispatchServer.Start(s.server,
          NewConfig(ParentTid(ticks), ip, pid, hz, windowSec, profilerType, callgraph, event), now).0
      case Stop(parent) => s'.server == DispatchServer.Stop(s.server, parent).0
      case _ => s'.server == s.server
  {
    match step
    case Finish(ip, r, now, wall) =>
      DeliverIsNotify(WithAgent(s, ip, AgentAt(s, ip).(current := Idle)), r, now, wall);
    case Cancel(ip, r, now, wall) =>
      var a := AgentAt(s, ip);
      DeliverIsNotify(WithAgent(s, ip, a.(queue := a.queue[1..])), r, now, wall);
    case _ =>
  }

  /** What a step does to an agent's queue is what the agent's channel does: a delivered
      task is offered to it, the worker and a shutdown take its front, a crash empties it,
      and nothing else touches it. */
  lemma NextRunsTheChannel(s: System, step: Step, ip: Ip)
    requires Enabled(s, step)
    ensures var queue, queue' := AgentAt(s, ip).queue, AgentAt(Next(s, step), ip).queue;
      match step
      case Receive(at) => queue' == if at == ip then Offer(queue, AgentAt(s, ip).inbox.value) else queue
      case Begin(at) =>
        if at == ip then AgentAt(Next(s, step), ip).current.Busy? && [AgentAt(Next(s, step), ip).current.task] + queue' == queue
        else queue' == queue
      case Cancel(at, r, _, _) =>
        if at == ip then queue != [] && queue[0].taskId == r.taskId && [queue[0]] + queue' == queue else queue' == queue
      case Crash(at) => queue' == if at == ip then [] else queue
      case _ => queue' == queue
  {
    match step
    case Finish(at, r, now, wall) => DeliverLeavesAgents(WithAgent(s, at, AgentAt(s, at).(current := Idle)), r, now, wall);
    case Cancel(at, r, now, wall) =>
      var a := AgentAt(s, at);
      DeliverLeavesAgents(WithAgent(s, at, a.(queue := a.queue[1..])), r, now, wall);
    case _ =>
  }

  lemma DeliverLeavesAgents(s: System, r: TaskResult, now: int, wall: int)
    ensures Deliver(s, r, now, wall).agents == s.agents
  {
    assert Settle(s, r, now, wall).agents == s.agents;
    if Chains(s, r) {
      var p := WindowId.ParentOf(r.taskId).value;
      AcceptEnqueues(Settle(s, r, now, wall), s.server.continuous[p].targetIp, NextWindow(s.server, p, r), NEXT_WINDOW_REASON, now);
    }
  }

  lemma DeliverIsNotify(s: System, r: TaskResult, now: int, wall: int)
    ensures Deliver(s, r, now, wall).server == Notify(s.server, r, now, wall)
  {
    if Chains(s, r) {
      var p := WindowId.ParentOf(r.taskId).value;
      AcceptEnqueues(Settle(s, r, now, wall), s.server.continuous[p].targetIp, NextWindow(s.server, p, r), NEXT_WINDOW_REASON, now);
    }
  }

  lemma AcceptEnqueues(s: System, ip: Ip, task: TaskDesc, reason: string, now: int)
    ensures Accept(s, ip, task, reason, now).server == Enqueue(s.server, ip, task, reason, now).0
    ensures Accept(s, ip, task, reason, now).agents == s.agents
  {
  }
}
