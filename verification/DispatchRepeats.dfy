/** The dispatch system when reports are not delivered exactly once. The agent sends a
    report again when the reply to it is lost, so results and statuses of tasks reported
    on may arrive any number of times. Which of them break the order of dispatch, and
    nothing else does, is said here exactly. */
module DispatchRepeats {
  import opened Text
  import opened DispatchServer
  import opened DispatchSystem
  import opened DispatchSafety
  import opened DispatchTheorems
  import WindowId

  /** A step of the system, or a report on a task that arrives once more. */
  datatype Act =
    | Usual(step: Step)
    | RepeatedResult(result: TaskResult, now: int, wall: int)
    | RepeatedStatus(id: TaskId, code: int, reason: string, now: int)

  /** Only tasks that were dispatched are reported on, and results repeat one already
      taken in. */
  ghost predicate Allowed(s: System, a: Act) {
    match a
    case Usual(step) => Enabled(s, step)
    case RepeatedResult(r, _, _) => r.taskId in s.reported
    case RepeatedStatus(id, _, _, _) => Dispatched(s, id)
  }

  ghost function After(s: System, a: Act): System
    requires Allowed(s, a)
  {
    match a
    case Usual(step) => Next(s, step)
    case RepeatedResult(r, now, wall) => Deliver(s, r, now, wall)
    case RepeatedStatus(id, code, reason, now) => s.(server := SetStatus(s.server, id, FromProto(code), reason, now))
  }

  /** The server does with a repeated result what it does with any result. */
  lemma RepeatRunsTheServer(s: System, r: TaskResult, now: int, wall: int)
    requires r.taskId in s.reported
    ensures After(s, RepeatedResult(r, now, wall)).server == Notify(s.server, r, now, wall)
  {
    DeliverIsNotify(s, r, now, wall);
  }

  // ---------- what can break ----------

  /** Everything handed out for an agent: what was dispatched, then what is queued. */
  function Handed(s: System, ip: Ip): seq<TaskId> { At(s.dispatched, ip) + Ids(At(s.server.queues, ip)) }

  ghost predicate Placed(s: System, id: TaskId) { exists ip :: id in Handed(s, ip) }

  /** Every task stands at one place: no agent was handed it twice, nor two agents. */
  ghost predicate OncePlaced(s: System) {
    forall ip, ip', i, j :: 0 <= i < |Handed(s, ip)| && 0 <= j < |Handed(s, ip')| && Handed(s, ip)[i] == Handed(s, ip')[j] ==>
      ip == ip' && i == j
  }

  /** The result queues a window that was handed out before. */
  ghost predicate QueuesAgain(s: System, r: TaskResult) {
    exists id :: Requeues(s.server, r, id) && Placed(s, id)
  }

  /** Order of dispatch and of execution, and PENDING exactly while queued. */
  ghost predicate Good(s: System) { ServerFifo(s) && AgentFifo(s) && StatusTellsPlace(s) }

  /** The acts that keep a good state good. */
  ghost predicate Harmless(s: System, a: Act) {
    match a
    case Usual(Finish(_, r, _, _)) => !QueuesAgain(s, r)
    case Usual(Cancel(_, r, _, _)) => !QueuesAgain(s, r)
    case Usual(_) => true
    case RepeatedResult(r, _, _) => !QueuesAgain(s, r)
    case RepeatedStatus(_, code, _, _) => !FromProto(code).PENDING?
  }

  /** Windows belong to known parents, and what was reported on had been dispatched. */
  ghost predicate Families(s: System) {
    && (forall id :: id in s.accepted && WindowId.ParentOf(id).Some? ==> WindowId.ParentOf(id).value in s.server.continuous)
    && (forall id :: id in s.reported ==> Dispatched(s, id))
  }

  // ---------- a good state has every task at one place ----------

  lemma PlacedIsAccepted(s: System, id: TaskId)
    requires ServerFifo(s) && Placed(s, id)
    ensures id in s.accepted && id in Handed(s, s.accepted[id].ip)
  {
    var ip :| id in Handed(s, ip);
    assert FifoAt(s, ip);
    var i :| 0 <= i < |Handed(s, ip)| && Handed(s, ip)[i] == id;
  }

  lemma GoodOncePlaced(s: System)
    requires ServerFifo(s)
    ensures OncePlaced(s)
  {
    forall ip, ip', i, j | 0 <= i < |Handed(s, ip)| && 0 <= j < |Handed(s, ip')| && Handed(s, ip)[i] == Handed(s, ip')[j]
      ensures ip == ip' && i == j
    {
      assert FifoAt(s, ip) && FifoAt(s, ip');
    }
  }

  lemma HeldIsPlaced(s: System, ip: Ip, id: TaskId)
    requires AgentFifoAt(s, ip) && (id in At(s.executed, ip) || id in Backlog(AgentAt(s, ip)))
    ensures id in Handed(s, ip)
  {
    assert id in At(s.executed, ip) || Holds(AgentAt(s, ip), id);
  }

  // ---------- queueing a task ----------

  lemma OrderedApart(acc: map<TaskId, Acceptance>, id: TaskId, a: Acceptance, ids: seq<TaskId>, ip: Ip)
    requires Ordered(acc, ids, ip) && id !in ids
    ensures Ordered(acc[id := a], ids, ip)
  {
    forall i | 0 <= i < |ids| ensures ids[i] != id { assert ids[i] in ids; }
  }

  lemma AcceptHands(s: System, ip: Ip, task: TaskDesc, reason: string, now: int, other: Ip)
    requires |At(s.server.queues, ip)| < MAX_TASK_QUEUE_SIZE
    ensures Handed(Accept(s, ip, task, reason, now), other) ==
      if other == ip then Handed(s, ip) + [task.taskId] else Handed(s, other)
  {
    var s' := Accept(s, ip, task, reason, now);
    if other == ip {
      assert Ids(At(s'.server.queues, ip)) == Ids(At(s.server.queues, ip)) + [task.taskId];
      Assoc(At(s.dispatched, ip), Ids(At(s.server.queues, ip)), [task.taskId]);
    }
  }

  lemma AcceptKeepsFifoAt(s: System, ip: Ip, task: TaskDesc, reason: string, now: int, other: Ip)
    requires TicketsPast(s) && FifoAt(s, other) && task.taskId !in Handed(s, other)
    requires |At(s.server.queues, ip)| < MAX_TASK_QUEUE_SIZE
    ensures FifoAt(Accept(s, ip, task, reason, now), other)
  {
    var s' := Accept(s, ip, task, reason, now);
    AcceptHands(s, ip, task, reason, now, other);
    OrderedApart(s.accepted, task.taskId, Acceptance(ip, s.clock), Handed(s, other), other);
    if other == ip {
      forall i | 0 <= i < |Handed(s, ip)| ensures s'.accepted[Handed(s, ip)[i]].ticket < s.clock {
        assert Handed(s, ip)[i] in Handed(s, ip);
      }
      OrderedSnoc(s'.accepted, Handed(s, ip), task.taskId, ip);
    }
  }

  lemma AcceptKeepsAgentFifoAt(s: System, ip: Ip, task: TaskDesc, reason: string, now: int, other: Ip)
    requires AgentFifoAt(s, other) && task.taskId !in Handed(s, other)
    ensures AgentFifoAt(Accept(s, ip, task, reason, now), other)
  {
    var done := At(s.executed, other) + Backlog(AgentAt(s, other));
    forall i | 0 <= i < |done| ensures done[i] != task.taskId { HeldIsPlaced(s, other, done[i]); }
    OrderedApart(s.accepted, task.taskId, Acceptance(ip, s.clock), done, other);
  }

  lemma AcceptKeepsPlaces(s: System, ip: Ip, task: TaskDesc, reason: string, now: int)
    requires ServerFifo(s) && StatusTellsPlace(s) && !Placed(s, task.taskId) && |At(s.server.queues, ip)| < MAX_TASK_QUEUE_SIZE
    ensures StatusTellsPlace(Accept(s, ip, task, reason, now))
  {
    var s', id := Accept(s, ip, task, reason, now), task.taskId;
    assert id !in Handed(s, ip);
    assert Ids(At(s'.server.queues, ip)) == Ids(At(s.server.queues, ip)) + [id];
    forall x ensures PlaceOf(s', x) { assert PlaceOf(s, x); }
  }

  lemma AcceptUnplaced(s: System, ip: Ip, task: TaskDesc, reason: string, now: int)
    requires Good(s) && !Placed(s, task.taskId)
    ensures Good(Accept(s, ip, task, reason, now))
  {
    if |At(s.server.queues, ip)| < MAX_TASK_QUEUE_SIZE {
      var s' := Accept(s, ip, task, reason, now);
      forall other ensures FifoAt(s', other) && AgentFifoAt(s', other) {
        assert FifoAt(s, other) && AgentFifoAt(s, other) && task.taskId !in Handed(s, other);
        AcceptKeepsFifoAt(s, ip, task, reason, now, other);
        AcceptKeepsAgentFifoAt(s, ip, task, reason, now, other);
      }
      AcceptKeepsPlaces(s, ip, task, reason, now);
    }
  }

  /** A task queued while it is placed stands at two places. */
  lemma AcceptPlaced(s: System, ip: Ip, task: TaskDesc, reason: string, now: int)
    requires Placed(s, task.taskId) && |At(s.server.queues, ip)| < MAX_TASK_QUEUE_SIZE
    ensures !OncePlaced(Accept(s, ip, task, reason, now))
  {
    var s', id := Accept(s, ip, task, reason, now), task.taskId;
    var ip0 :| id in Handed(s, ip0);
    var i :| 0 <= i < |Handed(s, ip0)| && Handed(s, ip0)[i] == id;
    var n := |Handed(s, ip)|;
    assert n < |Handed(s', ip)| && Handed(s', ip)[n] == id by { AcceptHands(s, ip, task, reason, now, ip); }
    assert i < |Handed(s', ip0)| && Handed(s', ip0)[i] == id by { AcceptHands(s, ip, task, reason, now, ip0); }
    TwoPlaces(s', ip, n, ip0, i);
  }

  lemma TwoPlaces(s: System, ip: Ip, i: nat, ip': Ip, j: nat)
    requires i < |Handed(s, ip)| && j < |Handed(s, ip')| && Handed(s, ip)[i] == Handed(s, ip')[j] && (ip != ip' || i != j)
    ensures !OncePlaced(s)
  {
  }

  // ---------- delivering a result ----------

  lemma RequeuedIs(s: System, r: TaskResult, id: TaskId)
    requires Requeues(s.server, r, id)
    ensures Chains(s, r) && id == NextWindow(s.server, WindowId.ParentOf(r.taskId).value, r).taskId
    ensures |At(s.server.queues, s.server.continuous[WindowId.ParentOf(r.taskId).value].targetIp)| < MAX_TASK_QUEUE_SIZE
  {
  }

  lemma SettleHands(s: System, r: TaskResult, now: int, wall: int)
    ensures forall ip :: Handed(Settle(s, r, now, wall), ip) == Handed(s, ip)
    ensures forall id :: Placed(Settle(s, r, now, wall), id) <==> Placed(s, id)
  {
    var s' := Settle(s, r, now, wall);
    forall ip ensures Handed(s', ip) == Handed(s, ip) {}
    forall id ensures Placed(s', id) <==> Placed(s, id) {
      if Placed(s, id) { var ip :| id in Handed(s, ip); assert id in Handed(s', ip); }
      if Placed(s', id) { var ip :| id in Handed(s', ip); assert id in Handed(s, ip); }
    }
  }

  lemma DeliverPlaced(s: System, r: TaskResult, now: int, wall: int)
    requires QueuesAgain(s, r)
    ensures !OncePlaced(Deliver(s, r, now, wall))
  {
    var id :| Requeues(s.server, r, id) && Placed(s, id);
    RequeuedIs(s, r, id);
    SettleHands(s, r, now, wall);
    var p := WindowId.ParentOf(r.taskId).value;
    AcceptPlaced(Settle(s, r, now, wall), s.server.continuous[p].targetIp, NextWindow(s.server, p, r), NEXT_WINDOW_REASON, now);
  }

  lemma DeliverUnplaced(s: System, r: TaskResult, now: int, wall: int)
    requires Good(s) && Dispatched(s, r.taskId) && !QueuesAgain(s, r)
    ensures Good(Deliver(s, r, now, wall))
  {
    var s1 := Settle(s, r, now, wall);
    SettlePlaces(s, r, now, wall);
    if Chains(s, r) {
      var p := WindowId.ParentOf(r.taskId).value;
      var ip, task := s.server.continuous[p].targetIp, NextWindow(s.server, p, r);
      SettleHands(s, r, now, wall);
      if |At(s.server.queues, ip)| < MAX_TASK_QUEUE_SIZE {
        assert Requeues(s.server, r, task.taskId);
        AcceptUnplaced(s1, ip, task, NEXT_WINDOW_REASON, now);
      }
    }
  }

  /** A result, repeated or not, keeps a good state good if and only if it does not queue
      a window that was handed out before. */
  lemma DeliverExactly(s: System, r: TaskResult, now: int, wall: int)
    requires Good(s) && Dispatched(s, r.taskId)
    ensures Good(Deliver(s, r, now, wall)) <==> !QueuesAgain(s, r)
    ensures OncePlaced(Deliver(s, r, now, wall)) <==> !QueuesAgain(s, r)
  {
    if QueuesAgain(s, r) {
      DeliverPlaced(s, r, now, wall);
      if ServerFifo(Deliver(s, r, now, wall)) { GoodOncePlaced(Deliver(s, r, now, wall)); }
    } else {
      DeliverUnplaced(s, r, now, wall);
      GoodOncePlaced(Deliver(s, r, now, wall));
    }
  }

  // ---------- the usual steps ----------

  lemma WindowTaskFamily(c: ContinuousConfig, n: int)
    requires c.parentTid != ""
    ensures WindowId.ParentOf(WindowTask(c, n).taskId) == Some(c.parentTid)
  {
    WindowId.ParentOfMake(c.parentTid, n);
  }

  lemma AcceptFamilies(s: System, ip: Ip, task: TaskDesc, reason: string, now: int)
    requires Families(s) && ServerFifo(s) && !Placed(s, task.taskId)
    requires WindowId.ParentOf(task.taskId).Some? ==> WindowId.ParentOf(task.taskId).value in s.server.continuous
    ensures Families(Accept(s, ip, task, reason, now))
  {
    var s' := Accept(s, ip, task, reason, now);
    forall id | id in s'.reported ensures Dispatched(s', id) {
      assert Dispatched(s, id) && id in Handed(s, s.accepted[id].ip);
    }
  }

  lemma SettleFamilies(s: System, r: TaskResult, now: int, wall: int)
    requires ServerFifo(s) && Families(s) && Dispatched(s, r.taskId)
    ensures ServerFifo(Settle(s, r, now, wall)) && Families(Settle(s, r, now, wall))
  {
    var s1 := Settle(s, r, now, wall);
    forall ip ensures FifoAt(s1, ip) { assert FifoAt(s, ip); }
    forall id | id in s1.reported ensures Dispatched(s1, id) { assert Dispatched(s, id); }
  }

  lemma NextNotPlaced(s: System, r: TaskResult)
    requires Chains(s, r) && !QueuesAgain(s, r)
    ensures var p := WindowId.ParentOf(r.taskId).value;
      |At(s.server.queues, s.server.continuous[p].targetIp)| < MAX_TASK_QUEUE_SIZE ==> !Placed(s, NextWindow(s.server, p, r).taskId)
  {
    var id := NextWindow(s.server, WindowId.ParentOf(r.taskId).value, r).taskId;
    assert Requeues(s.server, r, id) && Placed(s, id) ==> QueuesAgain(s, r);
  }

  lemma DeliverFamilies(s: System, r: TaskResult, now: int, wall: int)
    requires ServerFifo(s) && Families(s) && Dispatched(s, r.taskId) && !QueuesAgain(s, r)
    ensures Families(Deliver(s, r, now, wall))
  {
    var s1 := Settle(s, r, now, wall);
    SettleFamilies(s, r, now, wall);
    if Chains(s, r) {
      var p := WindowId.ParentOf(r.taskId).value;
      var ip, task := s.server.continuous[p].targetIp, NextWindow(s.server, p, r);
      NextNotPlaced(s, r);
      WindowTaskFamily(s.server.continuous[p].(parentTid := p), WrapInt32(WindowId.SeqOf(r.taskId) + 1));
      if |At(s.server.queues, ip)| < MAX_TASK_QUEUE_SIZE {
        SettleHands(s, r, now, wall);
        AcceptFamilies(s1, ip, task, NEXT_WINDOW_REASON, now);
      }
    }
  }

  /** Only the agent at `ip` and its log change. */
  lemma AgentKeepsGood(s: System, s': System, ip: Ip)
    requires Good(s) && Families(s) && s' == s.(agents := s'.agents, executed := s'.executed)
    requires forall other :: other != ip ==>
      AgentAt(s', other) == AgentAt(s, other) && At(s'.executed, other) == At(s.executed, other)
    requires AgentFifoAt(s', ip)
    ensures Good(s') && Families(s')
  {
    forall other ensures FifoAt(s', other) { assert FifoAt(s, other); }
    forall other ensures AgentFifoAt(s', other) { assert AgentFifoAt(s, other); }
    forall id ensures PlaceOf(s', id) { assert PlaceOf(s, id); }
    forall id | id in s'.reported ensures Dispatched(s', id) { assert Dispatched(s, id); }
  }

  lemma ForgetKeepsGood(s: System, ip: Ip, a: Agent)
    requires Good(s) && Families(s)
    requires Backlog(a) <= Backlog(AgentAt(s, ip)) && |a.queue| <= MAX_TASK_QUEUE_SIZE
    requires a.current == AgentAt(s, ip).current || a.current.Idle?
    ensures Good(WithAgent(s, ip, a)) && Families(WithAgent(s, ip, a))
  {
    assert AgentFifoAt(s, ip);
    ForgetFifo(s, ip, a);
    AgentKeepsGood(s, WithAgent(s, ip, a), ip);
  }

  lemma HeartbeatKeepsGood(s: System, ip: Ip, now: int)
    requires Good(s) && Families(s) && AgentAt(s, ip).inbox.None?
    ensures Good(Dispatch(s, ip, now)) && Families(Dispatch(s, ip, now))
  {
    var s' := Dispatch(s, ip, now);
    DispatchFifo(s, ip, now);
    DispatchAgentFifo(s, ip, now);
    DispatchTellsPlace(s, ip, now);
    if At(s.server.queues, ip) != [] { DispatchMoves(s, ip, now); }
    forall id | id in s'.reported ensures Dispatched(s', id) { assert Dispatched(s, id); }
  }

  lemma ReceiveKeepsGood(s: System, ip: Ip)
    requires Good(s) && Families(s) && Enabled(s, Step.Receive(ip))
    ensures Good(Next(s, Step.Receive(ip))) && Families(Next(s, Step.Receive(ip)))
  {
    var a := AgentAt(s, ip);
    assert AgentFifoAt(s, ip);
    assert Ids(a.queue + [a.inbox.value]) == Ids(a.queue) + [a.inbox.value.taskId];
    ForgetKeepsGood(s, ip, AgentAt(Next(s, Step.Receive(ip)), ip));
  }

  lemma BeginKeepsGood(s: System, ip: Ip)
    requires Good(s) && Families(s) && Enabled(s, Begin(ip))
    ensures Good(Next(s, Begin(ip))) && Families(Next(s, Begin(ip)))
  {
    assert AgentFifoAt(s, ip);
    BeginFifo(s, ip);
    AgentKeepsGood(s, Next(s, Begin(ip)), ip);
  }

  lemma ReportKeepsGood(s: System, step: Step)
    requires Good(s) && Families(s) && step.Report? && Enabled(s, step)
    ensures Good(Next(s, step)) && Families(Next(s, step))
  {
    var s', ip := Next(s, step), step.ip;
    var id := AgentAt(s, ip).current.task.taskId;
    HeldIsDispatched(s, ip, id);
    StatusChangePlaces(s, s', id);
    ReportFifo(s, step);
    forall x | x in s'.reported ensures Dispatched(s', x) { assert Dispatched(s, x); }
  }

  lemma CleanupKeepsGood(s: System, timeoutSec: int, now: int)
    requires Good(s) && Families(s)
    ensures Good(Next(s, Step.Cleanup(timeoutSec, now))) && Families(Next(s, Step.Cleanup(timeoutSec, now)))
  {
    var s' := Next(s, Step.Cleanup(timeoutSec, now));
    CleanupPlaces(s, timeoutSec, now);
    CleanupFifo(s, timeoutSec, now);
    forall x | x in s'.reported ensures Dispatched(s', x) { assert Dispatched(s, x); }
  }

  lemma SameTasksGood(s: System, s': System)
    requires Good(s) && Families(s) && SamePlaces(s, s') && s'.reported == s.reported
    requires s'.server.states == s.server.states && s'.server.results == s.server.results
    requires s.server.continuous.Keys <= s'.server.continuous.Keys
    ensures Good(s') && Families(s')
    ensures forall id :: Placed(s', id) ==> Placed(s, id)
  {
    FifoFrame(s, s');
    forall id ensures PlaceOf(s', id) { assert PlaceOf(s, id); }
    forall id | id in s'.reported ensures Dispatched(s', id) { assert Dispatched(s, id); }
    forall id | Placed(s', id) ensures Placed(s, id) {
      var ip :| id in Handed(s', ip);
      assert id in Handed(s, ip);
    }
  }

  lemma StartKeepsGood(s: System, step: Step)
    requires Good(s) && Families(s) && step.Start? && Enabled(s, step)
    ensures Good(Next(s, step)) && Families(Next(s, step))
  {
    var p := ParentTid(step.ticks);
    var c := NewConfig(p, step.ip, step.pid, step.hz, step.windowSec, step.profilerType, step.callgraph, step.event);
    RegisterKeepsGood(s, c);
    WindowTaskFamily(c, 0);
    AcceptUnplaced(Register(s, c), step.ip, WindowTask(c, 0), "continuous first window created, waiting dispatch", step.now);
    AcceptFamilies(Register(s, c), step.ip, WindowTask(c, 0), "continuous first window created, waiting dispatch", step.now);
  }

  lemma RegisterKeepsGood(s: System, c: ContinuousConfig)
    requires Good(s) && Families(s) && c.parentTid !in s.server.continuous && c.parentTid != ""
    ensures Good(Register(s, c)) && Families(Register(s, c)) && !Placed(Register(s, c), WindowTask(c, 0).taskId)
  {
    SameTasksGood(s, Register(s, c));
    WindowTaskFamily(c, 0);
    if Placed(s, WindowTask(c, 0).taskId) { PlacedIsAccepted(s, WindowTask(c, 0).taskId); }
  }

  lemma PushKeepsGood(s: System, ip: Ip, task: TaskDesc, now: int)
    requires Good(s) && Families(s) && Enabled(s, Step.Push(ip, task, now))
    ensures Good(Next(s, Step.Push(ip, task, now))) && Families(Next(s, Step.Push(ip, task, now)))
  {
    if Placed(s, task.taskId) { PlacedIsAccepted(s, task.taskId); }
    AcceptUnplaced(s, ip, task, "任务创建，等待派发", now);
    AcceptFamilies(s, ip, task, "任务创建，等待派发", now);
  }

  /** The agent letting go of the task it reports on. */
  lemma ReleaseKeepsGood(s: System, step: Step)
    requires Good(s) && Families(s) && (step.Finish? || step.Cancel?) && Enabled(s, step)
    ensures var s1 := Released(s, step);
      && Good(s1) && Families(s1) && Dispatched(s1, step.result.taskId)
      && (QueuesAgain(s1, step.result) <==> QueuesAgain(s, step.result))
  {
    var s1, ip, id := Released(s, step), step.ip, step.result.taskId;
    var a := AgentAt(s, ip);
    assert AgentFifoAt(s, ip);
    if step.Finish? {
      assert Holds(a, id);
      ForgetKeepsGood(s, ip, a.(current := Idle));
    } else {
      assert Backlog(a)[0] == id && Holds(a, id);
      SkipFifo(s, ip);
      AgentKeepsGood(s, s1, ip);
    }
    HeldIsDispatched(s, ip, id);
    SameHandsQueue(s, s1, step.result);
  }

  lemma SameHandsQueue(s: System, s1: System, r: TaskResult)
    requires s1.server == s.server && s1.dispatched == s.dispatched
    ensures QueuesAgain(s1, r) <==> QueuesAgain(s, r)
  {
    forall ip ensures Handed(s1, ip) == Handed(s, ip) {}
    forall id ensures Placed(s1, id) <==> Placed(s, id) {
      if Placed(s, id) { var ip :| id in Handed(s, ip); assert id in Handed(s1, ip); }
      if Placed(s1, id) { var ip :| id in Handed(s1, ip); assert id in Handed(s, ip); }
    }
  }

  lemma ResultExactly(s: System, step: Step)
    requires Good(s) && Families(s) && (step.Finish? || step.Cancel?) && Enabled(s, step)
    ensures Good(Next(s, step)) <==> !QueuesAgain(s, step.result)
    ensures !QueuesAgain(s, step.result) ==> Families(Next(s, step))
  {
    ReleaseKeepsGood(s, step);
    DeliverExactly(Released(s, step), step.result, step.now, step.wall);
    if !QueuesAgain(s, step.result) { DeliverFamilies(Released(s, step), step.result, step.now, step.wall); }
  }

  lemma UsualExactly(s: System, step: Step)
    requires Good(s) && Families(s) && Enabled(s, step)
    ensures Good(Next(s, step)) <==> Harmless(s, Usual(step))
    ensures Harmless(s, Usual(step)) ==> Families(Next(s, step))
  {
    match step
    case Push(ip, task, now) => PushKeepsGood(s, ip, task, now);
    case Heartbeat(ip, now) => HeartbeatKeepsGood(s, ip, now);
    case Receive(ip) => ReceiveKeepsGood(s, ip);
    case LoseReply(ip) =>
      assert AgentFifoAt(s, ip);
      ForgetKeepsGood(s, ip, AgentAt(s, ip).(inbox := None));
    case Begin(ip) => BeginKeepsGood(s, ip);
    case Report(_, _, _, _) => ReportKeepsGood(s, step);
    case Finish(_, _, _, _) => ResultExactly(s, step);
    case Abandon(ip) =>
      assert AgentFifoAt(s, ip);
      ForgetKeepsGood(s, ip, AgentAt(s, ip).(current := Idle));
    case Cancel(_, _, _, _) => ResultExactly(s, step);
    case Crash(ip) => ForgetKeepsGood(s, ip, NEW_AGENT);
    case Cleanup(timeoutSec, now) => CleanupKeepsGood(s, timeoutSec, now);
    case Start(_, _, _, _, _, _, _, _, _) => StartKeepsGood(s, step);
    case Stop(_) => SameTasksGood(s, Next(s, step));
  }

  lemma StatusExactly(s: System, a: Act)
    requires Good(s) && Families(s) && a.RepeatedStatus? && Allowed(s, a)
    ensures Good(After(s, a)) <==> Harmless(s, a)
    ensures Families(After(s, a))
  {
    var s' := After(s, a);
    FifoFrame(s, s');
    forall id | id in s'.reported ensures Dispatched(s', id) { assert Dispatched(s, id); }
    DispatchedNotQueued(s, s.accepted[a.id].ip, a.id);
    if Harmless(s, a) {
      StatusChangePlaces(s, s', a.id);
    } else {
      assert !PlaceOf(s', a.id);
    }
  }

  /** Any act keeps a good state good if and only if it is harmless. */
  lemma ActExactly(s: System, a: Act)
    requires Good(s) && Families(s) && Allowed(s, a)
    ensures Good(After(s, a)) <==> Harmless(s, a)
    ensures Harmless(s, a) ==> Families(After(s, a))
  {
    match a
    case Usual(step) => UsualExactly(s, step);
    case RepeatedResult(r, now, wall) =>
      DeliverExactly(s, r, now, wall);
      if !QueuesAgain(s, r) { DeliverFamilies(s, r, now, wall); }
    case RepeatedStatus(_, _, _, _) => StatusExactly(s, a);
  }

  // ---------- every run ----------

  ghost predicate ActAt(trace: seq<System>, acts: seq<Act>, i: nat)
    requires i < |acts| < |trace|
  {
    Allowed(trace[i], acts[i]) && trace[i + 1] == After(trace[i], acts[i])
  }

  /** A run from the empty system in which reports may be repeated at any time. */
  ghost predicate RepeatRun(trace: seq<System>, acts: seq<Act>) {
    && |trace| == |acts| + 1 && trace[0] == INITIAL
    && forall i :: 0 <= i < |acts| ==> ActAt(trace, acts, i)
  }

  ghost predicate HarmlessAt(trace: seq<System>, acts: seq<Act>, i: nat)
    requires i < |acts| < |trace|
  {
    Harmless(trace[i], acts[i])
  }

  lemma InitialGood()
    ensures Good(INITIAL) && Families(INITIAL)
  {
    InitialInv();
  }

  /** As long as no act did harm, the state is good; the first that does makes it bad. */
  lemma {:induction false} GoodUntilHarm(trace: seq<System>, acts: seq<Act>, k: nat)
    requires RepeatRun(trace, acts) && k < |trace| && forall i :: 0 <= i < k ==> HarmlessAt(trace, acts, i)
    ensures Good(trace[k]) && Families(trace[k])
    ensures k < |acts| ==> (Good(trace[k + 1]) <==> HarmlessAt(trace, acts, k))
  {
    if k == 0 {
      InitialGood();
    } else {
      GoodUntilHarm(trace, acts, k - 1);
      assert HarmlessAt(trace, acts, k - 1) && ActAt(trace, acts, k - 1);
      ActExactly(trace[k - 1], acts[k - 1]);
    }
    if k < |acts| {
      assert ActAt(trace, acts, k);
      ActExactly(trace[k], acts[k]);
    }
  }

  lemma {:induction false} FirstFailure(holds: int -> bool, n: nat) returns (k: nat)
    requires exists i :: 0 <= i < n && !holds(i)
    ensures k < n && !holds(k) && forall i :: 0 <= i < k ==> holds(i)
  {
    if i :| 0 <= i < n - 1 && !holds(i) { k := FirstFailure(holds, n - 1); } else { k := n - 1; }
  }

  lemma FirstHarm(trace: seq<System>, acts: seq<Act>, j: nat) returns (k: nat)
    requires j < |acts| < |trace| && !HarmlessAt(trace, acts, j)
    ensures k <= j && !HarmlessAt(trace, acts, k) && forall i :: 0 <= i < k ==> HarmlessAt(trace, acts, i)
  {
    var holds: int -> bool := i => 0 <= i < |acts| && HarmlessAt(trace, acts, i);
    assert !holds(j);
    k := FirstFailure(holds, j + 1);
    forall i | 0 <= i < k ensures HarmlessAt(trace, acts, i) { assert holds(i); }
    assert !holds(k);
  }

  /** Over every run in which results and statuses may be repeated: tasks are dispatched and
      executed at most once, in order, and are PENDING exactly while queued, in every
      state of the run, if and only if no act of it is harmful: no result queues a
      window that was handed out before, and no repeated status is PENDING. */
  lemma OnlyHarmfulActsBreak(trace: seq<System>, acts: seq<Act>)
    requires RepeatRun(trace, acts)
    ensures (forall k :: 0 <= k < |trace| ==> Good(trace[k])) <==> (forall i :: 0 <= i < |acts| ==> HarmlessAt(trace, acts, i))
  {
    if forall i :: 0 <= i < |acts| ==> HarmlessAt(trace, acts, i) {
      forall k | 0 <= k < |trace| ensures Good(trace[k]) { GoodUntilHarm(trace, acts, k); }
    } else {
      var j :| 0 <= j < |acts| && !HarmlessAt(trace, acts, j);
      var k := FirstHarm(trace, acts, j);
      GoodUntilHarm(trace, acts, k);
      assert !Good(trace[k + 1]);
    }
  }

  /** Without a harmful act: each task goes out at most once, to the agent it was accepted
      for, in order, and is executed at most once, there, in order. */
  lemma HarmlessRepeatsKeepOrder(trace: seq<System>, acts: seq<Act>, k: nat, ip: Ip, ip': Ip)
    requires RepeatRun(trace, acts) && k < |trace| && forall i :: 0 <= i < |acts| ==> HarmlessAt(trace, acts, i)
    ensures var s := trace[k];
      && (forall i, j :: 0 <= i < |At(s.dispatched, ip)| && 0 <= j < |At(s.dispatched, ip')| ==>
            InOrder(s, At(s.dispatched, ip), ip, i, At(s.dispatched, ip'), ip', j))
      && (forall i, j :: 0 <= i < |At(s.executed, ip)| && 0 <= j < |At(s.executed, ip')| ==>
            InOrder(s, At(s.executed, ip), ip, i, At(s.executed, ip'), ip', j))
      && (forall id :: id in At(s.executed, ip) ==> id in At(s.dispatched, ip))
  {
    var s := trace[k];
    GoodUntilHarm(trace, acts, k);
    assert AgentFifoAt(s, ip);
    forall i, j | 0 <= i < |At(s.dispatched, ip)| && 0 <= j < |At(s.dispatched, ip')|
      ensures InOrder(s, At(s.dispatched, ip), ip, i, At(s.dispatched, ip'), ip', j)
    {
      DispatchedOnceIn(s, ip, i, ip', j);
    }
    forall i, j | 0 <= i < |At(s.executed, ip)| && 0 <= j < |At(s.executed, ip')|
      ensures InOrder(s, At(s.executed, ip), ip, i, At(s.executed, ip'), ip', j)
    {
      ExecutedOnceIn(s, ip, i, ip', j);
    }
  }

  /** Position `i` of one log and `j` of another: the same task only if the same place, and
      earlier in a log means accepted earlier. */
  ghost predicate InOrder(s: System, a: seq<TaskId>, ip: Ip, i: nat, b: seq<TaskId>, ip': Ip, j: nat)
    requires i < |a| && j < |b|
  {
    && (a[i] == b[j] ==> ip == ip' && i == j)
    && (ip == ip' && i < j ==> a[i] in s.accepted && b[j] in s.accepted && s.accepted[a[i]].ticket < s.accepted[b[j]].ticket)
  }

  // ---------- from states of undisturbed runs ----------

  lemma InvIsGood(s: System)
    requires Inv(s)
    ensures Good(s) && Families(s)
  {
    forall id | id in s.accepted && WindowId.ParentOf(id).Some? ensures WindowId.ParentOf(id).value in s.server.continuous {
      assert WindowPlace(s, WindowId.ParentOf(id).value, id);
    }
  }

  /** Where every report arrives once, no step is harmful. */
  lemma UndisturbedIsHarmless(s: System, step: Step)
    requires Inv(s) && Enabled(s, step)
    ensures Harmless(s, Usual(step))
  {
    InvIsGood(s);
    NextKeepsInv(s, step);
    InvIsGood(Next(s, step));
    UsualExactly(s, step);
  }

  lemma PlacedIs(s: System, id: TaskId)
    requires ServerFifo(s)
    ensures Placed(s, id) <==> Queued(s, id) || Dispatched(s, id)
  {
    if Placed(s, id) { PlacedIsAccepted(s, id); }
    if Queued(s, id) || Dispatched(s, id) { assert id in Handed(s, s.accepted[id].ip); }
  }

  /** From any state of an undisturbed run: the first repeated window result leaves every
      task at one place if and only if it does not queue the next window while that is
      queued or was dispatched. */
  lemma RepeatedResultExactly(s: System, r: TaskResult, p: TaskId, now: int, wall: int)
    requires Inv(s) && r.taskId in s.reported && WindowId.ParentOf(r.taskId) == Some(p) && p in s.server.continuous
    ensures var id := NextWindow(s.server, p, r).taskId;
      OncePlaced(After(s, RepeatedResult(r, now, wall))) <==>
        !(Requeues(s.server, r, id) && (Queued(s, id) || Dispatched(s, id)))
  {
    var id := NextWindow(s.server, p, r).taskId;
    InvIsGood(s);
    DeliverExactly(s, r, now, wall);
    PlacedIs(s, id);
    if QueuesAgain(s, r) {
      var x :| Requeues(s.server, r, x) && Placed(s, x);
      RequeuedIs(s, r, x);
    }
  }

  lemma NextWindowPlaced(s: System, r: TaskResult, now: int, wall: int)
    requires Chains(s, r)
    requires var p := WindowId.ParentOf(r.taskId).value;
      |At(s.server.queues, s.server.continuous[p].targetIp)| < MAX_TASK_QUEUE_SIZE
    ensures var p := WindowId.ParentOf(r.taskId).value;
      Placed(Deliver(s, r, now, wall), NextWindow(s.server, p, r).taskId)
  {
    var p := WindowId.ParentOf(r.taskId).value;
    var ip, task, s0 := s.server.continuous[p].targetIp, NextWindow(s.server, p, r), Settle(s, r, now, wall);
    AcceptHands(s0, ip, task, NEXT_WINDOW_REASON, now, ip);
    assert Handed(Deliver(s, r, now, wall), ip)[|Handed(s0, ip)|] == task.taskId;
    assert task.taskId in Handed(Deliver(s, r, now, wall), ip);
  }

  lemma NextWindowAgain(s: System, r: TaskResult, now: int, wall: int)
    requires Chains(s, r)
    requires var p := WindowId.ParentOf(r.taskId).value;
      |At(s.server.queues, s.server.continuous[p].targetIp)| + 2 <= MAX_TASK_QUEUE_SIZE
    ensures var s1, p := Deliver(s, r, now, wall), WindowId.ParentOf(r.taskId).value;
      r.taskId in s1.reported && Requeues(s1.server, r, NextWindow(s.server, p, r).taskId)
  {
  }

  /** The retry does happen to do harm: in any state of an undisturbed run, let an agent
      report a window of a running parent, with room for two more tasks in the queue.
      If the same report arrives again, the next window stands at two places. */
  lemma RetryQueuesTwice(s: System, step: Step, now: int, wall: int)
    requires Inv(s) && step.Finish? && Enabled(s, step) && Chains(s, step.result)
    requires var p := WindowId.ParentOf(step.result.taskId).value;
      |At(s.server.queues, s.server.continuous[p].targetIp)| + 2 <= MAX_TASK_QUEUE_SIZE
    ensures var s1 := Next(s, step);
      && Allowed(s1, RepeatedResult(step.result, now, wall)) && !Harmless(s1, RepeatedResult(step.result, now, wall))
      && !OncePlaced(After(s1, RepeatedResult(step.result, now, wall)))
  {
    var r, s0 := step.result, Released(s, step);
    NextWindowPlaced(s0, r, step.now, step.wall);
    NextWindowAgain(s0, r, step.now, step.wall);
    DeliverPlaced(Next(s, step), r, now, wall);
  }

  /** A task queued for an idle agent is taken and begun in three steps. */
  lemma TakenAndBegun(s: System, ip: Ip, task: TaskDesc) returns (s2: System, s3: System, s4: System)
    requires At(s.server.queues, ip) == [task] && AgentAt(s, ip) == NEW_AGENT
    ensures Enabled(s, Heartbeat(ip, 0)) && s2 == Next(s, Heartbeat(ip, 0))
    ensures Enabled(s2, Step.Receive(ip)) && s3 == Next(s2, Step.Receive(ip))
    ensures Enabled(s3, Begin(ip)) && s4 == Next(s3, Begin(ip))
    ensures AgentAt(s4, ip).current == Busy(task, Taken) && At(s4.server.queues, ip) == []
    ensures s4.server.continuous == s.server.continuous && s4.server.windows == s.server.windows
  {
    s2 := Next(s, Heartbeat(ip, 0));
    assert AgentAt(s2, ip) == NEW_AGENT.(inbox := Some(task));
    s3 := Next(s2, Step.Receive(ip));
    assert AgentAt(s3, ip) == NEW_AGENT.(queue := [task]);
    s4 := Next(s3, Begin(ip));
  }

  lemma Started(ip: Ip) returns (start: Step, s1: System, task: TaskDesc)
    ensures Enabled(INITIAL, start) && s1 == Next(INITIAL, start)
    ensures At(s1.server.queues, ip) == [task] && AgentAt(s1, ip) == NEW_AGENT
    ensures var p := ParentTid(0);
      && WindowId.ParentOf(task.taskId) == Some(p) && p in s1.server.continuous
      && s1.server.continuous[p].running && s1.server.continuous[p].targetIp == ip && At(s1.server.windows, p) == []
  {
    start := Step.Start(0, ip, 1, 99, 60, 0, "", "", 0);
    var c := NewConfig(ParentTid(0), ip, 1, 99, 60, 0, "", "");
    task := WindowTask(c, 0);
    WindowTaskFamily(c, 0);
    s1 := Next(INITIAL, start);
  }

  /** Such a state is reached from the empty system in four steps. */
  lemma RetryReachable() returns (trace: seq<System>, steps: seq<Step>, step: Step)
    ensures Run(trace, steps) && |steps| == 4
    ensures step.Finish? && Enabled(trace[4], step) && Chains(trace[4], step.result)
    ensures var s, p := trace[4], WindowId.ParentOf(step.result.taskId).value;
      |At(s.server.queues, s.server.continuous[p].targetIp)| + 2 <= MAX_TASK_QUEUE_SIZE
  {
    var ip := "a";
    var start, s1, task := Started(ip);
    var s2, s3, s4 := TakenAndBegun(s1, ip, task);
    trace, steps := [INITIAL], [];
    trace, steps := OneMoreStep(trace, steps, start, s1);
    trace, steps := OneMoreStep(trace, steps, Heartbeat(ip, 0), s2);
    trace, steps := OneMoreStep(trace, steps, Step.Receive(ip), s3);
    trace, steps := OneMoreStep(trace, steps, Begin(ip), s4);
    step := Finish(ip, TaskResult(task.taskId, "", "", None), 0, 0);
  }

  lemma OneMoreStep(trace: seq<System>, steps: seq<Step>, step: Step, s': System)
    returns (trace': seq<System>, steps': seq<Step>)
    requires Run(trace, steps) && Enabled(trace[|steps|], step) && s' == Next(trace[|steps|], step)
    ensures Run(trace', steps') && |steps'| == |steps| + 1 && trace'[|steps'|] == s'
  {
    trace', steps' := trace + [s'], steps + [step];
    forall i | 0 <= i < |steps'| ensures StepAt(trace', steps', i) {
      if i < |steps| { assert StepAt(trace, steps, i); }
    }
  }
}
