/** What every run of the dispatch protocol keeps: where each task can be, what
    its status says about it, and how the windows of a continuous parent chain. */
module DispatchSafety {
  import opened Text
  import opened DispatchServer
  import opened DispatchSystem
  import WindowId

  // ---------- the invariant ----------

  /** All tasks were accepted for `ip`, in this order. */
  ghost predicate Ordered(accepted: map<TaskId, Acceptance>, ids: seq<TaskId>, ip: Ip) {
    && (forall i :: 0 <= i < |ids| ==> ids[i] in accepted && accepted[ids[i]].ip == ip)
    && (forall i, j :: 0 <= i < j < |ids| ==> accepted[ids[i]].ticket < accepted[ids[j]].ticket)
  }

  /** The task waits in the queue of the agent it was accepted for. */
  ghost predicate Queued(s: System, id: TaskId) {
    id in s.accepted && id in Ids(At(s.server.queues, s.accepted[id].ip))
  }

  ghost predicate Dispatched(s: System, id: TaskId) {
    id in s.accepted && id in At(s.dispatched, s.accepted[id].ip)
  }

  /** The agent has the task, begun or not. */
  ghost predicate Holds(a: Agent, id: TaskId) {
    id in Backlog(a) || (a.current.Busy? && a.current.task.taskId == id)
  }

  /** What was dispatched, followed by what is queued, is in acceptance order. */
  ghost predicate FifoAt(s: System, ip: Ip) {
    Ordered(s.accepted, At(s.dispatched, ip) + Ids(At(s.server.queues, ip)), ip)
  }

  ghost predicate TicketsPast(s: System) {
    forall id :: id in s.accepted ==> s.accepted[id].ticket < s.clock
  }

  ghost predicate ServerFifo(s: System) {
    TicketsPast(s) && forall ip :: FifoAt(s, ip)
  }

  /** What was executed, followed by the backlog, is in acceptance order and was
      dispatched to this agent. */
  ghost predicate AgentFifoAt(s: System, ip: Ip) {
    var a := AgentAt(s, ip);
    && Ordered(s.accepted, At(s.executed, ip) + Backlog(a), ip)
    && (forall id :: id in At(s.executed, ip) || Holds(a, id) ==> id in At(s.dispatched, ip))
    && (a.current.Busy? ==> a.current.task.taskId in At(s.executed, ip))
    && |a.queue| <= MAX_TASK_QUEUE_SIZE
  }

  ghost predicate AgentFifo(s: System) { forall ip :: AgentFifoAt(s, ip) }

  /** The status is PENDING exactly while the task is queued. */
  ghost predicate PlaceOf(s: System, id: TaskId) {
    Queued(s, id) <==> id in s.server.states && s.server.states[id].status.PENDING?
  }

  ghost predicate StatusTellsPlace(s: System) {
    && QueuesBounded(s.server.queues)
    && s.server.results.Keys <= s.server.states.Keys <= s.accepted.Keys
    && (forall id :: PlaceOf(s, id))
  }

  ghost predicate OverdueStaysOut(s: System) {
    forall id :: id in s.overdue ==> id in s.accepted && !Queued(s, id) && !Dispatched(s, id)
  }

  /** Only dispatched tasks were reported on, and no agent still holds one of them. */
  ghost predicate ReportedOnce(s: System) {
    && (forall id :: id in s.reported ==> Dispatched(s, id))
    && (forall ip, id :: Holds(AgentAt(s, ip), id) ==> id !in s.reported)
  }

  function PhaseCode(p: Phase): int {
    match p case Taken => Code(PENDING) case SaidRunning => Code(RUNNING) case SaidUploading => Code(UPLOADING)
  }

  /** An unfinished status shows exactly how far the task got. */
  ghost predicate StatusShown(s: System, id: TaskId) {
    id in s.server.states && id in s.progress && !s.server.states[id].status.Terminal() ==>
      PublicCode(s.server.states[id].status) == s.progress[id]
  }

  ghost predicate AgentProgress(s: System, ip: Ip) {
    var a := AgentAt(s, ip);
    && (forall id :: id in Backlog(a) ==> id in s.progress && s.progress[id] == Code(PENDING))
    && (a.current.Busy? ==>
          a.current.task.taskId in s.progress && s.progress[a.current.task.taskId] == PhaseCode(a.current.phase))
  }

  ghost predicate ProgressShown(s: System) {
    && s.progress.Keys == s.accepted.Keys
    && (forall id :: StatusShown(s, id))
    && (forall ip :: AgentProgress(s, ip))
  }

  /** Window `id` of parent `p` is `p`'s window number `SeqOf(id)`, at most the next
      one to be recorded, and it is recorded exactly when it was reported. */
  ghost predicate WindowPlace(s: System, p: TaskId, id: TaskId)
    requires WindowId.ParentOf(id) == Some(p)
  {
    && p in s.server.continuous
    && var n := |At(s.server.windows, p)|;
       && 0 <= WindowId.SeqOf(id) <= n
       && id == WindowId.Make(p, WindowId.SeqOf(id))
       && (id in s.reported <==> WindowId.SeqOf(id) < n)
  }

  ghost predicate RecordsNumbered(p: TaskId, records: seq<WindowRecord>) {
    && |records| <= WindowId.INT32_MAX
    && (forall i :: 0 <= i < |records| ==>
          records[i].seqNo == i && records[i].windowTid == WindowId.Make(p, i))
  }

  ghost predicate WindowsChain(s: System) {
    && s.server.windows.Keys == s.server.continuous.Keys
    && (forall p :: p in s.server.continuous ==>
          p != "" && s.server.continuous[p].parentTid == p && RecordsNumbered(p, At(s.server.windows, p)))
    && (forall id :: id in s.accepted && WindowId.ParentOf(id).Some? ==>
          WindowPlace(s, WindowId.ParentOf(id).value, id))
  }

  /** A stopped parent gets at most the window that was outstanding. */
  ghost predicate StoppedParent(s: System, p: TaskId)
    requires p in s.stoppedAt
  {
    && p in s.server.continuous && !s.server.continuous[p].running
    && var n := |At(s.server.windows, p)|;
       && s.stoppedAt[p] <= n <= s.stoppedAt[p] + 1
       && (n == s.stoppedAt[p] + 1 ==> WindowId.Make(p, n) !in s.accepted)
  }

  ghost predicate StopHolds(s: System) {
    && (forall p :: p in s.stoppedAt ==> StoppedParent(s, p))
    && (forall p :: p in s.server.continuous && !s.server.continuous[p].running ==> p in s.stoppedAt)
  }

  ghost predicate Inv(s: System) {
    && ServerFifo(s) && AgentFifo(s) && StatusTellsPlace(s) && OverdueStaysOut(s)
    && ReportedOnce(s) && ProgressShown(s) && WindowsChain(s) && StopHolds(s)
  }

  // ---------- small facts ----------

  lemma OrderedDrop(acc: map<TaskId, Acceptance>, a: seq<TaskId>, x: TaskId, b: seq<TaskId>, ip: Ip)
    requires Ordered(acc, a + [x] + b, ip)
    ensures Ordered(acc, a + b, ip)
  {
    var long, short := a + [x] + b, a + b;
    assert forall i :: 0 <= i < |short| ==> short[i] == long[if i < |a| then i else i + 1];
  }

  /** Nothing ordered comes twice. */
  lemma PartsApart(acc: map<TaskId, Acceptance>, a: seq<TaskId>, b: seq<TaskId>, ip: Ip, id: TaskId)
    requires Ordered(acc, a + b, ip)
    ensures id in a ==> id !in b
  {
    if id in a {
      var i :| 0 <= i < |a| && a[i] == id;
      assert (a + b)[i] == id;
      forall j | 0 <= j < |b| ensures b[j] != id { assert (a + b)[|a| + j] == b[j]; }
    }
  }

  lemma IdsCons(t: TaskDesc, rest: seq<TaskDesc>)
    ensures Ids([t] + rest) == [t.taskId] + Ids(rest)
  {
  }

  lemma {:induction false} OrderedWithout(acc: map<TaskId, Acceptance>, a: seq<TaskId>, q: seq<TaskDesc>,
                                          ids: set<TaskId>, ip: Ip)
    requires Ordered(acc, a + Ids(q), ip)
    ensures Ordered(acc, a + Ids(Without(q, ids)), ip)
    decreases |q|
  {
    if q != [] {
      var x, rest := q[0].taskId, q[1..];
      assert q == [q[0]] + rest;
      IdsCons(q[0], rest);
      Assoc(a, [x], Ids(rest));
      if x in ids {
        OrderedDrop(acc, a, x, Ids(rest), ip);
        OrderedWithout(acc, a, rest, ids, ip);
      } else {
        OrderedWithout(acc, a + [x], rest, ids, ip);
        IdsCons(q[0], Without(rest, ids));
        Assoc(a, [x], Ids(Without(rest, ids)));
      }
    }
  }

  /** A dispatched task is in no queue. */
  lemma DispatchedNotQueued(s: System, ip: Ip, id: TaskId)
    requires ServerFifo(s) && id in At(s.dispatched, ip)
    ensures id in s.accepted && s.accepted[id].ip == ip && !Queued(s, id) && Dispatched(s, id)
  {
    var d, q := At(s.dispatched, ip), Ids(At(s.server.queues, ip));
    assert FifoAt(s, ip);
    var i :| 0 <= i < |d| && d[i] == id;
    assert (d + q)[i] == id;
    PartsApart(s.accepted, d, q, ip, id);
  }

  lemma QueuedAt(s: System, ip: Ip, i: nat)
    requires ServerFifo(s) && i < |At(s.server.queues, ip)|
    ensures var id := At(s.server.queues, ip)[i].taskId;
      id in s.accepted && s.accepted[id].ip == ip && Queued(s, id)
  {
    var d, q := At(s.dispatched, ip), Ids(At(s.server.queues, ip));
    assert FifoAt(s, ip);
    assert (d + q)[|d| + i] == q[i];
  }

  lemma HeldIsDispatched(s: System, ip: Ip, id: TaskId)
    requires ServerFifo(s) && AgentFifo(s) && Holds(AgentAt(s, ip), id)
    ensures id in s.accepted && s.accepted[id].ip == ip && Dispatched(s, id) && !Queued(s, id)
  {
    assert AgentFifoAt(s, ip);
    DispatchedNotQueued(s, ip, id);
  }

  // ---------- acceptance ----------

  lemma OrderedGrows(acc: map<TaskId, Acceptance>, id: TaskId, a: Acceptance, ids: seq<TaskId>, ip: Ip)
    requires Ordered(acc, ids, ip) && id !in acc
    ensures Ordered(acc[id := a], ids, ip)
  {
  }

  lemma OrderedSnoc(acc: map<TaskId, Acceptance>, ids: seq<TaskId>, id: TaskId, ip: Ip)
    requires Ordered(acc, ids, ip) && id in acc && acc[id].ip == ip
    requires forall i :: 0 <= i < |ids| ==> acc[ids[i]].ticket < acc[id].ticket
    ensures Ordered(acc, ids + [id], ip)
  {
  }

  lemma AcceptFifoAt(s: System, ip: Ip, task: TaskDesc, reason: string, now: int, other: Ip)
    requires TicketsPast(s) && FifoAt(s, other) && task.taskId !in s.accepted
    ensures FifoAt(Accept(s, ip, task, reason, now), other)
  {
    var s' := Accept(s, ip, task, reason, now);
    if s' != s {
      var before := At(s.dispatched, other) + Ids(At(s.server.queues, other));
      OrderedGrows(s.accepted, task.taskId, Acceptance(ip, s.clock), before, other);
      if other == ip {
        OrderedSnoc(s'.accepted, before, task.taskId, ip);
        assert At(s'.dispatched, ip) + Ids(At(s'.server.queues, ip)) == before + [task.taskId];
      }
    }
  }

  lemma AcceptAgentFifoAt(s: System, ip: Ip, task: TaskDesc, reason: string, now: int, other: Ip)
    requires AgentFifoAt(s, other) && task.taskId !in s.accepted
    ensures AgentFifoAt(Accept(s, ip, task, reason, now), other)
  {
    OrderedGrows(s.accepted, task.taskId, Acceptance(ip, s.clock), At(s.executed, other) + Backlog(AgentAt(s, other)), other);
  }

  lemma AcceptQueued(s: System, ip: Ip, task: TaskDesc, reason: string, now: int, id: TaskId)
    requires task.taskId !in s.accepted
    ensures var s' := Accept(s, ip, task, reason, now);
      s' != s ==> (Queued(s', id) <==> Queued(s, id) || id == task.taskId)
  {
    var s' := Accept(s, ip, task, reason, now);
    if s' != s {
      assert Ids(At(s'.server.queues, ip)) == Ids(At(s.server.queues, ip)) + [task.taskId];
    }
  }

  lemma AcceptPlaces(s: System, ip: Ip, task: TaskDesc, reason: string, now: int)
    requires StatusTellsPlace(s) && OverdueStaysOut(s) && task.taskId !in s.accepted
    ensures StatusTellsPlace(Accept(s, ip, task, reason, now)) && OverdueStaysOut(Accept(s, ip, task, reason, now))
  {
    var s' := Accept(s, ip, task, reason, now);
    forall id ensures PlaceOf(s', id) {
      assert PlaceOf(s, id);
      AcceptQueued(s, ip, task, reason, now, id);
    }
    forall id | id in s'.overdue ensures id in s'.accepted && !Queued(s', id) && !Dispatched(s', id) {
      AcceptQueued(s, ip, task, reason, now, id);
    }
  }

  lemma AcceptProgress(s: System, ip: Ip, task: TaskDesc, reason: string, now: int)
    requires ProgressShown(s) && task.taskId !in s.accepted
    ensures ProgressShown(Accept(s, ip, task, reason, now))
  {
    var s' := Accept(s, ip, task, reason, now);
    forall id ensures StatusShown(s', id) { assert StatusShown(s, id); }
    forall other ensures AgentProgress(s', other) { assert AgentProgress(s, other); }
  }

  lemma AcceptReports(s: System, ip: Ip, task: TaskDesc, reason: string, now: int)
    requires ReportedOnce(s) && task.taskId !in s.accepted
    ensures ReportedOnce(Accept(s, ip, task, reason, now))
  {
    var s' := Accept(s, ip, task, reason, now);
    assert forall other :: AgentAt(s', other) == AgentAt(s, other);
  }

  /** A new task may be accepted when it is no window, or the next window of its parent. */
  ghost predicate Acceptable(s: System, id: TaskId) {
    && id !in s.accepted
    && (WindowId.ParentOf(id).Some? ==>
          var p := WindowId.ParentOf(id).value;
          && p in s.server.continuous && s.server.continuous[p].running
          && id == WindowId.Make(p, |At(s.server.windows, p)|)
          && id !in s.reported)
  }

  lemma AcceptWindows(s: System, ip: Ip, task: TaskDesc, reason: string, now: int)
    requires WindowsChain(s) && StopHolds(s) && Acceptable(s, task.taskId)
    ensures WindowsChain(Accept(s, ip, task, reason, now)) && StopHolds(Accept(s, ip, task, reason, now))
  {
    var s', id := Accept(s, ip, task, reason, now), task.taskId;
    if s' != s {
      var parent := WindowId.ParentOf(id);
      if parent.Some? {
        WindowId.ServerRoundTrip(parent.value, |At(s.server.windows, parent.value)|);
      }
      forall x | x in s'.accepted && WindowId.ParentOf(x).Some?
        ensures WindowPlace(s', WindowId.ParentOf(x).value, x)
      {
        if x != id { assert WindowPlace(s, WindowId.ParentOf(x).value, x); }
      }
      forall p | p in s'.stoppedAt ensures StoppedParent(s', p) {
        assert StoppedParent(s, p);
        var n := |At(s.server.windows, p)|;
        if WindowId.Make(p, n) == id { WindowId.ServerRoundTrip(p, n); }
      }
    }
  }

  lemma AcceptKeepsInv(s: System, ip: Ip, task: TaskDesc, reason: string, now: int)
    requires Inv(s) && Acceptable(s, task.taskId)
    ensures Inv(Accept(s, ip, task, reason, now))
  {
    var s' := Accept(s, ip, task, reason, now);
    forall other ensures FifoAt(s', other) { AcceptFifoAt(s, ip, task, reason, now, other); }
    forall other ensures AgentFifoAt(s', other) { AcceptAgentFifoAt(s, ip, task, reason, now, other); }
    AcceptPlaces(s, ip, task, reason, now);
    AcceptReports(s, ip, task, reason, now);
    AcceptProgress(s, ip, task, reason, now);
    AcceptWindows(s, ip, task, reason, now);
  }

  // ---------- steps of one agent ----------

  /** The server and every other agent see nothing of a change inside one agent. */
  lemma AgentChangeKeepsInv(s: System, s': System, ip: Ip)
    requires Inv(s)
    requires s' == s.(agents := s'.agents, executed := s'.executed)
    requires forall other :: other != ip ==>
      AgentAt(s', other) == AgentAt(s, other) && At(s'.executed, other) == At(s.executed, other)
    requires AgentFifoAt(s', ip) && AgentProgress(s', ip)
    requires forall id :: Holds(AgentAt(s', ip), id) ==> Holds(AgentAt(s, ip), id)
    ensures Inv(s')
  {
    forall other ensures FifoAt(s', other) { assert FifoAt(s, other); }
    forall other ensures AgentFifoAt(s', other) && AgentProgress(s', other) {
      assert AgentFifoAt(s, other) && AgentProgress(s, other);
    }
    forall id ensures PlaceOf(s', id) && StatusShown(s', id) && Queued(s', id) == Queued(s, id) {
      assert PlaceOf(s, id) && StatusShown(s, id);
    }
    WindowsFrame(s, s');
  }

  /** An agent that forgets the end of its backlog, or its current task. */
  lemma ForgetKeepsInv(s: System, ip: Ip, a: Agent)
    requires Inv(s)
    requires Backlog(a) <= Backlog(AgentAt(s, ip)) && |a.queue| <= MAX_TASK_QUEUE_SIZE
    requires a.current == AgentAt(s, ip).current || a.current.Idle?
    ensures Inv(WithAgent(s, ip, a))
  {
    assert AgentFifoAt(s, ip) && AgentProgress(s, ip);
    ForgetFifo(s, ip, a);
    assert forall id :: id in Backlog(a) ==> id in Backlog(AgentAt(s, ip));
    AgentChangeKeepsInv(s, WithAgent(s, ip, a), ip);
  }

  lemma ForgetFifo(s: System, ip: Ip, a: Agent)
    requires AgentFifoAt(s, ip)
    requires Backlog(a) <= Backlog(AgentAt(s, ip)) && |a.queue| <= MAX_TASK_QUEUE_SIZE
    requires a.current == AgentAt(s, ip).current || a.current.Idle?
    ensures AgentFifoAt(WithAgent(s, ip, a), ip)
    ensures forall id :: Holds(a, id) ==> Holds(AgentAt(s, ip), id)
  {
    var s', old_ := WithAgent(s, ip, a), AgentAt(s, ip);
    assert AgentAt(s', ip) == a && forall id :: id in Backlog(a) ==> id in Backlog(old_);
    assert Ordered(s'.accepted, At(s'.executed, ip) + Backlog(a), ip) by {
      OrderedPrefix(s.accepted, At(s.executed, ip), Backlog(old_), Backlog(a), ip);
    }
  }

  lemma OrderedPrefix(acc: map<TaskId, Acceptance>, a: seq<TaskId>, b: seq<TaskId>, b': seq<TaskId>, ip: Ip)
    requires Ordered(acc, a + b, ip) && b' <= b
    ensures Ordered(acc, a + b', ip)
  {
    assert forall i :: 0 <= i < |a + b'| ==> (a + b')[i] == (a + b)[i];
  }

  function Skipped(s: System, ip: Ip): System
    requires AgentAt(s, ip).queue != []
  {
    var a := AgentAt(s, ip);
    WithAgent(s, ip, a.(queue := a.queue[1..]))
  }

  lemma BacklogCons(a: Agent, a': Agent)
    requires a.queue != [] && a'.queue == a.queue[1..] && a'.inbox == a.inbox
    ensures Backlog(a) == [a.queue[0].taskId] + Backlog(a')
  {
    assert a.queue == [a.queue[0]] + a'.queue;
    IdsCons(a.queue[0], a'.queue);
  }

  lemma SkipFifo(s: System, ip: Ip)
    requires AgentFifoAt(s, ip) && AgentAt(s, ip).queue != []
    ensures AgentFifoAt(Skipped(s, ip), ip)
    ensures forall id :: Holds(AgentAt(Skipped(s, ip), ip), id) ==> Holds(AgentAt(s, ip), id)
  {
    var a := AgentAt(s, ip);
    var a' := a.(queue := a.queue[1..]);
    BacklogCons(a, a');
    Assoc(At(s.executed, ip), [a.queue[0].taskId], Backlog(a'));
    OrderedDrop(s.accepted, At(s.executed, ip), a.queue[0].taskId, Backlog(a'), ip);
  }

  lemma SkipAgent(s: System, ip: Ip)
    requires AgentFifoAt(s, ip) && AgentProgress(s, ip) && AgentAt(s, ip).queue != []
    ensures AgentFifoAt(Skipped(s, ip), ip) && AgentProgress(Skipped(s, ip), ip)
    ensures forall id :: Holds(AgentAt(Skipped(s, ip), ip), id) ==> Holds(AgentAt(s, ip), id)
  {
    SkipFifo(s, ip);
    BacklogCons(AgentAt(s, ip), AgentAt(Skipped(s, ip), ip));
  }

  /** An agent that forgets the front of its queue. */
  lemma SkipKeepsInv(s: System, ip: Ip)
    requires Inv(s) && AgentAt(s, ip).queue != []
    ensures Inv(Skipped(s, ip))
  {
    assert AgentFifoAt(s, ip) && AgentProgress(s, ip);
    SkipAgent(s, ip);
    AgentChangeKeepsInv(s, Skipped(s, ip), ip);
  }

  lemma BeginFifo(s: System, ip: Ip)
    requires AgentFifoAt(s, ip) && Enabled(s, Begin(ip))
    ensures AgentFifoAt(Next(s, Begin(ip)), ip)
    ensures forall id :: Holds(AgentAt(Next(s, Begin(ip)), ip), id) ==> Holds(AgentAt(s, ip), id)
  {
    var a, s' := AgentAt(s, ip), Next(s, Begin(ip));
    var a', id := AgentAt(s', ip), a.queue[0].taskId;
    BacklogCons(a, a');
    Assoc(At(s.executed, ip), [id], Backlog(a'));
    assert Backlog(a)[0] == id && Holds(a, id);
  }

  lemma BeginAgent(s: System, ip: Ip)
    requires AgentFifoAt(s, ip) && AgentProgress(s, ip) && Enabled(s, Begin(ip))
    ensures AgentFifoAt(Next(s, Begin(ip)), ip) && AgentProgress(Next(s, Begin(ip)), ip)
    ensures forall id :: Holds(AgentAt(Next(s, Begin(ip)), ip), id) ==> Holds(AgentAt(s, ip), id)
  {
    BeginFifo(s, ip);
    var a := AgentAt(s, ip);
    BacklogCons(a, AgentAt(Next(s, Begin(ip)), ip));
    assert Backlog(a)[0] == a.queue[0].taskId;
  }

  lemma BeginKeepsInv(s: System, ip: Ip)
    requires Inv(s) && Enabled(s, Begin(ip))
    ensures Inv(Next(s, Begin(ip)))
  {
    assert AgentFifoAt(s, ip) && AgentProgress(s, ip);
    BeginAgent(s, ip);
    AgentChangeKeepsInv(s, Next(s, Begin(ip)), ip);
  }

  lemma ReceiveKeepsInv(s: System, ip: Ip)
    requires Inv(s) && Enabled(s, Receive(ip))
    ensures Inv(Next(s, Receive(ip)))
  {
    var a := AgentAt(s, ip);
    assert AgentFifoAt(s, ip);
    assert Ids(a.queue + [a.inbox.value]) == Ids(a.queue) + [a.inbox.value.taskId];
    ForgetKeepsInv(s, ip, AgentAt(Next(s, Receive(ip)), ip));
  }

  // ---------- dispatch ----------

  /** The front of the queue moves to the end of what was dispatched. */
  lemma DispatchMoves(s: System, ip: Ip, now: int)
    requires At(s.server.queues, ip) != []
    ensures var s', q := Dispatch(s, ip, now), At(s.server.queues, ip);
      && At(s'.dispatched, ip) == At(s.dispatched, ip) + [q[0].taskId]
      && Ids(q) == [q[0].taskId] + Ids(At(s'.server.queues, ip))
      && At(s'.dispatched, ip) + Ids(At(s'.server.queues, ip)) == At(s.dispatched, ip) + Ids(q)
  {
    var s', q := Dispatch(s, ip, now), At(s.server.queues, ip);
    IdsCons(q[0], At(s'.server.queues, ip));
    Assoc(At(s.dispatched, ip), [q[0].taskId], Ids(At(s'.server.queues, ip)));
  }

  lemma DispatchFifoAt(s: System, ip: Ip, now: int, other: Ip)
    requires FifoAt(s, other)
    ensures FifoAt(Dispatch(s, ip, now), other)
  {
    if At(s.server.queues, ip) != [] { DispatchMoves(s, ip, now); }
  }

  lemma DispatchFifo(s: System, ip: Ip, now: int)
    requires ServerFifo(s)
    ensures ServerFifo(Dispatch(s, ip, now))
  {
    forall other ensures FifoAt(Dispatch(s, ip, now), other) {
      assert FifoAt(s, other);
      DispatchFifoAt(s, ip, now, other);
    }
  }

  /** The task dispatched next was accepted after everything the agent has had. */
  lemma DispatchedIsLater(s: System, ip: Ip, i: nat)
    requires FifoAt(s, ip) && AgentFifoAt(s, ip) && At(s.server.queues, ip) != []
    requires i < |At(s.executed, ip) + Backlog(AgentAt(s, ip))|
    ensures var done, id := At(s.executed, ip) + Backlog(AgentAt(s, ip)), At(s.server.queues, ip)[0].taskId;
      && id in s.accepted && s.accepted[id].ip == ip
      && done[i] in s.accepted && s.accepted[done[i]].ticket < s.accepted[id].ticket
  {
    var done, d, q := At(s.executed, ip) + Backlog(AgentAt(s, ip)), At(s.dispatched, ip), Ids(At(s.server.queues, ip));
    assert (d + q)[|d|] == q[0];
    assert done[i] in At(s.executed, ip) || Holds(AgentAt(s, ip), done[i]);
    var k :| 0 <= k < |d| && d[k] == done[i];
    assert (d + q)[k] == d[k];
  }

  lemma DispatchAgentFifoAt(s: System, ip: Ip, now: int)
    requires FifoAt(s, ip) && AgentFifoAt(s, ip) && AgentAt(s, ip).inbox.None? && At(s.server.queues, ip) != []
    ensures AgentFifoAt(Dispatch(s, ip, now), ip)
  {
    var s', id := Dispatch(s, ip, now), At(s.server.queues, ip)[0].taskId;
    var done := At(s.executed, ip) + Backlog(AgentAt(s, ip));
    assert (At(s.dispatched, ip) + Ids(At(s.server.queues, ip)))[|At(s.dispatched, ip)|] == id;
    forall i | 0 <= i < |done| ensures s.accepted[done[i]].ticket < s.accepted[id].ticket { DispatchedIsLater(s, ip, i); }
    OrderedSnoc(s.accepted, done, id, ip);
    assert Backlog(AgentAt(s', ip)) == Backlog(AgentAt(s, ip)) + [id];
    Assoc(At(s.executed, ip), Backlog(AgentAt(s, ip)), [id]);
  }

  /** A heartbeat changes nothing at other agents, nor anything if no task is queued. */
  lemma DispatchLeaves(s: System, ip: Ip, now: int, other: Ip)
    requires AgentFifoAt(s, other) && (other != ip || At(s.server.queues, ip) == [])
    ensures AgentFifoAt(Dispatch(s, ip, now), other)
  {
  }

  lemma DispatchAgentFifo(s: System, ip: Ip, now: int)
    requires ServerFifo(s) && AgentFifo(s) && AgentAt(s, ip).inbox.None?
    ensures AgentFifo(Dispatch(s, ip, now))
  {
    forall other ensures AgentFifoAt(Dispatch(s, ip, now), other) {
      assert AgentFifoAt(s, other) && FifoAt(s, ip);
      if other == ip && At(s.server.queues, ip) != [] {
        DispatchAgentFifoAt(s, ip, now);
      } else {
        DispatchLeaves(s, ip, now, other);
      }
    }
  }

  lemma DispatchQueued(s: System, ip: Ip, now: int, x: TaskId)
    requires ServerFifo(s) && At(s.server.queues, ip) != []
    ensures Queued(Dispatch(s, ip, now), x) <==> Queued(s, x) && x != At(s.server.queues, ip)[0].taskId
  {
    var s', id := Dispatch(s, ip, now), At(s.server.queues, ip)[0].taskId;
    QueuedAt(s, ip, 0);
    DispatchMoves(s, ip, now);
    DispatchFifo(s, ip, now);
    DispatchedNotQueued(s', ip, id);
  }

  lemma DispatchTellsPlace(s: System, ip: Ip, now: int)
    requires ServerFifo(s) && StatusTellsPlace(s)
    ensures StatusTellsPlace(Dispatch(s, ip, now))
    ensures forall x :: Queued(Dispatch(s, ip, now), x) ==> Queued(s, x)
  {
    var s' := Dispatch(s, ip, now);
    if At(s.server.queues, ip) != [] {
      var id := At(s.server.queues, ip)[0].taskId;
      QueuedAt(s, ip, 0);
      forall x ensures PlaceOf(s', x) && (Queued(s', x) <==> Queued(s, x) && x != id) {
        DispatchQueued(s, ip, now, x);
        assert PlaceOf(s, x) && PlaceOf(s, id);
      }
    }
  }

  lemma DispatchPlaces(s: System, ip: Ip, now: int)
    requires ServerFifo(s) && StatusTellsPlace(s) && OverdueStaysOut(s)
    ensures StatusTellsPlace(Dispatch(s, ip, now)) && OverdueStaysOut(Dispatch(s, ip, now))
  {
    DispatchTellsPlace(s, ip, now);
    if At(s.server.queues, ip) != [] { QueuedAt(s, ip, 0); }
  }

  lemma DispatchProgress(s: System, ip: Ip, now: int)
    requires ServerFifo(s) && StatusTellsPlace(s) && ProgressShown(s) && AgentAt(s, ip).inbox.None?
    ensures ProgressShown(Dispatch(s, ip, now))
  {
    var s' := Dispatch(s, ip, now);
    if s' != s {
      var id := At(s.server.queues, ip)[0].taskId;
      QueuedAt(s, ip, 0);
      assert PlaceOf(s, id) && StatusShown(s, id);
      forall x ensures StatusShown(s', x) { assert StatusShown(s, x); }
      forall other ensures AgentProgress(s', other) { assert AgentProgress(s, other); }
    }
  }

  lemma DispatchReports(s: System, ip: Ip, now: int)
    requires ServerFifo(s) && ReportedOnce(s)
    ensures ReportedOnce(Dispatch(s, ip, now))
  {
    var s' := Dispatch(s, ip, now);
    if s' != s {
      var id := At(s.server.queues, ip)[0].taskId;
      QueuedAt(s, ip, 0);
      if id in s.reported { DispatchedNotQueued(s, s.accepted[id].ip, id); }
      forall other, x | Holds(AgentAt(s', other), x) ensures x !in s'.reported {
        assert x == id || Holds(AgentAt(s, other), x);
      }
    }
  }

  /** Queues, logs, agents and what they showed stay as they are. */
  ghost predicate SamePlaces(s: System, s': System) {
    && s'.server.queues == s.server.queues && s'.accepted == s.accepted && s'.clock == s.clock
    && s'.dispatched == s.dispatched && s'.executed == s.executed && s'.agents == s.agents
    && s'.progress == s.progress && s'.overdue == s.overdue
  }

  lemma FifoFrame(s: System, s': System)
    requires ServerFifo(s) && AgentFifo(s) && SamePlaces(s, s')
    ensures ServerFifo(s') && AgentFifo(s')
    ensures forall id :: Queued(s', id) == Queued(s, id) && Dispatched(s', id) == Dispatched(s, id)
  {
    forall ip ensures FifoAt(s', ip) { assert FifoAt(s, ip); }
    forall ip ensures AgentFifoAt(s', ip) { assert AgentFifoAt(s, ip); }
    forall id ensures Queued(s', id) == Queued(s, id) && Dispatched(s', id) == Dispatched(s, id) {}
  }

  lemma PlacesFrame(s: System, s': System)
    requires ServerFifo(s) && AgentFifo(s) && OverdueStaysOut(s) && SamePlaces(s, s')
    ensures ServerFifo(s') && AgentFifo(s') && OverdueStaysOut(s')
    ensures forall id :: Queued(s', id) == Queued(s, id) && Dispatched(s', id) == Dispatched(s, id)
  {
    FifoFrame(s, s');
  }

  lemma ProgressFrame(s: System, s': System)
    requires ProgressShown(s) && SamePlaces(s, s')
    requires forall id :: StatusShown(s, id) ==> StatusShown(s', id)
    ensures ProgressShown(s')
  {
    forall ip ensures AgentProgress(s', ip) { assert AgentProgress(s, ip); }
    forall id ensures StatusShown(s', id) { assert StatusShown(s, id); }
  }

  /** Nothing about tasks changes. */
  lemma TasksFrame(s: System, s': System)
    requires ServerFifo(s) && AgentFifo(s) && OverdueStaysOut(s) && StatusTellsPlace(s) && ReportedOnce(s) && ProgressShown(s)
    requires SamePlaces(s, s') && s'.server.states == s.server.states && s'.server.results == s.server.results
    requires s'.reported == s.reported
    ensures ServerFifo(s') && AgentFifo(s') && OverdueStaysOut(s') && StatusTellsPlace(s') && ReportedOnce(s') && ProgressShown(s')
  {
    PlacesFrame(s, s');
    ProgressFrame(s, s');
    forall id ensures PlaceOf(s', id) { assert PlaceOf(s, id); }
    assert forall ip :: AgentAt(s', ip) == AgentAt(s, ip);
  }

  /** Nothing about windows changes. */
  ghost predicate SameWindows(s: System, s': System) {
    && s'.server.windows == s.server.windows && s'.server.continuous == s.server.continuous
    && s'.accepted == s.accepted && s'.reported == s.reported && s'.stoppedAt == s.stoppedAt
  }

  lemma WindowsFrame(s: System, s': System)
    requires WindowsChain(s) && StopHolds(s) && SameWindows(s, s')
    ensures WindowsChain(s') && StopHolds(s')
  {
    forall id | id in s'.accepted && WindowId.ParentOf(id).Some?
      ensures WindowPlace(s', WindowId.ParentOf(id).value, id)
    {
      assert WindowPlace(s, WindowId.ParentOf(id).value, id);
    }
    forall p | p in s'.stoppedAt ensures StoppedParent(s', p) { assert StoppedParent(s, p); }
  }

  lemma DispatchKeepsInv(s: System, ip: Ip, now: int)
    requires Inv(s) && AgentAt(s, ip).inbox.None?
    ensures Inv(Dispatch(s, ip, now))
  {
    DispatchFifo(s, ip, now);
    DispatchAgentFifo(s, ip, now);
    DispatchPlaces(s, ip, now);
    DispatchProgress(s, ip, now);
    DispatchReports(s, ip, now);
    DispatchWindows(s, ip, now);
  }

  lemma DispatchWindows(s: System, ip: Ip, now: int)
    requires WindowsChain(s) && StopHolds(s)
    ensures WindowsChain(Dispatch(s, ip, now)) && StopHolds(Dispatch(s, ip, now))
  {
    WindowsFrame(s, Dispatch(s, ip, now));
  }

  // ---------- status reports ----------

  /** Begun tasks are not in the backlog, and no two agents have the same task. */
  lemma HolderIsUnique(s: System, ip: Ip, id: TaskId, other: Ip)
    requires ServerFifo(s) && AgentFifo(s) && Holds(AgentAt(s, ip), id)
    ensures Holds(AgentAt(s, other), id) ==> other == ip
    ensures id in At(s.executed, ip) ==> id !in Backlog(AgentAt(s, ip))
  {
    HeldIsDispatched(s, ip, id);
    if Holds(AgentAt(s, other), id) { HeldIsDispatched(s, other, id); }
    assert AgentFifoAt(s, ip);
    PartsApart(s.accepted, At(s.executed, ip), Backlog(AgentAt(s, ip)), ip, id);
  }

  lemma ReportProgress(s: System, step: Step)
    requires step.Report? && Enabled(s, step)
    requires ServerFifo(s) && AgentFifo(s) && ProgressShown(s)
    ensures ProgressShown(Next(s, step))
  {
    var s', ip := Next(s, step), step.ip;
    var id := AgentAt(s, ip).current.task.taskId;
    assert Holds(AgentAt(s, ip), id) && AgentFifoAt(s, ip) && AgentProgress(s, ip);
    forall x ensures StatusShown(s', x) { assert StatusShown(s, x); }
    forall other ensures AgentProgress(s', other) {
      assert AgentProgress(s, other);
      HolderIsUnique(s, ip, id, other);
      assert forall x :: x in Backlog(AgentAt(s, other)) ==> Holds(AgentAt(s, other), x);
    }
  }

  /** A dispatched task may change status freely as long as it does not become PENDING. */
  lemma StatusChangePlaces(s: System, s': System, id: TaskId)
    requires ServerFifo(s) && StatusTellsPlace(s) && Dispatched(s, id)
    requires s'.server.queues == s.server.queues && s'.accepted == s.accepted
    requires id in s'.server.states && !s'.server.states[id].status.PENDING?
    requires s'.server.states == s.server.states[id := s'.server.states[id]]
    requires s'.server.results.Keys <= s.server.results.Keys + {id}
    ensures StatusTellsPlace(s')
  {
    DispatchedNotQueued(s, s.accepted[id].ip, id);
    forall x ensures PlaceOf(s', x) { assert PlaceOf(s, x); }
  }

  lemma ReportHolds(s: System, step: Step, other: Ip)
    requires step.Report? && Enabled(s, step)
    ensures Backlog(AgentAt(Next(s, step), other)) == Backlog(AgentAt(s, other))
    ensures forall x :: Holds(AgentAt(Next(s, step), other), x) <==> Holds(AgentAt(s, other), x)
  {
  }

  lemma ReportFifo(s: System, step: Step)
    requires step.Report? && Enabled(s, step) && ServerFifo(s) && AgentFifo(s)
    ensures ServerFifo(Next(s, step)) && AgentFifo(Next(s, step))
  {
    var s' := Next(s, step);
    forall other ensures FifoAt(s', other) { assert FifoAt(s, other); }
    forall other ensures AgentFifoAt(s', other) {
      assert AgentFifoAt(s, other);
      ReportHolds(s, step, other);
    }
  }

  lemma ReportKeepsInv(s: System, step: Step)
    requires Inv(s) && step.Report? && Enabled(s, step)
    ensures Inv(Next(s, step))
  {
    var s', ip := Next(s, step), step.ip;
    var id := AgentAt(s, ip).current.task.taskId;
    HeldIsDispatched(s, ip, id);
    ReportProgress(s, step);
    StatusChangePlaces(s, s', id);
    ReportFifo(s, step);
    forall x ensures Queued(s', x) == Queued(s, x) && Dispatched(s', x) == Dispatched(s, x) {}
    forall other, x | Holds(AgentAt(s', other), x) ensures x !in s'.reported { ReportHolds(s, step, other); }
    WindowsFrame(s, s');
  }

  // ---------- results ----------

  /** Dispatched, not reported on, and no longer with any agent. */
  ghost predicate Free(s: System, id: TaskId) {
    Dispatched(s, id) && id !in s.reported && forall ip :: !Holds(AgentAt(s, ip), id)
  }

  /** The window reported on is its parent's next one. */
  lemma ReportedIsNext(s: System, id: TaskId)
    requires WindowsChain(s) && Free(s, id) && WindowId.ParentOf(id).Some?
    ensures var p := WindowId.ParentOf(id).value;
      && p in s.server.continuous && WindowId.SeqOf(id) == |At(s.server.windows, p)|
      && id == WindowId.Make(p, |At(s.server.windows, p)|)
  {
    assert WindowPlace(s, WindowId.ParentOf(id).value, id);
  }

  lemma SettleRecordsOf(s: System, r: TaskResult, now: int, wall: int, p: TaskId)
    requires p in s.server.continuous && RecordsNumbered(p, At(s.server.windows, p))
    requires WindowId.ParentOf(r.taskId) == Some(p) ==>
      var n := |At(s.server.windows, p)|;
      n < WindowId.INT32_MAX && WindowId.SeqOf(r.taskId) == n && r.taskId == WindowId.Make(p, n)
    ensures var w := At(Settle(s, r, now, wall).server.windows, p);
      && RecordsNumbered(p, w)
      && |w| == |At(s.server.windows, p)| + if WindowId.ParentOf(r.taskId) == Some(p) then 1 else 0
  {
  }

  lemma SettleRecords(s: System, r: TaskResult, now: int, wall: int)
    requires WindowsChain(s) && Free(s, r.taskId) && RoomForNext(s, r)
    ensures var s' := Settle(s, r, now, wall);
      && s'.server.continuous == s.server.continuous && s'.server.windows.Keys == s.server.windows.Keys
      && (forall p :: p in s.server.continuous ==>
            && RecordsNumbered(p, At(s'.server.windows, p))
            && |At(s'.server.windows, p)| == |At(s.server.windows, p)| +
                 if WindowId.ParentOf(r.taskId) == Some(p) then 1 else 0)
  {
    if WindowId.ParentOf(r.taskId).Some? { ReportedIsNext(s, r.taskId); }
    forall p | p in s.server.continuous
      ensures RecordsNumbered(p, At(Settle(s, r, now, wall).server.windows, p))
      ensures |At(Settle(s, r, now, wall).server.windows, p)| == |At(s.server.windows, p)| +
                if WindowId.ParentOf(r.taskId) == Some(p) then 1 else 0
    {
      SettleRecordsOf(s, r, now, wall, p);
    }
  }

  lemma SettleWindows(s: System, r: TaskResult, now: int, wall: int)
    requires WindowsChain(s) && Free(s, r.taskId) && RoomForNext(s, r)
    ensures WindowsChain(Settle(s, r, now, wall))
  {
    var s', id := Settle(s, r, now, wall), r.taskId;
    SettleRecords(s, r, now, wall);
    if WindowId.ParentOf(id).Some? { ReportedIsNext(s, id); }
    forall x | x in s'.accepted && WindowId.ParentOf(x).Some?
      ensures WindowPlace(s', WindowId.ParentOf(x).value, x)
    {
      assert WindowPlace(s, WindowId.ParentOf(x).value, x);
    }
  }

  lemma SettleStops(s: System, r: TaskResult, now: int, wall: int)
    requires WindowsChain(s) && StopHolds(s) && Free(s, r.taskId) && RoomForNext(s, r)
    ensures StopHolds(Settle(s, r, now, wall))
  {
    var s', id := Settle(s, r, now, wall), r.taskId;
    SettleRecords(s, r, now, wall);
    forall p | p in s'.stoppedAt ensures StoppedParent(s', p) {
      assert StoppedParent(s, p);
      if WindowId.ParentOf(id) == Some(p) {
        ReportedIsNext(s, id);
        NotYetAccepted(s, p);
      }
    }
  }

  /** The window after the next one was never accepted. */
  lemma NotYetAccepted(s: System, p: TaskId)
    requires WindowsChain(s) && p in s.server.continuous && |At(s.server.windows, p)| < WindowId.INT32_MAX
    ensures WindowId.Make(p, |At(s.server.windows, p)| + 1) !in s.accepted
  {
    var n := |At(s.server.windows, p)|;
    WindowId.ServerRoundTrip(p, n + 1);
    assert WindowId.Make(p, n + 1) in s.accepted ==> WindowPlace(s, p, WindowId.Make(p, n + 1));
  }

  lemma SettlePlaces(s: System, r: TaskResult, now: int, wall: int)
    requires ServerFifo(s) && AgentFifo(s) && StatusTellsPlace(s) && Dispatched(s, r.taskId)
    ensures var s' := Settle(s, r, now, wall);
      && ServerFifo(s') && AgentFifo(s') && StatusTellsPlace(s')
      && forall id :: Queued(s', id) == Queued(s, id) && Dispatched(s', id) == Dispatched(s, id)
  {
    var s' := Settle(s, r, now, wall);
    StatusChangePlaces(s, s', r.taskId);
    FifoFrame(s, s');
  }

  lemma SettleTasks(s: System, r: TaskResult, now: int, wall: int)
    requires ReportedOnce(s) && ProgressShown(s) && Free(s, r.taskId)
    ensures ReportedOnce(Settle(s, r, now, wall)) && ProgressShown(Settle(s, r, now, wall))
  {
    var s' := Settle(s, r, now, wall);
    ProgressFrame(s, s');
    assert forall other :: AgentAt(s', other) == AgentAt(s, other);
    assert forall id :: Dispatched(s', id) == Dispatched(s, id);
  }

  lemma SettleKeepsInv(s: System, r: TaskResult, now: int, wall: int)
    requires Inv(s) && Free(s, r.taskId) && RoomForNext(s, r)
    ensures Inv(Settle(s, r, now, wall))
  {
    SettlePlaces(s, r, now, wall);
    SettleTasks(s, r, now, wall);
    SettleWindows(s, r, now, wall);
    SettleStops(s, r, now, wall);
  }

  lemma NextWindowAcceptable(s: System, r: TaskResult, now: int, wall: int)
    requires Inv(s) && Free(s, r.taskId) && RoomForNext(s, r) && Chains(s, r)
    ensures var p := WindowId.ParentOf(r.taskId).value;
      Acceptable(Settle(s, r, now, wall), NextWindow(s.server, p, r).taskId)
  {
    var p := WindowId.ParentOf(r.taskId).value;
    ReportedIsNext(s, r.taskId);
    SettleRecords(s, r, now, wall);
    NotYetAccepted(s, p);
    WindowId.ServerRoundTrip(p, |At(s.server.windows, p)| + 1);
    assert forall id :: id in s.reported ==> id in s.accepted;
  }

  lemma DeliverKeepsInv(s: System, r: TaskResult, now: int, wall: int)
    requires Inv(s) && Free(s, r.taskId) && RoomForNext(s, r)
    ensures Inv(Deliver(s, r, now, wall))
  {
    SettleKeepsInv(s, r, now, wall);
    if Chains(s, r) {
      var p := WindowId.ParentOf(r.taskId).value;
      NextWindowAcceptable(s, r, now, wall);
      AcceptKeepsInv(Settle(s, r, now, wall), s.server.continuous[p].targetIp,
                     NextWindow(s.server, p, r), NEXT_WINDOW_REASON, now);
    }
  }

  /** The agent once it let go of the task it reports on. */
  function Released(s: System, step: Step): System
    requires (step.Finish? || step.Cancel?) && Enabled(s, step)
  {
    var a := AgentAt(s, step.ip);
    WithAgent(s, step.ip, if step.Finish? then a.(current := Idle) else a.(queue := a.queue[1..]))
  }

  lemma FinishFrees(s: System, step: Step)
    requires Inv(s) && step.Finish? && Enabled(s, step)
    ensures Inv(Released(s, step)) && Free(Released(s, step), step.result.taskId)
  {
    var ip, id := step.ip, step.result.taskId;
    var a := AgentAt(s, ip);
    assert Holds(a, id) && AgentFifoAt(s, ip);
    HeldIsDispatched(s, ip, id);
    ForgetKeepsInv(s, ip, a.(current := Idle));
    forall other ensures !Holds(AgentAt(Released(s, step), other), id) { HolderIsUnique(s, ip, id, other); }
  }

  lemma CancelFrees(s: System, step: Step)
    requires Inv(s) && step.Cancel? && Enabled(s, step)
    ensures Inv(Released(s, step)) && Free(Released(s, step), step.result.taskId)
  {
    var ip, id := step.ip, step.result.taskId;
    var a := AgentAt(s, ip);
    var a' := a.(queue := a.queue[1..]);
    BacklogCons(a, a');
    assert Backlog(a)[0] == id && Holds(a, id) && AgentFifoAt(s, ip);
    HeldIsDispatched(s, ip, id);
    SkipKeepsInv(s, ip);
    Assoc(At(s.executed, ip), [id], Backlog(a'));
    PartsApart(s.accepted, At(s.executed, ip) + [id], Backlog(a'), ip, id);
    forall other ensures !Holds(AgentAt(Released(s, step), other), id) { HolderIsUnique(s, ip, id, other); }
  }

  lemma ResultKeepsInv(s: System, step: Step)
    requires Inv(s) && (step.Finish? || step.Cancel?) && Enabled(s, step)
    ensures Inv(Released(s, step)) && Free(Released(s, step), step.result.taskId)
    ensures Inv(Next(s, step))
  {
    if step.Finish? { FinishFrees(s, step); } else { CancelFrees(s, step); }
    DeliverKeepsInv(Released(s, step), step.result, step.now, step.wall);
  }

  // ---------- cleanup ----------

  lemma IdOf(q: seq<TaskDesc>, id: TaskId)
    ensures id in Ids(q) <==> exists t :: t in q && t.taskId == id
  {
    if id in Ids(q) {
      var i :| 0 <= i < |q| && Ids(q)[i] == id;
      assert q[i] in q;
    }
    if t :| t in q && t.taskId == id {
      var i :| 0 <= i < |q| && q[i] == t;
      assert Ids(q)[i] == id;
    }
  }

  lemma CleanupQueued(s: System, timeoutSec: int, now: int, id: TaskId)
    ensures var s' := Next(s, Step.Cleanup(timeoutSec, now));
      Queued(s', id) <==> Queued(s, id) && id !in Expired(s.server.states, timeoutSec, now)
  {
    var s' := Next(s, Step.Cleanup(timeoutSec, now));
    var expired := Expired(s.server.states, timeoutSec, now);
    if id in s.accepted {
      var ip := s.accepted[id].ip;
      var q := At(s.server.queues, ip);
      WithoutAt(s.server.queues, expired, ip);
      WithoutMembers(q, expired);
      var q' := Without(q, expired);
      IdOf(q, id);
      IdOf(q', id);
    }
  }

  lemma CleanupPlaces(s: System, timeoutSec: int, now: int)
    requires StatusTellsPlace(s)
    ensures StatusTellsPlace(Next(s, Step.Cleanup(timeoutSec, now)))
  {
    var s' := Next(s, Step.Cleanup(timeoutSec, now));
    forall id ensures PlaceOf(s', id) {
      assert PlaceOf(s, id);
      CleanupQueued(s, timeoutSec, now, id);
    }
  }

  lemma CleanupOverdue(s: System, timeoutSec: int, now: int)
    requires ServerFifo(s) && StatusTellsPlace(s) && OverdueStaysOut(s)
    ensures OverdueStaysOut(Next(s, Step.Cleanup(timeoutSec, now)))
  {
    var s' := Next(s, Step.Cleanup(timeoutSec, now));
    forall id | id in s'.overdue ensures id in s'.accepted && !Queued(s', id) && !Dispatched(s', id) {
      assert PlaceOf(s, id);
      CleanupQueued(s, timeoutSec, now, id);
      if Dispatched(s, id) { DispatchedNotQueued(s, s.accepted[id].ip, id); }
    }
  }

  lemma CleanupFifo(s: System, timeoutSec: int, now: int)
    requires ServerFifo(s) && AgentFifo(s)
    ensures ServerFifo(Next(s, Step.Cleanup(timeoutSec, now))) && AgentFifo(Next(s, Step.Cleanup(timeoutSec, now)))
  {
    var s' := Next(s, Step.Cleanup(timeoutSec, now));
    var expired := Expired(s.server.states, timeoutSec, now);
    forall ip ensures FifoAt(s', ip) {
      assert FifoAt(s, ip);
      WithoutAt(s.server.queues, expired, ip);
      OrderedWithout(s.accepted, At(s.dispatched, ip), At(s.server.queues, ip), expired, ip);
    }
    forall ip ensures AgentFifoAt(s', ip) { assert AgentFifoAt(s, ip); }
  }

  lemma CleanupKeepsInv(s: System, timeoutSec: int, now: int)
    requires Inv(s)
    ensures Inv(Next(s, Step.Cleanup(timeoutSec, now)))
  {
    var s' := Next(s, Step.Cleanup(timeoutSec, now));
    CleanupPlaces(s, timeoutSec, now);
    CleanupOverdue(s, timeoutSec, now);
    CleanupFifo(s, timeoutSec, now);
    forall ip ensures AgentProgress(s', ip) { assert AgentProgress(s, ip); }
    forall id ensures StatusShown(s', id) && Dispatched(s', id) == Dispatched(s, id) { assert StatusShown(s, id); }
    assert forall ip :: AgentAt(s', ip) == AgentAt(s, ip);
    WindowsFrame(s, s');
  }

  // ---------- continuous profiling ----------

  lemma RegisterKeepsInv(s: System, c: ContinuousConfig)
    requires Inv(s) && c.parentTid !in s.server.continuous && c.parentTid != "" && c.running
    ensures Inv(Register(s, c))
  {
    var s' := Register(s, c);
    TasksFrame(s, s');
    forall id | id in s'.accepted && WindowId.ParentOf(id).Some?
      ensures WindowPlace(s', WindowId.ParentOf(id).value, id)
    {
      assert WindowPlace(s, WindowId.ParentOf(id).value, id);
    }
    forall p | p in s'.stoppedAt ensures StoppedParent(s', p) { assert StoppedParent(s, p); }
  }

  /** The first window of a new parent was never accepted. */
  lemma FirstWindowFresh(s: System, p: TaskId)
    requires WindowsChain(s) && p !in s.server.continuous && p != ""
    ensures WindowId.ParentOf(WindowId.Make(p, 0)) == Some(p) && WindowId.Make(p, 0) !in s.accepted
  {
    var first := WindowId.Make(p, 0);
    WindowId.ServerRoundTrip(p, 0);
    assert first in s.accepted ==> WindowPlace(s, p, first);
  }

  lemma StartKeepsInv(s: System, step: Step)
    requires Inv(s) && step.Start? && Enabled(s, step)
    ensures Inv(Next(s, step))
  {
    var p := ParentTid(step.ticks);
    var c := NewConfig(p, step.ip, step.pid, step.hz, step.windowSec, step.profilerType, step.callgraph, step.event);
    RegisterKeepsInv(s, c);
    FirstWindowFresh(s, p);
    assert WindowId.Make(p, 0) !in s.reported;
    AcceptKeepsInv(Register(s, c), step.ip, WindowTask(c, 0), "continuous first window created, waiting dispatch", step.now);
  }

  lemma StopWindows(s: System, parent: TaskId)
    requires WindowsChain(s) && StopHolds(s)
    ensures WindowsChain(Next(s, Step.Stop(parent))) && StopHolds(Next(s, Step.Stop(parent)))
  {
    StopChain(s, Next(s, Step.Stop(parent)), parent);
    StopStops(s, parent);
  }

  lemma StopStops(s: System, parent: TaskId)
    requires StopHolds(s)
    ensures StopHolds(Next(s, Step.Stop(parent)))
  {
    var s' := Next(s, Step.Stop(parent));
    forall p | p in s'.stoppedAt ensures StoppedParent(s', p) {
      if p in s.stoppedAt { assert StoppedParent(s, p); }
      StopParent(s, parent, p);
    }
  }

  lemma StopChain(s: System, s': System, parent: TaskId)
    requires WindowsChain(s) && s'.accepted == s.accepted && s'.reported == s.reported
    requires s'.server == DispatchServer.Stop(s.server, parent).0
    ensures WindowsChain(s')
  {
    forall id | id in s'.accepted && WindowId.ParentOf(id).Some?
      ensures WindowPlace(s', WindowId.ParentOf(id).value, id)
    {
      assert WindowPlace(s, WindowId.ParentOf(id).value, id);
    }
  }

  lemma StopParent(s: System, parent: TaskId, p: TaskId)
    requires p in Next(s, Step.Stop(parent)).stoppedAt && (p in s.stoppedAt ==> StoppedParent(s, p))
    ensures StoppedParent(Next(s, Step.Stop(parent)), p)
  {
  }

  lemma StopKeepsInv(s: System, parent: TaskId)
    requires Inv(s)
    ensures Inv(Next(s, Step.Stop(parent)))
  {
    TasksFrame(s, Next(s, Step.Stop(parent)));
    StopWindows(s, parent);
  }

  // ---------- every run ----------

  lemma InitialInv()
    ensures Inv(INITIAL)
  {
    forall ip ensures FifoAt(INITIAL, ip) && AgentFifoAt(INITIAL, ip) && AgentProgress(INITIAL, ip) {}
    forall id ensures PlaceOf(INITIAL, id) && StatusShown(INITIAL, id) {}
  }

  /** Every step of the protocol keeps the invariant. */
  lemma NextKeepsInv(s: System, step: Step)
    requires Inv(s) && Enabled(s, step)
    ensures Inv(Next(s, step))
  {
    match step
    case Push(ip, task, now) => AcceptKeepsInv(s, ip, task, "任务创建，等待派发", now);
    case Heartbeat(ip, now) => DispatchKeepsInv(s, ip, now);
    case Receive(ip) => ReceiveKeepsInv(s, ip);
    case LoseReply(ip) => assert AgentFifoAt(s, ip); ForgetKeepsInv(s, ip, AgentAt(s, ip).(inbox := None));
    case Begin(ip) => BeginKeepsInv(s, ip);
    case Report(_, _, _, _) => ReportKeepsInv(s, step);
    case Finish(_, _, _, _) => ResultKeepsInv(s, step);
    case Abandon(ip) => assert AgentFifoAt(s, ip); ForgetKeepsInv(s, ip, AgentAt(s, ip).(current := Idle));
    case Cancel(_, _, _, _) => ResultKeepsInv(s, step);
    case Crash(ip) => ForgetKeepsInv(s, ip, NEW_AGENT);
    case Cleanup(timeoutSec, now) => CleanupKeepsInv(s, timeoutSec, now);
    case Start(_, _, _, _, _, _, _, _, _) => StartKeepsInv(s, step);
    case Stop(parent) => StopKeepsInv(s, parent);
  }

  /** `trace` is the sequence of states passed through by taking `steps` from the start. */
  ghost predicate Run(trace: seq<System>, steps: seq<Step>) {
    && |trace| == |steps| + 1 && trace[0] == INITIAL
    && forall i :: 0 <= i < |steps| ==> StepAt(trace, steps, i)
  }

  ghost predicate StepAt(trace: seq<System>, steps: seq<Step>, i: nat)
    requires i < |steps| < |trace|
  {
    Enabled(trace[i], steps[i]) && trace[i + 1] == Next(trace[i], steps[i])
  }

  lemma {:induction false} RunKeepsInv(trace: seq<System>, steps: seq<Step>, i: nat)
    requires Run(trace, steps) && i < |trace|
    ensures Inv(trace[i])
  {
    if i == 0 {
      InitialInv();
    } else {
      RunKeepsInv(trace, steps, i - 1);
      assert StepAt(trace, steps, i - 1);
      NextKeepsInv(trace[i - 1], steps[i - 1]);
    }
  }
}
