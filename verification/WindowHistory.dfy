/** Continuous profiling from request to record: what the window tasks ask of the agent,
    and what the window records say of the results that were reported. */
module WindowHistory {
  import opened Text
  import opened DispatchServer
  import opened DispatchSystem
  import opened DispatchSafety
  import opened DispatchTheorems
  import WindowId

  // ---------- configurations ----------

  /** A parent's configuration is never lost, and only `running` changes. */
  ghost predicate Kept(c: map<TaskId, ContinuousConfig>, c': map<TaskId, ContinuousConfig>) {
    forall p :: p in c ==> p in c' && c'[p].(running := c[p].running) == c[p]
  }

  /** What `StartContinuousTask` was called with; no window length means five minutes. */
  ghost predicate AsRequested(c: ContinuousConfig, start: Step) {
    && start.Start? && c.parentTid == ParentTid(start.ticks)
    && c.targetIp == start.ip && c.pid == start.pid && c.hz == start.hz
    && c.windowSec == (if start.windowSec == 0 then 300 else start.windowSec)
    && c.profilerType == start.profilerType && c.callgraph == start.callgraph && c.event == start.event
  }

  lemma SameConfigs(s: System, step: Step)
    requires Enabled(s, step) && !step.Start? && !step.Stop?
    ensures Next(s, step).server.continuous == s.server.continuous
  {
    match step
    case Finish(_, r, now, wall) => DeliverConfigs(Released(s, step), r, now, wall);
    case Cancel(_, r, now, wall) => DeliverConfigs(Released(s, step), r, now, wall);
    case _ =>
  }

  lemma DeliverConfigs(s: System, r: TaskResult, now: int, wall: int)
    ensures Deliver(s, r, now, wall).server.continuous == s.server.continuous
  {
    assert Settle(s, r, now, wall).server.continuous == s.server.continuous;
  }

  function Requested(step: Step): ContinuousConfig
    requires step.Start?
  {
    NewConfig(ParentTid(step.ticks), step.ip, step.pid, step.hz, step.windowSec, step.profilerType, step.callgraph, step.event)
  }

  lemma StartConfigs(s: System, step: Step)
    requires step.Start? && Enabled(s, step)
    ensures Next(s, step).server.continuous == s.server.continuous[ParentTid(step.ticks) := Requested(step)]
    ensures AsRequested(Requested(step), step)
  {
    var c := Requested(step);
    AcceptEnqueues(Register(s, c), step.ip, WindowTask(c, 0), "continuous first window created, waiting dispatch", step.now);
  }

  lemma NextConfigs(s: System, step: Step)
    requires Enabled(s, step)
    ensures var c, c' := s.server.continuous, Next(s, step).server.continuous;
      && Kept(c, c')
      && (forall p :: p in c' && p !in c ==> step.Start? && p == ParentTid(step.ticks) && AsRequested(c'[p], step))
  {
    if step.Start? {
      StartConfigs(s, step);
    } else if !step.Stop? {
      SameConfigs(s, step);
    }
  }

  /** Over every run, a parent's configuration is what one call of `StartContinuousTask`
      asked for. */
  lemma {:induction false} ConfiguredAsRequested(trace: seq<System>, steps: seq<Step>, k: nat, p: TaskId) returns (i: nat)
    requires Run(trace, steps) && k < |trace| && p in trace[k].server.continuous
    ensures i < k && steps[i].Start? && ParentTid(steps[i].ticks) == p && AsRequested(trace[k].server.continuous[p], steps[i])
  {
    assert StepAt(trace, steps, k - 1);
    NextConfigs(trace[k - 1], steps[k - 1]);
    if p in trace[k - 1].server.continuous {
      i := ConfiguredAsRequested(trace, steps, k - 1, p);
    } else {
      i := k - 1;
    }
  }

  // ---------- what window tasks ask for ----------

  /** The task at agent `ip` collects one window of a parent as configured. */
  ghost predicate Collects(t: TaskDesc, ip: Ip, c: ContinuousConfig) {
    && ip == c.targetIp && t.taskType == 2 && t.profilerType == c.profilerType && t.timeoutSec == c.windowSec + 60
    && t.argv.hz == c.hz && t.argv.duration == c.windowSec && t.argv.windowSec == c.windowSec
    && t.argv.pid == c.pid && t.argv.callgraph == c.callgraph && t.argv.event == c.event
    && t.argv.parentTid == c.parentTid
  }

  ghost predicate Fits(configs: map<TaskId, ContinuousConfig>, ip: Ip, t: TaskDesc) {
    match WindowId.ParentOf(t.taskId)
    case None => true
    case Some(p) => p in configs && Collects(t, ip, configs[p])
  }

  /** Somewhere between the server's queue and the worker. */
  ghost predicate Has(s: System, ip: Ip, t: TaskDesc) {
    var a := AgentAt(s, ip);
    t in At(s.server.queues, ip) || a.inbox == Some(t) || t in a.queue || (a.current.Busy? && a.current.task == t)
  }

  ghost predicate FitsAt(s: System, ip: Ip) {
    forall t :: Has(s, ip, t) ==> Fits(s.server.continuous, ip, t)
  }

  ghost predicate AllFit(s: System) { forall ip :: FitsAt(s, ip) }

  lemma FitsKept(c: map<TaskId, ContinuousConfig>, c': map<TaskId, ContinuousConfig>, ip: Ip, t: TaskDesc)
    requires Fits(c, ip, t) && Kept(c, c')
    ensures Fits(c', ip, t)
  {
  }

  /** A step that moves tasks without giving any agent a new one. */
  lemma MovesKeepFits(s: System, s': System)
    requires AllFit(s) && Kept(s.server.continuous, s'.server.continuous)
    requires forall ip, t :: Has(s', ip, t) ==> Has(s, ip, t)
    ensures AllFit(s')
  {
    forall ip ensures FitsAt(s', ip) {
      assert FitsAt(s, ip);
      forall t | Has(s', ip, t) ensures Fits(s'.server.continuous, ip, t) {
        FitsKept(s.server.continuous, s'.server.continuous, ip, t);
      }
    }
  }

  lemma AcceptKeepsFits(s: System, at: Ip, task: TaskDesc, reason: string, now: int)
    requires AllFit(s) && Fits(s.server.continuous, at, task)
    ensures AllFit(Accept(s, at, task, reason, now))
  {
    var s' := Accept(s, at, task, reason, now);
    forall ip ensures FitsAt(s', ip) {
      assert FitsAt(s, ip);
      forall t | Has(s', ip, t) ensures Fits(s'.server.continuous, ip, t) {
        assert Has(s, ip, t) || (ip == at && t == task);
      }
    }
  }

  lemma WindowTaskFits(configs: map<TaskId, ContinuousConfig>, p: TaskId, n: int)
    requires p in configs && p != "" && configs[p].parentTid == p
    ensures Fits(configs, configs[p].targetIp, WindowTask(configs[p], n))
  {
    WindowId.ParentOfMake(p, n);
  }

  lemma SettleMoves(s: System, r: TaskResult, now: int, wall: int)
    ensures var s' := Settle(s, r, now, wall);
      s'.server.continuous == s.server.continuous && forall ip, t :: Has(s', ip, t) <==> Has(s, ip, t)
  {
  }

  lemma DeliverKeepsFits(s: System, r: TaskResult, now: int, wall: int)
    requires AllFit(s) && WindowsChain(s)
    ensures AllFit(Deliver(s, r, now, wall))
  {
    SettleMoves(s, r, now, wall);
    MovesKeepFits(s, Settle(s, r, now, wall));
    if Chains(s, r) {
      var p := WindowId.ParentOf(r.taskId).value;
      var c := s.server.continuous[p];
      assert c.(parentTid := p) == c;
      WindowTaskFits(s.server.continuous, p, WrapInt32(WindowId.SeqOf(r.taskId) + 1));
      AcceptKeepsFits(Settle(s, r, now, wall), c.targetIp, NextWindow(s.server, p, r), NEXT_WINDOW_REASON, now);
    }
  }

  lemma ResultKeepsFits(s: System, step: Step)
    requires AllFit(s) && WindowsChain(s) && (step.Finish? || step.Cancel?) && Enabled(s, step)
    ensures AllFit(Next(s, step))
  {
    MovesKeepFits(s, Released(s, step));
    DeliverKeepsFits(Released(s, step), step.result, step.now, step.wall);
  }

  lemma StartKeepsFits(s: System, step: Step)
    requires AllFit(s) && step.Start? && Enabled(s, step)
    ensures AllFit(Next(s, step))
  {
    var p, c := ParentTid(step.ticks), Requested(step);
    var s1 := Register(s, c);
    assert p[0] == 'c';
    MovesKeepFits(s, s1);
    WindowTaskFits(s1.server.continuous, p, 0);
    AcceptKeepsFits(s1, step.ip, WindowTask(c, 0), "continuous first window created, waiting dispatch", step.now);
  }

  /** An agent that has nothing but what it had. */
  lemma AgentKeepsFits(s: System, at: Ip, a: Agent, s': System)
    requires AllFit(s) && s'.agents == s.agents[at := a]
    requires s'.server.queues == s.server.queues && s'.server.continuous == s.server.continuous
    requires forall t :: a.inbox == Some(t) || t in a.queue || (a.current.Busy? && a.current.task == t) ==> Has(s, at, t)
    ensures AllFit(s')
  {
    forall ip, t | Has(s', ip, t) ensures Has(s, ip, t) {}
    MovesKeepFits(s, s');
  }

  lemma AgentStepKeepsFits(s: System, step: Step)
    requires AllFit(s) && Enabled(s, step)
    requires step.Receive? || step.LoseReply? || step.Begin? || step.Report? || step.Abandon? || step.Crash?
    ensures AllFit(Next(s, step))
  {
    AgentKeepsFits(s, step.ip, AgentAt(Next(s, step), step.ip), Next(s, step));
  }

  lemma StopKeepsFits(s: System, parent: TaskId)
    requires AllFit(s)
    ensures AllFit(Next(s, Step.Stop(parent)))
  {
    forall ip, t | Has(Next(s, Step.Stop(parent)), ip, t) ensures Has(s, ip, t) {}
    MovesKeepFits(s, Next(s, Step.Stop(parent)));
  }

  lemma CleanupKeepsFits(s: System, timeoutSec: int, now: int)
    requires AllFit(s)
    ensures AllFit(Next(s, Step.Cleanup(timeoutSec, now)))
  {
    var s' := Next(s, Step.Cleanup(timeoutSec, now));
    var expired := Expired(s.server.states, timeoutSec, now);
    forall ip, t | Has(s', ip, t) ensures Has(s, ip, t) {
      WithoutAt(s.server.queues, expired, ip);
      WithoutMembers(At(s.server.queues, ip), expired);
    }
    MovesKeepFits(s, s');
  }

  lemma HeartbeatKeepsFits(s: System, ip: Ip, now: int)
    requires AllFit(s) && AgentAt(s, ip).inbox.None?
    ensures AllFit(Dispatch(s, ip, now))
  {
    var s' := Dispatch(s, ip, now);
    if At(s.server.queues, ip) != [] {
      DispatchMoves(s, ip, now);
      MovesKeepFits(s, s');
    }
  }

  /** Every step leaves every agent with tasks that fit. */
  lemma NextKeepsFits(s: System, step: Step)
    requires AllFit(s) && WindowsChain(s) && Enabled(s, step)
    ensures AllFit(Next(s, step))
  {
    match step
    case Push(ip, task, now) => AcceptKeepsFits(s, ip, task, "任务创建，等待派发", now);
    case Heartbeat(ip, now) => HeartbeatKeepsFits(s, ip, now);
    case Finish(_, _, _, _) => ResultKeepsFits(s, step);
    case Cancel(_, _, _, _) => ResultKeepsFits(s, step);
    case Start(_, _, _, _, _, _, _, _, _) => StartKeepsFits(s, step);
    case Cleanup(timeoutSec, now) => CleanupKeepsFits(s, timeoutSec, now);
    case Stop(parent) => StopKeepsFits(s, parent);
    case _ => AgentStepKeepsFits(s, step);
  }

  lemma {:induction false} RunKeepsFits(trace: seq<System>, steps: seq<Step>, k: nat)
    requires Run(trace, steps) && k < |trace|
    ensures AllFit(trace[k])
  {
    if k > 0 {
      RunKeepsFits(trace, steps, k - 1);
      RunKeepsInv(trace, steps, k - 1);
      assert StepAt(trace, steps, k - 1);
      NextKeepsFits(trace[k - 1], steps[k - 1]);
    }
  }

  /** Over every run, a window task, wherever it is on its way, asks for what the call of
      `StartContinuousTask` for its parent asked for: the process, the rate, the
      profiler, the call graph, the event, one window's length, and a minute more. */
  lemma WindowTasksAsRequested(trace: seq<System>, steps: seq<Step>, k: nat, ip: Ip, t: TaskDesc, p: TaskId) returns (i: nat)
    requires Run(trace, steps) && k < |trace| && Has(trace[k], ip, t) && WindowId.ParentOf(t.taskId) == Some(p)
    ensures i < k && steps[i].Start? && ParentTid(steps[i].ticks) == p && ip == steps[i].ip
    ensures var length := if steps[i].windowSec == 0 then 300 else steps[i].windowSec;
      && t.taskType == 2 && t.profilerType == steps[i].profilerType && t.timeoutSec == length + 60
      && t.argv == SampleArgs(steps[i].hz, length, steps[i].pid, steps[i].callgraph, steps[i].event, length, p)
  {
    RunKeepsFits(trace, steps, k);
    assert FitsAt(trace[k], ip);
    i := ConfiguredAsRequested(trace, steps, k, p);
  }

  // ---------- what is recorded ----------

  /** The result of a window of `p` that a step reports. */
  function WindowResult(step: Step, p: TaskId): seq<Delivery> {
    if (step.Finish? || step.Cancel?) && WindowId.ParentOf(step.result.taskId) == Some(p)
    then [Delivery(step.result, step.now, step.wall)] else []
  }

  /** All results reported for windows of `p`, in order. */
  function WindowResults(steps: seq<Step>, p: TaskId): seq<Delivery> {
    if steps == [] then []
    else WindowResults(steps[..|steps| - 1], p) + WindowResult(steps[|steps| - 1], p)
  }

  /** The records of `p` are these results, one by one. */
  ghost predicate Recorded(server: ServerState, p: TaskId, ds: seq<Delivery>) {
    if p !in server.continuous then ds == [] && At(server.windows, p) == []
    else
      && |At(server.windows, p)| == |ds|
      && forall i :: 0 <= i < |ds| ==> RecordAt(At(server.windows, p), ds, i, server.continuous[p].windowSec)
  }

  ghost predicate RecordAt(records: seq<WindowRecord>, ds: seq<Delivery>, i: nat, windowSec: nat)
    requires i < |ds| == |records|
  {
    Describes(records[i], ds[i].result, ds[i].wall, windowSec)
  }

  lemma RecordedSnoc(server: ServerState, server': ServerState, p: TaskId, ds: seq<Delivery>, rec: WindowRecord, d: Delivery)
    requires Recorded(server, p, ds) && p in server.continuous && p in server'.continuous
    requires server'.continuous[p].windowSec == server.continuous[p].windowSec
    requires At(server'.windows, p) == At(server.windows, p) + [rec]
    requires Describes(rec, d.result, d.wall, server.continuous[p].windowSec)
    ensures Recorded(server', p, ds + [d])
  {
    var n := |ds|;
    forall i | 0 <= i < n + 1 ensures RecordAt(At(server'.windows, p), ds + [d], i, server'.continuous[p].windowSec) {
      if i < n { assert RecordAt(At(server.windows, p), ds, i, server.continuous[p].windowSec); }
    }
  }

  lemma NotifyRecorded(server: ServerState, p: TaskId, ds: seq<Delivery>, d: Delivery)
    requires Recorded(server, p, ds) && p in server.continuous
    ensures Recorded(Notify(server, d.result, d.now, d.wall), p,
                     if WindowId.ParentOf(d.result.taskId) == Some(p) then ds + [d] else ds)
  {
    var server' := Notify(server, d.result, d.now, d.wall);
    assert server'.continuous == server.continuous;
    if WindowId.ParentOf(d.result.taskId) == Some(p) {
      var rec := NotifyRecords(server, d.result, p, d.now, d.wall);
      RecordedSnoc(server, server', p, ds, rec, d);
    } else {
      NotifyElsewhere(server, d.result, p, d.now, d.wall);
    }
  }

  /** Only windows of known parents are reported on. */
  lemma ReportedParentKnown(s: System, step: Step, p: TaskId)
    requires Inv(s) && Enabled(s, step) && WindowResult(step, p) != []
    ensures p in s.server.continuous
  {
    var a, id := AgentAt(s, step.ip), step.result.taskId;
    if step.Cancel? { assert Backlog(a)[0] == id; }
    assert Holds(a, id);
    HeldIsDispatched(s, step.ip, id);
    assert WindowPlace(s, p, id);
  }

  lemma SameRecorded(server: ServerState, server': ServerState, p: TaskId, ds: seq<Delivery>)
    requires Recorded(server, p, ds) && Kept(server.continuous, server'.continuous)
    requires At(server'.windows, p) == At(server.windows, p)
    ensures Recorded(server', p, ds)
  {
    if p in server.continuous {
      forall i | 0 <= i < |ds| ensures RecordAt(At(server'.windows, p), ds, i, server'.continuous[p].windowSec) {
        assert RecordAt(At(server.windows, p), ds, i, server.continuous[p].windowSec);
      }
    }
  }

  lemma OtherWindows(s: System, step: Step, p: TaskId)
    requires Enabled(s, step) && !step.Finish? && !step.Cancel? && s.server.windows.Keys == s.server.continuous.Keys
    ensures At(Next(s, step).server.windows, p) == At(s.server.windows, p)
  {
    if step.Start? { StartWindows(s, step, p); }
  }

  lemma StartWindows(s: System, step: Step, p: TaskId)
    requires Enabled(s, step) && step.Start? && s.server.windows.Keys == s.server.continuous.Keys
    ensures At(Next(s, step).server.windows, p) == At(s.server.windows, p)
  {
    var c := Requested(step);
    AcceptEnqueues(Register(s, c), step.ip, WindowTask(c, 0), "continuous first window created, waiting dispatch", step.now);
  }

  lemma ResultRecorded(s: System, step: Step, p: TaskId, ds: seq<Delivery>)
    requires (step.Finish? || step.Cancel?) && Enabled(s, step) && Recorded(s.server, p, ds)
    requires WindowResult(step, p) != [] ==> p in s.server.continuous
    ensures Recorded(Next(s, step).server, p, ds + WindowResult(step, p))
  {
    NextRunsTheServer(s, step);
    assert ds + [] == ds;
    if p in s.server.continuous {
      NotifyRecorded(s.server, p, ds, Delivery(step.result, step.now, step.wall));
    } else {
      SameConfigs(s, step);
      NotifyLeaves(s.server, step.result, step.now, step.wall, p);
    }
  }

  lemma NotifyLeaves(server: ServerState, r: TaskResult, now: int, wall: int, p: TaskId)
    requires WindowId.ParentOf(r.taskId) != Some(p) || p !in server.continuous
    ensures At(Notify(server, r, now, wall).windows, p) == At(server.windows, p)
  {
  }

  lemma NextRecorded(s: System, step: Step, p: TaskId, ds: seq<Delivery>)
    requires Enabled(s, step) && Recorded(s.server, p, ds) && s.server.windows.Keys == s.server.continuous.Keys
    requires WindowResult(step, p) != [] ==> p in s.server.continuous
    requires step.Start? && ParentTid(step.ticks) == p ==> ds == []
    ensures Recorded(Next(s, step).server, p, ds + WindowResult(step, p))
  {
    assert ds + [] == ds;
    if step.Finish? || step.Cancel? {
      ResultRecorded(s, step, p, ds);
    } else {
      NextConfigs(s, step);
      OtherWindows(s, step, p);
      SameRecorded(s.server, Next(s, step).server, p, ds);
    }
  }

  /** Over every run, a parent's records are exactly the results reported for its windows,
      in order: record `i` has status 1 if and only if the `i`-th result had no error, its
      artefact key, and ends when it arrived. */
  lemma {:induction false} RecordsTellResults(trace: seq<System>, steps: seq<Step>, k: nat, p: TaskId)
    requires Run(trace, steps) && k < |trace|
    ensures Recorded(trace[k].server, p, WindowResults(steps[..k], p))
  {
    if k > 0 {
      RecordsTellResults(trace, steps, k - 1, p);
      StepRecorded(trace, steps, k - 1, p, WindowResults(steps[..k - 1], p));
      assert steps[..k][..k - 1] == steps[..k - 1];
    }
  }

  lemma StepRecorded(trace: seq<System>, steps: seq<Step>, k: nat, p: TaskId, ds: seq<Delivery>)
    requires Run(trace, steps) && k < |steps| && Recorded(trace[k].server, p, ds)
    ensures Recorded(trace[k + 1].server, p, ds + WindowResult(steps[k], p))
  {
    RunKeepsInv(trace, steps, k);
    assert StepAt(trace, steps, k);
    if WindowResult(steps[k], p) != [] { ReportedParentKnown(trace[k], steps[k], p); }
    NextRecorded(trace[k], steps[k], p, ds);
  }
}
