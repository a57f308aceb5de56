/** drop_server: per-agent queues, task states, the result cache and the chained
    windows of continuous profiling. Every operation runs under one mutex, so each
    is one atomic step: a function on `ServerState` says what the step does and the
    class `HotmethodService` performs it on mutable fields. */
module DispatchServer {
  import opened Text
  import WindowId

  type TaskId = string
  type Ip = string

  const MAX_TASK_QUEUE_SIZE: nat := 100
  const NANOS_PER_SEC: int := 1_000_000_000
  const TTL_SEC: int := 3600

  datatype TaskStatus = PENDING | DISPATCHED | RUNNING | UPLOADING | DONE | FAILED | TIMEOUT {
    predicate Waiting() { PENDING? || DISPATCHED? }
    predicate Terminal() { DONE? || FAILED? || TIMEOUT? }
  }

  /** The wire code of a status. */
  function Code(status: TaskStatus): int {
    match status
    case PENDING => 0 case DISPATCHED => 1 case RUNNING => 2 case UPLOADING => 3
    case DONE => 4 case FAILED => 5 case TIMEOUT => 6
  }

  /** The status an UpdateTaskStatus request names; unknown codes mean RUNNING. */
  function FromProto(code: int): TaskStatus {
    match code
    case 0 => PENDING
    case 1 => DISPATCHED
    case 2 => RUNNING
    case 3 => UPLOADING
    case 4 => DONE
    case 5 => FAILED
    case 6 => TIMEOUT
    case _ => RUNNING
  }

  /** The code shown to pollers: dispatched counts as pending, timeout as failed. */
  function PublicCode(status: TaskStatus): int {
    match status
    case DISPATCHED => Code(PENDING)
    case TIMEOUT => Code(FAILED)
    case _ => Code(status)
  }

  /** The wire codes are 0 to 6, one for each status, and no other code is a status. */
  lemma CodesAreWireCodes(status: TaskStatus, code: int)
    ensures FromProto(Code(status)) == status && 0 <= Code(status) <= 6
    ensures 0 <= code <= 6 ==> Code(FromProto(code)) == code
    ensures code < 0 || code > 6 ==> FromProto(code).RUNNING?
    ensures Code(PENDING) < Code(DISPATCHED) < Code(RUNNING) < Code(UPLOADING) < Code(DONE) < Code(FAILED) < Code(TIMEOUT)
    ensures FromProto(2).RUNNING? && FromProto(3).UPLOADING?
  {
  }

  /** Pollers are shown the wire code, except that a dispatched task is still pending and a
      timed-out one failed. */
  lemma ShownCodes(status: TaskStatus)
    ensures match PublicCode(status)
      case 0 => status.PENDING? || status.DISPATCHED?
      case 2 => status.RUNNING?
      case 3 => status.UPLOADING?
      case 4 => status.DONE?
      case 5 => status.FAILED? || status.TIMEOUT?
      case _ => false
  {
  }

  datatype SampleArgs = SampleArgs(hz: nat, duration: nat, pid: int, callgraph: string,
                                   event: string, windowSec: nat, parentTid: string)

  datatype TaskDesc = TaskDesc(taskId: TaskId, taskType: nat, profilerType: nat,
                               timeoutSec: nat, argv: SampleArgs)

  /** `timestamp` is a steady-clock reading in nanoseconds. */
  datatype TaskState = TaskState(status: TaskStatus, reason: string, timestamp: int)

  datatype EmbeddedFile = EmbeddedFile(name: string, content: seq<bv8>)

  datatype TaskResult = TaskResult(taskId: TaskId, errorMessage: string, cosKey: string,
                                   file: Option<EmbeddedFile>)

  datatype ContinuousConfig =
    ContinuousConfig(parentTid: TaskId, targetIp: Ip, pid: int, hz: nat, windowSec: nat,
                     profilerType: nat, callgraph: string, event: string, running: bool)

  datatype WindowRecord = WindowRecord(windowTid: TaskId, seqNo: int, startTime: int,
                                       endTime: int, status: int, cosKey: string)

  datatype ServerState = ServerState(
    queues: map<Ip, seq<TaskDesc>>,
    results: map<TaskId, TaskResult>,
    states: map<TaskId, TaskState>,
    continuous: map<TaskId, ContinuousConfig>,
    windows: map<TaskId, seq<WindowRecord>>)

  const EMPTY_SERVER := ServerState(map[], map[], map[], map[], map[])

  /** `operator[]` of a map of sequences: a missing key reads as empty. */
  function At<K, V>(m: map<K, seq<V>>, k: K): seq<V> {
    if k in m then m[k] else []
  }

  /** No stored queue is empty or over the limit. */
  predicate QueuesBounded(queues: map<Ip, seq<TaskDesc>>) {
    forall ip :: ip in queues ==> 1 <= |queues[ip]| <= MAX_TASK_QUEUE_SIZE
  }

  /** A bounded queue drops what is offered when it is full. */
  function Offer(queue: seq<TaskDesc>, task: TaskDesc): seq<TaskDesc> {
    if |queue| >= MAX_TASK_QUEUE_SIZE then queue else queue + [task]
  }

  // ---------- the steps ----------

  function SetStatus(s: ServerState, id: TaskId, status: TaskStatus, reason: string, now: int): ServerState {
    s.(states := s.states[id := TaskState(status, reason, now)])
  }

  /** Append to the agent's queue and mark PENDING, unless the queue is full. */
  function Enqueue(s: ServerState, ip: Ip, task: TaskDesc, reason: string, now: int): (r: (ServerState, bool))
    ensures r.1 <==> |At(s.queues, ip)| < MAX_TASK_QUEUE_SIZE
    ensures !r.1 ==> r.0 == s
    ensures r.1 ==> At(r.0.queues, ip) == At(s.queues, ip) + [task]
    ensures forall other :: other != ip ==> At(r.0.queues, other) == At(s.queues, other)
  {
    var q := At(s.queues, ip);
    if |q| >= MAX_TASK_QUEUE_SIZE then (s, false)
    else (SetStatus(s.(queues := s.queues[ip := q + [task]]), task.taskId, PENDING, reason, now), true)
  }

  /** A task is refused exactly when a hundred are waiting, and an agent drops one exactly
      then; the others go to the end. */
  lemma HundredWait(s: ServerState, ip: Ip, task: TaskDesc, reason: string, now: int, queue: seq<TaskDesc>)
    ensures !Enqueue(s, ip, task, reason, now).1 <==> |At(s.queues, ip)| >= 100
    ensures Offer(queue, task) == queue <==> |queue| >= 100
    ensures |queue| < 100 ==> Offer(queue, task)[..|queue|] == queue && Offer(queue, task)[|queue|] == task
  {
    assert |queue + [task]| != |queue|;
  }

  function Push(s: ServerState, ip: Ip, task: TaskDesc, now: int): (ServerState, bool) {
    Enqueue(s, ip, task, "任务创建，等待派发", now)
  }

  function Pop(s: ServerState, ip: Ip, now: int): (r: (ServerState, Option<TaskDesc>))
    ensures r.1.None? <==> At(s.queues, ip) == []
    ensures r.1.None? ==> r.0 == s
    ensures r.1.Some? ==> At(s.queues, ip) == [r.1.value] + At(r.0.queues, ip)
    ensures forall other :: other != ip ==> At(r.0.queues, other) == At(s.queues, other)
  {
    var q := At(s.queues, ip);
    if q == [] then (s, None)
    else
      var rest := if |q| == 1 then s.queues - {ip} else s.queues[ip := q[1..]];
      (SetStatus(s.(queues := rest), q[0].taskId, DISPATCHED, "任务已派发给 Agent " + ip, now), Some(q[0]))
  }

  /** The collection task of window number `n`. */
  function WindowTask(c: ContinuousConfig, n: int): TaskDesc {
    TaskDesc(WindowId.Make(c.parentTid, n), 2, c.profilerType, c.windowSec + 60,
             SampleArgs(c.hz, c.windowSec, c.pid, c.callgraph, c.event, c.windowSec, c.parentTid))
  }

  function WrapInt32(n: int): int {
    if n > WindowId.INT32_MAX then n - 0x1_0000_0000 else n
  }

  const DONE_REASON := "采集完成"

  function StoreResult(s: ServerState, r: TaskResult, now: int): ServerState {
    var (status, reason) :=
      if r.errorMessage == "" then (DONE, DONE_REASON) else (FAILED, "采集失败: " + r.errorMessage);
    SetStatus(s, r.taskId, status, reason, now).(results := s.results[r.taskId := r])
  }

  /** Append the record of a finished window. `wall` is the wall clock in seconds. */
  function RecordWindow(s: ServerState, parent: TaskId, r: TaskResult, wall: int): ServerState
    requires WindowId.ParentOf(r.taskId) == Some(parent) && parent in s.continuous
  {
    var rec := WindowRecord(r.taskId, WindowId.SeqOf(r.taskId), wall - s.continuous[parent].windowSec, wall,
                            if r.errorMessage == "" then 1 else 2, r.cosKey);
    s.(windows := s.windows[parent := At(s.windows, parent) + [rec]])
  }

  /** The window that follows the one `r` reports on. */
  function NextWindow(s: ServerState, parent: TaskId, r: TaskResult): TaskDesc
    requires WindowId.ParentOf(r.taskId) == Some(parent) && parent in s.continuous
  {
    WindowTask(s.continuous[parent].(parentTid := parent), WrapInt32(WindowId.SeqOf(r.taskId) + 1))
  }

  const NEXT_WINDOW_REASON := "continuous window created, waiting dispatch"

  /** Record the window and, while the parent is running, queue the next one. */
  function AdvanceWindows(s: ServerState, parent: TaskId, r: TaskResult, now: int, wall: int): ServerState
    requires WindowId.ParentOf(r.taskId) == Some(parent) && parent in s.continuous
  {
    var c, s1 := s.continuous[parent], RecordWindow(s, parent, r, wall);
    if !c.running then s1 else Enqueue(s1, c.targetIp, NextWindow(s, parent, r), NEXT_WINDOW_REASON, now).0
  }

  function Notify(s: ServerState, r: TaskResult, now: int, wall: int): ServerState {
    var s1 := StoreResult(s, r, now);
    match WindowId.ParentOf(r.taskId)
    case None => s1
    case Some(parent) => if parent in s1.continuous then AdvanceWindows(s1, parent, r, now, wall) else s1
  }

  // ---------- cleanup ----------

  /** Whole seconds from `then` to `now`, truncated toward zero. */
  function Elapsed(now: int, then_: int): int {
    var d := now - then_;
    if d >= 0 then d / NANOS_PER_SEC else -((-d) / NANOS_PER_SEC)
  }

  predicate Expires(t: TaskState, timeoutSec: int, now: int) {
    t.status.Waiting() && Elapsed(now, t.timestamp) > timeoutSec
  }

  function Expire(t: TaskState, now: int): TaskState {
    TaskState(FAILED,
              if t.status.PENDING? then "任务等待超时，Agent 未拉取或不存在" else "任务派发超时，Agent 未开始执行",
              now)
  }

  predicate Stale(t: TaskState, now: int) {
    t.status.Terminal() && Elapsed(now, t.timestamp) > TTL_SEC
  }

  function Expired(states: map<TaskId, TaskState>, timeoutSec: int, now: int): set<TaskId> {
    set id | id in states && Expires(states[id], timeoutSec, now)
  }

  /** `states` with the tasks in `failed` marked FAILED. */
  function FailAll(states: map<TaskId, TaskState>, failed: set<TaskId>, now: int): map<TaskId, TaskState> {
    map id | id in states :: if id in failed then Expire(states[id], now) else states[id]
  }

  function StaleIds(states: map<TaskId, TaskState>, now: int): set<TaskId> {
    set id | id in states && Stale(states[id], now)
  }

  function Without(q: seq<TaskDesc>, ids: set<TaskId>): (r: seq<TaskDesc>)
    ensures |r| <= |q|
  {
    if q == [] then []
    else if q[0].taskId in ids then Without(q[1..], ids)
    else [q[0]] + Without(q[1..], ids)
  }

  /** Every queue without the named tasks; a queue left empty is dropped. */
  function WithoutTasks(queues: map<Ip, seq<TaskDesc>>, ids: set<TaskId>): map<Ip, seq<TaskDesc>> {
    map ip | ip in queues && Without(queues[ip], ids) != [] :: Without(queues[ip], ids)
  }

  function Cleanup(s: ServerState, timeoutSec: int, now: int): ServerState {
    var expired := Expired(s.states, timeoutSec, now);
    var swept := FailAll(s.states, expired, now);
    var stale := StaleIds(swept, now);
    s.(queues := WithoutTasks(s.queues, expired), states := swept - stale, results := s.results - stale)
  }

  // ---------- continuous profiling ----------

  /** The parent id made from a steady-clock reading. */
  function ParentTid(ticks: nat): string {
    "cp_" + Decimal(ticks % 1_000_000)
  }

  /** Two parents get the same id exactly when their readings agree modulo one million, and
      a parent's id is never taken for a window's. */
  lemma ParentIds(a: nat, b: nat)
    ensures ParentTid(a) == ParentTid(b) <==> a % 1_000_000 == b % 1_000_000
    ensures "cp_" <= ParentTid(a) && WindowId.ParentOf(ParentTid(a)).None?
  {
    var m, n := a % 1_000_000, b % 1_000_000;
    DecimalRoundTrip(m);
    DecimalRoundTrip(n);
    if ParentTid(a) == ParentTid(b) { assert Decimal(m) == ParentTid(a)[3..] == ParentTid(b)[3..] == Decimal(n); }
    NoMarkWithoutW(ParentTid(a));
  }

  lemma NoMarkWithoutW(id: string)
    requires forall i :: 0 <= i < |id| ==> id[i] != 'w'
    ensures WindowId.ParentOf(id).None?
  {
    forall i ensures !OccursAt(id, WindowId.MARK, i) {
      if 0 <= i && i + 2 <= |id| { assert id[i..i + 2][1] == id[i + 1] && WindowId.MARK[1] == 'w'; }
    }
  }

  function NewConfig(parent: TaskId, ip: Ip, pid: int, hz: nat, windowSec: nat, profilerType: nat,
                     callgraph: string, event: string): ContinuousConfig {
    ContinuousConfig(parent, ip, pid, hz, if windowSec > 0 then windowSec else 300,
                     profilerType, callgraph, event, true)
  }

  /** Register the parent and queue window 0; the parent stays registered even when
      the queue is full and the call fails. */
  function Start(s: ServerState, c: ContinuousConfig, now: int): (ServerState, bool) {
    var s1 := s.(continuous := s.continuous[c.parentTid := c], windows := s.windows[c.parentTid := []]);
    Enqueue(s1, c.targetIp, WindowTask(c, 0), "continuous first window created, waiting dispatch", now)
  }

  function Stop(s: ServerState, parent: TaskId): (ServerState, bool) {
    if parent in s.continuous
    then (s.(continuous := s.continuous[parent := s.continuous[parent].(running := false)]), true)
    else (s, false)
  }

  // ---------- lemmas about cleanup ----------

  /** Age in nanoseconds at which a waiting task times out: more than `timeoutSec` whole
      seconds, where parts of a second do not count. */
  function Deadline(timeoutSec: int): int {
    if timeoutSec >= 0 then (timeoutSec + 1) * 1_000_000_000 else timeoutSec * 1_000_000_000 + 1
  }

  lemma ElapsedReaches(now: int, then_: int, sec: int)
    ensures Elapsed(now, then_) > sec <==> now - then_ >= Deadline(sec)
  {
  }

  /** The task was failed and dequeued, or nothing about it changed. */
  ghost predicate Cleaned(s: ServerState, s': ServerState, id: TaskId, failed: bool, reason: string, now: int)
    requires id in s.states && id in s'.states
  {
    && s'.states[id] == (if failed then TaskState(FAILED, reason, now) else s.states[id])
    && (id in s'.results <==> id in s.results) && (id in s.results ==> s'.results[id] == s.results[id])
    && (forall ip, t: TaskDesc :: t.taskId == id ==> (t in At(s'.queues, ip) <==> !failed && t in At(s.queues, ip)))
  }

  /** After a cleanup, by the clock: a task PENDING or DISPATCHED is failed, and is in no
      queue, if and only if its age reached the deadline; a finished task and its result
      are forgotten if and only if they are 3601 seconds old; nothing else changes. */
  lemma CleanupByTheClock(s: ServerState, timeoutSec: int, now: int, id: TaskId)
    requires id in s.states
    ensures var s', t := Cleanup(s, timeoutSec, now), s.states[id];
      var age := now - t.timestamp;
      match t.status
      case PENDING => id in s'.states && Cleaned(s, s', id, age >= Deadline(timeoutSec), "任务等待超时，Agent 未拉取或不存在", now)
      case DISPATCHED => id in s'.states && Cleaned(s, s', id, age >= Deadline(timeoutSec), "任务派发超时，Agent 未开始执行", now)
      case RUNNING => id in s'.states && Cleaned(s, s', id, false, "", now)
      case UPLOADING => id in s'.states && Cleaned(s, s', id, false, "", now)
      case _ =>
        && (id !in s'.states <==> age >= 3601 * 1_000_000_000)
        && (if id in s'.states then Cleaned(s, s', id, false, "", now) else id !in s'.results)
  {
    ElapsedReaches(now, s.states[id].timestamp, timeoutSec);
    ElapsedReaches(now, s.states[id].timestamp, TTL_SEC);
    var expired := Expired(s.states, timeoutSec, now);
    forall ip, t ensures t in At(Cleanup(s, timeoutSec, now).queues, ip) <==> t in At(s.queues, ip) && t.taskId !in expired {
      WithoutAt(s.queues, expired, ip);
      WithoutMembers(At(s.queues, ip), expired);
    }
  }

  /** After a cleanup no waiting task has reached the deadline and no finished one is
      3601 seconds old. */
  lemma CleanupSettlesStates(s: ServerState, timeoutSec: int, now: int, id: TaskId)
    requires id in Cleanup(s, timeoutSec, now).states
    ensures var t := Cleanup(s, timeoutSec, now).states[id];
      && (t.status.PENDING? || t.status.DISPATCHED? ==> now - t.timestamp < Deadline(timeoutSec))
      && (t.status.DONE? || t.status.FAILED? || t.status.TIMEOUT? ==> now - t.timestamp < 3601 * 1_000_000_000)
  {
    CleanupByTheClock(s, timeoutSec, now, id);
  }

  /** Exactly the tasks not named remain. */
  lemma {:induction false} WithoutMembers(q: seq<TaskDesc>, ids: set<TaskId>)
    ensures forall t :: t in Without(q, ids) <==> t in q && t.taskId !in ids
  {
    if q != [] { WithoutMembers(q[1..], ids); }
  }

  lemma {:induction false} WithoutNothing(q: seq<TaskDesc>)
    ensures Without(q, {}) == q
  {
    if q != [] { WithoutNothing(q[1..]); }
  }

  lemma {:induction false} WithoutTwice(q: seq<TaskDesc>, a: set<TaskId>, b: set<TaskId>)
    ensures Without(Without(q, a), b) == Without(q, a + b)
  {
    if q != [] {
      WithoutTwice(q[1..], a, b);
      var tail := Without(q[1..], a);
      if q[0].taskId !in a { assert ([q[0]] + tail)[1..] == tail; }
    }
  }

  lemma WithoutTasksNothing(queues: map<Ip, seq<TaskDesc>>)
    requires QueuesBounded(queues)
    ensures WithoutTasks(queues, {}) == queues
  {
    forall ip | ip in queues ensures Without(queues[ip], {}) == queues[ip] { WithoutNothing(queues[ip]); }
  }

  lemma WithoutTasksTwice(queues: map<Ip, seq<TaskDesc>>, a: set<TaskId>, b: set<TaskId>)
    ensures WithoutTasks(WithoutTasks(queues, a), b) == WithoutTasks(queues, a + b)
  {
    var one, both := WithoutTasks(WithoutTasks(queues, a), b), WithoutTasks(queues, a + b);
    forall ip | ip in queues
      ensures Without(Without(queues[ip], a), b) == Without(queues[ip], a + b)
    {
      WithoutTwice(queues[ip], a, b);
    }
    assert one.Keys == both.Keys;
  }

  lemma WithoutAt(queues: map<Ip, seq<TaskDesc>>, ids: set<TaskId>, ip: Ip)
    ensures At(WithoutTasks(queues, ids), ip) == Without(At(queues, ip), ids)
  {
  }

  lemma {:induction false} WithoutAppend(a: seq<TaskDesc>, b: seq<TaskDesc>, ids: set<TaskId>)
    ensures Without(a + b, ids) == Without(a, ids) + Without(b, ids)
  {
    if a == [] {
      assert a + b == b;
    } else {
      assert (a + b)[1..] == a[1..] + b;
      WithoutAppend(a[1..], b, ids);
    }
  }
}
