/** The apiserver's task table and its state-change history, and every write the
    apiserver makes to a task's status. A transition updates the row and records
    the edge in one transaction. */
module TaskDb {
  import opened Text
  import StatusInfo

  const NEW: int := 0
  const DISPATCHED: int := 1
  const RUNNING: int := 2
  const UPLOADING: int := 3
  const SUCCESS: int := 4
  const FAILED: int := 5
  const TIMEOUT: int := 6

  const ANALYSIS_PENDING: int := 0
  const ANALYSIS_SUCCESS: int := 2
  const ANALYSIS_FAILED: int := 3

  datatype TaskRow = TaskRow(status: int, analysisStatus: int, statusInfo: string,
                             beginTime: Option<int>, endTime: Option<int>)

  datatype ChangeType = TaskChange | AnalysisChange

  datatype Change = Change(tid: string, fromState: int, toState: int, reason: string, changeType: ChangeType)

  datatype Db = Db(tasks: map<string, TaskRow>, history: seq<Change>)

  /** The two drop_server statuses the product does not show. */
  function Normalize(status: int): int {
    if status == DISPATCHED then NEW else if status == TIMEOUT then FAILED else status
  }

  predicate Finished(status: int) { status == SUCCESS || status == FAILED }

  // ---------- writes ----------

  function Transition(db: Db, tid: string, toState: int, reason: string, endTime: Option<int>, now: int): Db {
    if tid !in db.tasks then db
    else
      var row, to := db.tasks[tid], Normalize(toState);
      var from := Normalize(row.status);
      var row' := row.(status := to, statusInfo := reason,
                       beginTime := if to == RUNNING && row.beginTime.None? then Some(now) else row.beginTime,
                       endTime := if endTime.Some? then endTime else row.endTime);
      Db(db.tasks[tid := row'],
         db.history + if from != to then [Change(tid, from, to, reason, TaskChange)] else [])
  }

  function EnsureReached(db: Db, tid: string, state: int, reason: string, now: int): Db {
    if tid in db.tasks && Normalize(db.tasks[tid].status) < Normalize(state)
    then Transition(db, tid, state, reason, None, now) else db
  }

  function SyncStatus(db: Db, tid: string, status: int, reason: string, now: int): Db {
    Transition(db, tid, Normalize(status), reason,
               if Finished(Normalize(status)) then Some(now) else None, now)
  }

  /** Insert a row and its creation record. */
  function Create(db: Db, tid: string, row: TaskRow, reason: string): Db {
    Db(db.tasks[tid := row], db.history + [Change(tid, -1, row.status, reason, TaskChange)])
  }

  /** drop_server could not take a task just created. */
  function RejectNew(db: Db, tid: string, reason: string): Db
    requires tid in db.tasks
  {
    Db(db.tasks[tid := db.tasks[tid].(status := FAILED, statusInfo := reason)],
       db.history + [Change(tid, NEW, FAILED, reason, TaskChange)])
  }

  function SetInfo(db: Db, tid: string, info: string): Db {
    if tid in db.tasks then db.(tasks := db.tasks[tid := db.tasks[tid].(statusInfo := info)]) else db
  }

  /** Overwrite the status of an existing row, recording the edge if it moves. */
  function Overwrite(db: Db, tid: string, status: int, info: string, beginTime: Option<int>, endTime: Option<int>): Db
    requires tid in db.tasks
  {
    var row := db.tasks[tid];
    Db(db.tasks[tid := row.(status := status, statusInfo := info,
                            beginTime := if beginTime.Some? then beginTime else row.beginTime,
                            endTime := if endTime.Some? then endTime else row.endTime)],
       db.history + if row.status != status then [Change(tid, row.status, status, info, TaskChange)] else [])
  }

  /** A window already has its task row: bring it up to date. */
  function ResyncWindow(db: Db, tid: string, failed: bool, start: int, end: int): Db
    requires tid in db.tasks
  {
    var row := db.tasks[tid];
    Overwrite(db, tid, WindowStatus(failed), WindowInfo(failed),
              if row.beginTime.None? then Some(start) else None,
              if end > 0 || row.endTime.None? then Some(end) else None)
  }

  function TransitionAnalysis(db: Db, tid: string, toState: int, reason: string): Db {
    if tid !in db.tasks then db
    else
      var row := db.tasks[tid];
      if row.analysisStatus == toState then
        (if reason != "" then SetInfo(db, tid, StatusInfo.Merge(row.statusInfo, reason)) else db)
      else
        Db(db.tasks[tid := row.(analysisStatus := toState, statusInfo := StatusInfo.Merge(row.statusInfo, reason))],
           db.history + [Change(tid, row.analysisStatus, toState, reason, AnalysisChange)])
  }

  /** The analysis subprocess died: unless it set a final state itself, fail it here. */
  function AnalysisCrash(db: Db, tid: string, failReason: string): Db {
    if tid !in db.tasks || db.tasks[tid].analysisStatus == ANALYSIS_SUCCESS || db.tasks[tid].analysisStatus == ANALYSIS_FAILED
    then db
    else
      var row := db.tasks[tid];
      Db(db.tasks[tid := row.(analysisStatus := ANALYSIS_FAILED, statusInfo := failReason)],
         db.history + [Change(tid, row.analysisStatus, ANALYSIS_FAILED, failReason, AnalysisChange)])
  }

  /** Every write to the status columns, as the handlers and the poller make them. */
  datatype Write =
    | CreateTask(tid: string, reason: string)
    | CreateContinuous(tid: string, now: int)
    | CreateWindowTask(tid: string, failed: bool, start: int, end: int)
    | Reject(tid: string, reason: string)
    | NoteQueued(tid: string, info: string)
    | Move(tid: string, toState: int, reason: string, endTime: Option<int>, now: int)
    | Reach(tid: string, state: int, reason: string, now: int)
    | Sync(tid: string, status: int, reason: string, now: int)
    | StopContinuous(tid: string, now: int)
    | ResyncWindowTask(tid: string, failed: bool, start: int, end: int)
    | Analyse(tid: string, toState: int, reason: string)
    | CrashAnalysis(tid: string, failReason: string)

  function WindowStatus(failed: bool): int { if failed then FAILED else SUCCESS }

  function WindowInfo(failed: bool): string {
    if failed then "continuous window failed" else "continuous window completed"
  }

  /** Rows are created under new ids; a rejection follows the creation at once; stop
      and window sync act on a row they have just read. */
  predicate Allowed(db: Db, w: Write) {
    match w
    case CreateTask(tid, _) => tid !in db.tasks
    case CreateContinuous(tid, _) => tid !in db.tasks
    case CreateWindowTask(tid, _, _, _) => tid !in db.tasks
    case Reject(tid, _) => tid in db.tasks && db.tasks[tid].status == NEW
    case StopContinuous(tid, _) => tid in db.tasks
    case ResyncWindowTask(tid, _, _, _) => tid in db.tasks
    case _ => true
  }

  function Apply(db: Db, w: Write): Db
    requires Allowed(db, w)
  {
    match w
    case CreateTask(tid, reason) =>
      Create(db, tid, TaskRow(NEW, ANALYSIS_PENDING, "", None, None), reason)
    case CreateContinuous(tid, now) =>
      Create(db, tid, TaskRow(RUNNING, ANALYSIS_PENDING, "continuous profiling running", Some(now), None),
             "continuous profiling started")
    case CreateWindowTask(tid, failed, start, end) =>
      Create(db, tid, TaskRow(WindowStatus(failed), ANALYSIS_PENDING, WindowInfo(failed), Some(start), Some(end)),
             WindowInfo(failed))
    case Reject(tid, reason) => RejectNew(db, tid, reason)
    case NoteQueued(tid, info) => SetInfo(db, tid, info)
    case Move(tid, toState, reason, endTime, now) => Transition(db, tid, toState, reason, endTime, now)
    case Reach(tid, state, reason, now) => EnsureReached(db, tid, state, reason, now)
    case Sync(tid, status, reason, now) => SyncStatus(db, tid, status, reason, now)
    case StopContinuous(tid, now) => Overwrite(db, tid, SUCCESS, "用户停止", None, Some(now))
    case ResyncWindowTask(tid, failed, start, end) => ResyncWindow(db, tid, failed, start, end)
    case Analyse(tid, toState, reason) => TransitionAnalysis(db, tid, toState, reason)
    case CrashAnalysis(tid, failReason) => AnalysisCrash(db, tid, failReason)
  }

  // ---------- the audit trail ----------

  /** The changes of one kind recorded for one task, oldest first. */
  function Trail(history: seq<Change>, tid: string, kind: ChangeType): seq<Change> {
    if history == [] then []
    else
      var last := history[|history| - 1];
      var before := Trail(history[..|history| - 1], tid, kind);
      if last.tid == tid && last.changeType == kind then before + [last] else before
  }

  /** A chain from creation to `status`: each edge starts where the previous one
      ended and none is a self-loop. */
  ghost predicate ChainTo(trail: seq<Change>, status: int) {
    && trail != [] && trail[0].fromState == -1
    && trail[|trail| - 1].toState == status
    && (forall i :: 0 < i < |trail| ==> trail[i].fromState == trail[i - 1].toState)
    && (forall i :: 0 <= i < |trail| ==> trail[i].fromState != trail[i].toState)
  }

  ghost predicate Audited(db: Db, tid: string) {
    if tid in db.tasks
    then ChainTo(Trail(db.history, tid, TaskChange), db.tasks[tid].status) && Normalize(db.tasks[tid].status) == db.tasks[tid].status
    else Trail(db.history, tid, TaskChange) == []
  }

  lemma TrailSnoc(history: seq<Change>, c: Change, tid: string, kind: ChangeType)
    ensures Trail(history + [c], tid, kind) ==
      Trail(history, tid, kind) + if c.tid == tid && c.changeType == kind then [c] else []
  {
    assert (history + [c])[..|history|] == history;
  }

  /** Appending an edge from the current status, or nothing, keeps a row audited. */
  lemma EdgeKeepsAudit(db: Db, db': Db, tid: string, c: Change)
    requires Audited(db, tid) && tid in db.tasks && tid in db'.tasks
    requires c.tid == tid && c.changeType.TaskChange? && c.fromState == db.tasks[tid].status
    requires c.toState == db'.tasks[tid].status && Normalize(c.toState) == c.toState
    requires db'.history == db.history + if c.fromState != c.toState then [c] else []
    ensures Audited(db', tid)
  {
    TrailSnoc(db.history, c, tid, TaskChange);
    assert db.history + [] == db.history;
  }

  /** A write about one task leaves the others alone. */
  lemma OtherKeepsAudit(db: Db, db': Db, tid: string, c: Change, appended: bool)
    requires Audited(db, tid) && (c.tid != tid || c.changeType.AnalysisChange?)
    requires db'.history == db.history + if appended then [c] else []
    requires tid in db.tasks <==> tid in db'.tasks
    requires tid in db.tasks ==> db'.tasks[tid].status == db.tasks[tid].status
    ensures Audited(db', tid)
  {
    TrailSnoc(db.history, c, tid, TaskChange);
    assert db.history + [] == db.history;
  }

  lemma CreateAudited(db: Db, tid: string, row: TaskRow, reason: string, other: string)
    requires Audited(db, other) && tid !in db.tasks && Normalize(row.status) == row.status && row.status >= 0
    ensures Audited(Create(db, tid, row, reason), other)
  {
    TrailSnoc(db.history, Change(tid, -1, row.status, reason, TaskChange), other, TaskChange);
  }

  lemma TransitionAudited(db: Db, tid: string, toState: int, reason: string, endTime: Option<int>, now: int, other: string)
    requires Audited(db, other)
    ensures Audited(Transition(db, tid, toState, reason, endTime, now), other)
  {
    if tid in db.tasks {
      var c := Change(tid, Normalize(db.tasks[tid].status), Normalize(toState), reason, TaskChange);
      var db' := Transition(db, tid, toState, reason, endTime, now);
      if other == tid { EdgeKeepsAudit(db, db', tid, c); }
      else { OtherKeepsAudit(db, db', other, c, c.fromState != c.toState); }
    }
  }

  lemma OverwriteAudited(db: Db, tid: string, status: int, info: string, beginTime: Option<int>, endTime: Option<int>, other: string)
    requires Audited(db, other) && tid in db.tasks && Normalize(status) == status
    ensures Audited(Overwrite(db, tid, status, info, beginTime, endTime), other)
  {
    var c := Change(tid, db.tasks[tid].status, status, info, TaskChange);
    var db' := Overwrite(db, tid, status, info, beginTime, endTime);
    if other == tid { EdgeKeepsAudit(db, db', tid, c); }
    else { OtherKeepsAudit(db, db', other, c, c.fromState != c.toState); }
  }

  lemma AnalysisAudited(db: Db, w: Write, other: string)
    requires Audited(db, other) && (w.Analyse? || w.CrashAnalysis? || w.NoteQueued?)
    ensures Audited(Apply(db, w), other)
  {
    var db' := Apply(db, w);
    if w.tid in db.tasks {
      var row := db.tasks[w.tid];
      var c := match w
        case Analyse(_, to, reason) => Change(w.tid, row.analysisStatus, to, reason, AnalysisChange)
        case CrashAnalysis(_, reason) => Change(w.tid, row.analysisStatus, ANALYSIS_FAILED, reason, AnalysisChange)
        case _ => Change(w.tid, 0, 0, "", AnalysisChange);
      assert db.history + [] == db.history;
      OtherKeepsAudit(db, db', other, c, db'.history != db.history);
    }
  }

  /** No write breaks any task's audit trail. */
  lemma ApplyAudited(db: Db, w: Write, other: string)
    requires Audited(db, other) && Allowed(db, w)
    ensures Audited(Apply(db, w), other)
  {
    match w
    case CreateTask(tid, reason) =>
      CreateAudited(db, tid, TaskRow(NEW, ANALYSIS_PENDING, "", None, None), reason, other);
    case CreateContinuous(tid, now) =>
      CreateAudited(db, tid, TaskRow(RUNNING, ANALYSIS_PENDING, "continuous profiling running", Some(now), None),
                    "continuous profiling started", other);
    case CreateWindowTask(tid, failed, start, end) =>
      CreateAudited(db, tid, TaskRow(WindowStatus(failed), ANALYSIS_PENDING, WindowInfo(failed), Some(start), Some(end)),
                    WindowInfo(failed), other);
    case Reject(tid, reason) =>
      var c := Change(tid, NEW, FAILED, reason, TaskChange);
      if other == tid { EdgeKeepsAudit(db, Apply(db, w), tid, c); }
      else { OtherKeepsAudit(db, Apply(db, w), other, c, true); }
    case Move(tid, toState, reason, endTime, now) => TransitionAudited(db, tid, toState, reason, endTime, now, other);
    case Reach(tid, state, reason, now) => TransitionAudited(db, tid, state, reason, None, now, other);
    case Sync(tid, status, reason, now) =>
      TransitionAudited(db, tid, Normalize(status), reason,
                        if Finished(Normalize(status)) then Some(now) else None, now, other);
    case StopContinuous(tid, now) => OverwriteAudited(db, tid, SUCCESS, "用户停止", None, Some(now), other);
    case ResyncWindowTask(tid, failed, start, end) =>
      var row := db.tasks[tid];
      OverwriteAudited(db, tid, WindowStatus(failed), WindowInfo(failed),
                       if row.beginTime.None? then Some(start) else None,
                       if end > 0 || row.endTime.None? then Some(end) else None, other);
    case _ => AnalysisAudited(db, w, other);
  }

  const EMPTY_DB := Db(map[], [])

  /** `dbs` are the states passed through by making `writes` from an empty database. */
  ghost predicate Writes(dbs: seq<Db>, writes: seq<Write>) {
    && |dbs| == |writes| + 1 && dbs[0] == EMPTY_DB
    && forall i :: 0 <= i < |writes| ==> WriteAt(dbs, writes, i)
  }

  ghost predicate WriteAt(dbs: seq<Db>, writes: seq<Write>, i: nat)
    requires i < |writes| < |dbs|
  {
    Allowed(dbs[i], writes[i]) && dbs[i + 1] == Apply(dbs[i], writes[i])
  }

  /** After any sequence of writes every task's recorded changes form a chain from its
      creation to its stored status, which is never DISPATCHED or TIMEOUT. */
  lemma {:induction false} AuditTrail(dbs: seq<Db>, writes: seq<Write>, i: nat, tid: string)
    requires Writes(dbs, writes) && i < |dbs|
    ensures Audited(dbs[i], tid)
    ensures tid in dbs[i].tasks ==> dbs[i].tasks[tid].status != DISPATCHED && dbs[i].tasks[tid].status != TIMEOUT
  {
    if i > 0 {
      AuditTrail(dbs, writes, i - 1, tid);
      assert WriteAt(dbs, writes, i - 1);
      ApplyAudited(dbs[i - 1], writes[i - 1], tid);
    }
  }

  // ---------- analysis ----------

  /** The recorded analysis changes lead from PENDING to the stored analysis status, each
      from where the one before it ended, and none is a self-loop. */
  ghost predicate AnalysisChain(trail: seq<Change>, status: int) {
    && status == (if trail == [] then 0 else trail[|trail| - 1].toState)
    && (trail != [] ==> trail[0].fromState == 0)
    && (forall i :: 0 < i < |trail| ==> trail[i].fromState == trail[i - 1].toState)
    && (forall i :: 0 <= i < |trail| ==> trail[i].fromState != trail[i].toState)
  }

  ghost predicate AnalysisAudit(db: Db, tid: string) {
    var trail := Trail(db.history, tid, AnalysisChange);
    if tid in db.tasks then AnalysisChain(trail, db.tasks[tid].analysisStatus) else trail == []
  }

  lemma AnalysisChainSnoc(trail: seq<Change>, status: int, c: Change)
    requires AnalysisChain(trail, status) && c.fromState == status != c.toState
    ensures AnalysisChain(trail + [c], c.toState)
  {
    var longer := trail + [c];
    forall i | 0 < i < |longer| ensures longer[i].fromState == longer[i - 1].toState {
      assert i < |trail| ==> longer[i] == trail[i];
    }
  }

  /** At most one record was appended: an analysis edge of the task from its stored status
      to its new one, or one that is not about its analysis. */
  lemma AnalysisEdge(db: Db, db': Db, tid: string, cs: seq<Change>)
    requires AnalysisAudit(db, tid) && db'.history == db.history + cs && |cs| <= 1
    requires tid in db'.tasks <==> tid in db.tasks || (cs != [] && cs[0].tid == tid && cs[0].fromState == -1 && cs[0].changeType.TaskChange?)
    requires tid in db'.tasks && tid !in db.tasks ==> db'.tasks[tid].analysisStatus == 0
    requires tid in db.tasks ==>
      var a, a' := db.tasks[tid].analysisStatus, db'.tasks[tid].analysisStatus;
      if cs != [] && cs[0].tid == tid && cs[0].changeType.AnalysisChange?
      then cs[0].fromState == a && cs[0].toState == a' && a != a' else a == a'
    requires tid !in db.tasks && cs != [] && cs[0].tid == tid ==> cs[0].changeType.TaskChange?
    ensures AnalysisAudit(db', tid)
  {
    if cs == [] {
      assert db.history + cs == db.history;
    } else {
      assert cs == [cs[0]];
      TrailSnoc(db.history, cs[0], tid, AnalysisChange);
      var trail := Trail(db.history, tid, AnalysisChange);
      if tid in db.tasks && cs[0].tid == tid && cs[0].changeType.AnalysisChange? {
        AnalysisChainSnoc(trail, db.tasks[tid].analysisStatus, cs[0]);
      } else {
        assert trail + [] == trail;
      }
    }
  }

  lemma ApplyAppends(db: Db, w: Write) returns (cs: seq<Change>)
    requires Allowed(db, w)
    ensures Apply(db, w).history == db.history + cs && |cs| <= 1
  {
    var h := Apply(db, w).history;
    cs := h[|db.history|..];
  }

  lemma ApplyAnalysisAudited(db: Db, w: Write, tid: string)
    requires AnalysisAudit(db, tid) && Allowed(db, w)
    ensures AnalysisAudit(Apply(db, w), tid)
  {
    var cs := ApplyAppends(db, w);
    assert cs != [] ==> Apply(db, w).history[|db.history|] == cs[0];
    AnalysisEdge(db, Apply(db, w), tid, cs);
  }

  /** After any sequence of writes every task's recorded analysis changes form a chain from
      PENDING to its stored analysis status. */
  lemma {:induction false} AnalysisTrail(dbs: seq<Db>, writes: seq<Write>, i: nat, tid: string)
    requires Writes(dbs, writes) && i < |dbs|
    ensures AnalysisAudit(dbs[i], tid)
  {
    if i > 0 {
      AnalysisTrail(dbs, writes, i - 1, tid);
      assert WriteAt(dbs, writes, i - 1);
      ApplyAnalysisAudited(dbs[i - 1], writes[i - 1], tid);
    }
  }

  /** A note of the analysis is shown, at the end, whether or not the analysis status moves;
      without a note and without a move nothing is written. */
  lemma AnalysisNoteShown(db: Db, tid: string, toState: int, reason: string)
    requires tid in db.tasks
    ensures var db' := Apply(db, Analyse(tid, toState, reason));
      && tid in db'.tasks && db'.tasks[tid].analysisStatus == toState
      && (reason != "" ==> StatusInfo.EndsIn(db'.tasks[tid].statusInfo, reason))
      && (reason == "" && db.tasks[tid].analysisStatus == toState ==> db' == db)
  {
    StatusInfo.NoteIsShown(db.tasks[tid].statusInfo, reason);
  }

  /** A crash fails an analysis that has not ended, 2 being success and 3 failure. */
  lemma CrashFails(db: Db, tid: string, reason: string)
    requires tid in db.tasks
    ensures var row, db' := db.tasks[tid], Apply(db, CrashAnalysis(tid, reason));
      if row.analysisStatus == 2 || row.analysisStatus == 3 then db' == db
      else db'.tasks == db.tasks[tid := row.(analysisStatus := 3, statusInfo := reason)]
           && db'.history == db.history + [Change(tid, row.analysisStatus, 3, reason, AnalysisChange)]
  {
  }

  // ---------- the lives of tasks that are never polled ----------

  lemma TrailOfTwo(history: seq<Change>, c: Change, c': Change, tid: string)
    requires Trail(history, tid, TaskChange) == []
    requires c.tid == tid && c.changeType.TaskChange? && c'.tid == tid && c'.changeType.TaskChange?
    ensures Trail(history + [c] + [c'], tid, TaskChange) == [c, c']
  {
    TrailSnoc(history, c, tid, TaskChange);
    TrailSnoc(history + [c], c', tid, TaskChange);
  }

  /** drop_server refuses a new task: it is stored failed, with the reason, and both edges
      are recorded. */
  lemma RejectedTask(db: Db, tid: string, reason: string, why: string)
    requires Trail(db.history, tid, TaskChange) == [] && tid !in db.tasks
    ensures var db1 := Apply(db, CreateTask(tid, reason));
      && Allowed(db1, Reject(tid, why))
      && var db2 := Apply(db1, Reject(tid, why));
         && tid in db2.tasks && db2.tasks[tid].status == 5 && db2.tasks[tid].statusInfo == why
         && Trail(db2.history, tid, TaskChange) == [Change(tid, -1, 0, reason, TaskChange), Change(tid, 0, 5, why, TaskChange)]
  {
    TrailOfTwo(db.history, Change(tid, -1, 0, reason, TaskChange), Change(tid, 0, 5, why, TaskChange), tid);
  }

  /** A continuous task that is started and stopped runs from the one moment to the other and
      ends successful. */
  lemma StoppedTask(db: Db, tid: string, start: int, stop: int)
    requires Trail(db.history, tid, TaskChange) == [] && tid !in db.tasks
    ensures var db1 := Apply(db, CreateContinuous(tid, start));
      && Allowed(db1, StopContinuous(tid, stop))
      && var db2 := Apply(db1, StopContinuous(tid, stop));
         && db1.tasks[tid].status == 2 && tid in db2.tasks && db2.tasks[tid].status == 4
         && db2.tasks[tid].beginTime == Some(start) && db2.tasks[tid].endTime == Some(stop)
         && Trail(db2.history, tid, TaskChange) ==
            [Change(tid, -1, 2, "continuous profiling started", TaskChange), Change(tid, 2, 4, "用户停止", TaskChange)]
  {
    TrailOfTwo(db.history, Change(tid, -1, 2, "continuous profiling started", TaskChange), Change(tid, 2, 4, "用户停止", TaskChange), tid);
  }
}
