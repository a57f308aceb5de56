/** What a finished poll leaves behind, over every run of the poller against the whole
    dispatch system: when the artefact key can be read, and which edges are recorded. */
module PollerOutcome {
  import opened Text
  import opened TaskDb
  import opened Poller
  import opened PollerProtocol
  import opened StatusInfo
  import opened ArtefactKey
  import opened DispatchTheorems
  import DS = DispatchServer
  import AgentWorker
  import DispatchSafety

  // ---------- the artefact key ----------

  /** The key under which a result's artefact belongs. */
  function ArtefactOf(tid: string, r: DS.TaskResult): Artefact { PersistResult(tid, ResultReply(r), PutWorks) }

  lemma FirstReadOutcome(db: Db, tid: string, r: DS.TaskResult, storage: Storage, now: int)
    requires tid in db.tasks && AgentWorker.WellMade(r)
    ensures var (db', exits) := Handle(db, tid, Fetched(ResultReply(r), storage, now));
      tid in db'.tasks && (db'.tasks[tid].status == SUCCESS ==>
        && r.errorMessage == "" && ArtefactOf(tid, r).Key?
        && db'.tasks[tid].statusInfo == ReadyInfo(ArtefactOf(tid, r).key))
  {
    if r.errorMessage != "" {
      FirstReadOfFailure(db, tid, r, storage, now);
    } else {
      OkIsNoStatus();
      StoreFetchedFinishes(db, tid, ResultReply(r), storage, now);
    }
  }

  /** What is left when the act that ends the poll ends it in success: the result is
      cached on the server, and its key is readable exactly if the act is a first read
      and the key is clean. */
  ghost predicate SuccessBy(w: World, a: Act, info: string, tid: string) {
    && tid in w.sys.server.results
    && var r := w.sys.server.results[tid];
       && r.errorMessage == "" && ArtefactOf(tid, r).Key? && (a.FirstRead? || a.SecondRead?)
       && (ExtractKey(info) == ArtefactOf(tid, r).key <==> a.FirstRead? && Clean(ArtefactOf(tid, r).key))
       && (if a.FirstRead? then info == ReadyInfo(ArtefactOf(tid, r).key) else MarkerFree(info))
  }

  lemma FirstReadExit(w: World, tid: string, storage: Storage, now: int)
    requires PollInv(w, tid) && w.poll.Waiting? && tid in w.sys.server.results
    requires var w' := Do(w, tid, FirstRead(storage, now)); tid in w'.db.tasks && w'.db.tasks[tid].status == SUCCESS
    ensures SuccessBy(w, FirstRead(storage, now), Do(w, tid, FirstRead(storage, now)).db.tasks[tid].statusInfo, tid)
  {
    var r := w.sys.server.results[tid];
    FirstReadOutcome(w.db, tid, r, storage, now);
    ExtractsExactlyCleanKeys(ArtefactOf(tid, r).key);
  }

  lemma SecondReadExit(w: World, tid: string, now: int)
    requires w.poll.Missed? && tid in w.db.tasks && DoneAt(w.sys.server, tid)
    requires tid in w.sys.server.results ==> AgentWorker.WellMade(w.sys.server.results[tid])
    requires var w' := Do(w, tid, SecondRead(now)); tid in w'.db.tasks && w'.poll.Returned? && w'.db.tasks[tid].status == SUCCESS
    ensures SuccessBy(w, SecondRead(now), Do(w, tid, SecondRead(now)).db.tasks[tid].statusInfo, tid)
  {
    match StateOf(w.sys, tid)
    case None => NotFoundTurn(w.db, tid, now);
    case Some(t) =>
      StatusTurn(w.db, tid, t, now);
      assert t.status.DONE?;
      assert MarkerFree(DS.DONE_REASON);
      NoMarkerNoKey(DS.DONE_REASON);
  }

  lemma ExitAct(w: World, tid: string, a: Act)
    requires PollInv(w, tid) && Possible(w, a) && !w.poll.Returned?
    requires var w' := Do(w, tid, a); w'.poll.Returned? && tid in w'.db.tasks && w'.db.tasks[tid].status == SUCCESS
    ensures SuccessBy(w, a, Do(w, tid, a).db.tasks[tid].statusInfo, tid)
  {
    match a
    case FirstRead(storage, now) => FirstReadExit(w, tid, storage, now);
    case SecondRead(now) =>
      assert DoneAt(w.sys.server, tid);
      SecondReadExit(w, tid, now);
    case _ =>
  }

  /** The act at which the poller returned. */
  lemma {:induction false} FindExit(ws: seq<World>, acts: seq<Act>, tid: string, j: nat) returns (i: nat)
    requires PollRun(ws, acts, tid) && j < |ws| && ws[j].poll.Returned?
    ensures i < j && !ws[i].poll.Returned? && ws[i + 1].poll.Returned?
  {
    if ws[j - 1].poll.Returned? { i := FindExit(ws, acts, tid, j - 1); } else { i := j - 1; }
  }

  /** Over every run: if the poller has returned and the row is SUCCESS, the server had the
      error-free result cached when the poll ended at act `i`, and its key can be read off
      the row if and only if the poll ended at a first read and the key is clean. A
      poll that ended at a second read left no key at all. */
  lemma KeyReadableExactly(ws: seq<World>, acts: seq<Act>, tid: string, j: nat) returns (i: nat)
    requires PollRun(ws, acts, tid) && j < |ws| && ws[j].poll.Returned?
    requires tid in ws[j].db.tasks && ws[j].db.tasks[tid].status == SUCCESS
    ensures i < j && !ws[i].poll.Returned? && ws[i + 1].poll.Returned?
    ensures SuccessBy(ws[i], acts[i], ws[j].db.tasks[tid].statusInfo, tid)
  {
    i := FindExit(ws, acts, tid, j);
    ReturnedWritesNothing(ws, acts, tid, i + 1, j);
    PollRunKeepsInv(ws, acts, tid, i);
    assert ActAt(ws, acts, tid, i);
    ExitAct(ws[i], tid, acts[i]);
  }

  lemma ReadableAfterWrites(db: Db, tid: string, r: DS.TaskResult, a: Act, w: World, analysis: seq<Write>)
    requires tid in db.tasks && SuccessBy(w, a, Info(db, tid), tid) && r == w.sys.server.results[tid]
    requires forall i :: 0 <= i < |analysis| ==> PlainAnalysis(analysis[i])
    ensures tid in Written(db, analysis).tasks
    ensures ExtractKey(Info(Written(db, analysis), tid)) == ArtefactOf(tid, r).key <==>
      a.FirstRead? && Clean(ArtefactOf(tid, r).key) && !CrashTakesEffect(tid, db.tasks[tid].analysisStatus, analysis)
  {
    var key := ArtefactOf(tid, r).key;
    RowsStay(db, tid, analysis);
    if a.FirstRead? && Clean(key) {
      ReadyInfoCarries(key);
      KeyReadableUnlessCrash(db, tid, key, analysis);
    } else if a.FirstRead? {
      ExtractedIsClean(Info(Written(db, analysis), tid));
    } else {
      WritesHold(db, tid, key, true, analysis);
      NoMarkerNoKey(Info(Written(db, analysis), tid));
    }
  }

  /** The whole life of a key: after any run that ended in success, and any analysis writes
      with marker-free reasons after it, the key is readable if and only if the poll ended
      at a first read, the key is clean, and no crash found the analysis still open. */
  lemma KeyReadableAfterAnalysis(ws: seq<World>, acts: seq<Act>, tid: string, j: nat, analysis: seq<Write>) returns (i: nat)
    requires PollRun(ws, acts, tid) && j < |ws| && ws[j].poll.Returned?
    requires tid in ws[j].db.tasks && ws[j].db.tasks[tid].status == SUCCESS
    requires forall k :: 0 <= k < |analysis| ==> PlainAnalysis(analysis[k])
    ensures i < j && !ws[i].poll.Returned? && ws[i + 1].poll.Returned? && tid in ws[i].sys.server.results
    ensures ArtefactOf(tid, ws[i].sys.server.results[tid]).Key? && tid in Written(ws[j].db, analysis).tasks
    ensures var key := ArtefactOf(tid, ws[i].sys.server.results[tid]).key;
      ExtractKey(Info(Written(ws[j].db, analysis), tid)) == key <==>
        acts[i].FirstRead? && Clean(key) && !CrashTakesEffect(tid, ws[j].db.tasks[tid].analysisStatus, analysis)
  {
    i := KeyReadableExactly(ws, acts, tid, j);
    ReadableAfterWrites(ws[j].db, tid, ws[i].sys.server.results[tid], acts[i], ws[i], analysis);
  }

  // ---------- recorded edges ----------

  ghost predicate Rises(c: Change, tid: string) {
    c.tid == tid && c.changeType.TaskChange? && Rank(c.fromState) < Rank(c.toState)
  }

  /** Records were only added, each an edge of this task to a higher status. */
  ghost predicate Raised(h: seq<Change>, h': seq<Change>, tid: string) {
    h <= h' && forall k :: |h| <= k < |h'| ==> Rises(h'[k], tid)
  }

  lemma RaisedTransitive(a: seq<Change>, b: seq<Change>, c: seq<Change>, tid: string)
    requires Raised(a, b, tid) && Raised(b, c, tid)
    ensures Raised(a, c, tid)
  {
    forall k | |a| <= k < |c| ensures Rises(c[k], tid) { assert k < |b| ==> c[k] == b[k]; }
  }

  lemma TransitionRaises(db: Db, tid: string, toState: int, reason: string, endTime: Option<int>, now: int)
    requires tid in db.tasks && Unfinished(db.tasks[tid].status) && Rank(db.tasks[tid].status) <= Rank(Normalize(toState))
    ensures Raised(db.history, Transition(db, tid, toState, reason, endTime, now).history, tid)
  {
  }

  lemma ReachRaises(db: Db, tid: string, state: int, reason: string, now: int)
    requires tid in db.tasks && Unfinished(db.tasks[tid].status) && Unfinished(state)
    ensures var db' := EnsureReached(db, tid, state, reason, now);
      Raised(db.history, db'.history, tid) && tid in db'.tasks && Unfinished(db'.tasks[tid].status)
  {
    if db.tasks[tid].status < state { TransitionRaises(db, tid, state, reason, None, now); }
  }

  lemma StoreRaises(db: Db, tid: string, resp: FetchResponse, storage: Storage, now: int)
    requires tid in db.tasks && Unfinished(db.tasks[tid].status)
    ensures Raised(db.history, StoreFetched(db, tid, resp, storage, now).history, tid)
  {
    var db1 := EnsureReached(db, tid, RUNNING, "collector ran before result was fetched", now);
    ReachRaises(db, tid, RUNNING, "collector ran before result was fetched", now);
    match PersistResult(tid, resp, storage)
    case Missing(error) =>
      TransitionRaises(db1, tid, FAILED, error, Some(now), now);
      RaisedTransitive(db.history, db1.history, StoreFetched(db, tid, resp, storage, now).history, tid);
    case Key(key) =>
      var db2 := EnsureReached(db1, tid, UPLOADING, "collector uploaded result", now);
      ReachRaises(db1, tid, UPLOADING, "collector uploaded result", now);
      TransitionRaises(db2, tid, SUCCESS, ReadyInfo(key), Some(now), now);
      RaisedTransitive(db.history, db1.history, db2.history, tid);
      RaisedTransitive(db.history, db2.history, StoreFetched(db, tid, resp, storage, now).history, tid);
  }

  lemma FailRaises(db: Db, tid: string, message: string, now: int)
    requires tid in db.tasks && Unfinished(db.tasks[tid].status)
    ensures var db2 := EnsureReached(db, tid, RUNNING, "collector started before failure", now);
      Raised(db.history, Transition(db2, tid, FAILED, message, Some(now), now).history, tid)
  {
    var db2 := EnsureReached(db, tid, RUNNING, "collector started before failure", now);
    ReachRaises(db, tid, RUNNING, "collector started before failure", now);
    TransitionRaises(db2, tid, FAILED, message, Some(now), now);
    RaisedTransitive(db.history, db2.history, Transition(db2, tid, FAILED, message, Some(now), now).history, tid);
  }

  lemma ResultTurnRaises(db: Db, tid: string, r: DS.TaskResult, storage: Storage, now: int)
    requires tid in db.tasks && Unfinished(db.tasks[tid].status) && AgentWorker.WellMade(r)
    ensures Raised(db.history, Handle(db, tid, Fetched(ResultReply(r), storage, now)).0.history, tid)
  {
    if r.errorMessage == "" {
      OkIsNoStatus();
      StoreRaises(db, tid, ResultReply(r), storage, now);
    } else {
      FailRaises(db, tid, r.errorMessage, now);
    }
  }

  lemma StatusTurnRaises(db: Db, tid: string, t: DS.TaskState, now: int)
    requires tid in db.tasks && Unfinished(db.tasks[tid].status)
    requires !t.status.Terminal() ==> db.tasks[tid].status <= DS.PublicCode(t.status)
    ensures Raised(db.history, Handle(db, tid, Fetched(StatusReply(Some(t)), NoStorage, now)).0.history, tid)
  {
    var code := DS.PublicCode(t.status);
    StatusMessageRoundTrip(code, t.reason);
    TransitionRaises(db, tid, code, t.reason, if Finished(code) then Some(now) else None, now);
  }

  lemma PollingIsUnfinished(w: World, tid: string)
    requires PollInv(w, tid) && !w.poll.Returned?
    ensures tid in w.db.tasks && Unfinished(w.db.tasks[tid].status)
  {
  }

  lemma DoRaises(w: World, tid: string, a: Act)
    requires PollInv(w, tid) && Possible(w, a)
    ensures Raised(w.db.history, Do(w, tid, a).db.history, tid)
  {
    if !w.poll.Returned? { PollingIsUnfinished(w, tid); }
    match a
    case SystemStep(_) =>
    case FirstRead(storage, now) =>
      if tid in w.sys.server.results { ResultTurnRaises(w.db, tid, w.sys.server.results[tid], storage, now); }
    case SecondRead(now) =>
      var state := StateOf(w.sys, tid);
      if state.None? {
        NotFoundTurn(w.db, tid, now);
      } else {
        assert DispatchSafety.StatusShown(w.sys, tid);
        StatusTurnRaises(w.db, tid, state.value, now);
      }
    case RpcError =>
    case CancelPoll(error, now) => TransitionRaises(w.db, tid, FAILED, "cancelled: " + error, Some(now), now);
    case Deadline(now) => TransitionRaises(w.db, tid, FAILED, "timeout waiting for drop_server result", Some(now), now);
  }

  lemma ActRaises(ws: seq<World>, acts: seq<Act>, tid: string, i: nat)
    requires PollRun(ws, acts, tid) && i < |acts|
    ensures Raised(ws[i].db.history, ws[i + 1].db.history, tid)
  {
    PollRunKeepsInv(ws, acts, tid, i);
    assert ActAt(ws, acts, tid, i);
    DoRaises(ws[i], tid, acts[i]);
  }

  /** Over every run, every record the poller adds is an edge of its own task to a
      strictly higher status, NEW < RUNNING < UPLOADING < final. */
  lemma {:induction false} RecordedEdgesRise(ws: seq<World>, acts: seq<Act>, tid: string, i: nat)
    requires PollRun(ws, acts, tid) && i < |ws|
    ensures Raised(ws[0].db.history, ws[i].db.history, tid)
  {
    if i > 0 {
      RecordedEdgesRise(ws, acts, tid, i - 1);
      ActRaises(ws, acts, tid, i - 1);
      RaisedTransitive(ws[0].db.history, ws[i - 1].db.history, ws[i].db.history, tid);
    }
  }

  // ---------- times ----------

  ghost predicate ToRunning(c: Change, tid: string) {
    c.tid == tid && c.changeType.TaskChange? && c.toState == RUNNING
  }

  /** The row has an end time exactly when it is finished, and a begin time exactly when an
      edge to RUNNING was recorded since. */
  ghost predicate Timed(db: Db, tid: string, since: nat) {
    && tid in db.tasks && since <= |db.history|
    && var row := db.tasks[tid];
       && (row.endTime.Some? <==> Finished(row.status))
       && (row.status == RUNNING ==> row.beginTime.Some?)
       && (row.beginTime.Some? <==> exists k :: since <= k < |db.history| && ToRunning(db.history[k], tid))
  }

  lemma TransitionTimed(db: Db, tid: string, toState: int, reason: string, endTime: Option<int>, now: int, since: nat)
    requires Timed(db, tid, since) && Unfinished(db.tasks[tid].status)
    requires endTime.Some? <==> Finished(Normalize(toState))
    ensures var db' := Transition(db, tid, toState, reason, endTime, now);
      Timed(db', tid, since) && db'.tasks[tid].endTime == endTime && db'.tasks[tid].status == Normalize(toState)
  {
    var db' := Transition(db, tid, toState, reason, endTime, now);
    var n := |db.history|;
    assert db.history <= db'.history && forall k :: 0 <= k < n ==> db'.history[k] == db.history[k];
    if k :| since <= k < n && ToRunning(db.history[k], tid) { assert ToRunning(db'.history[k], tid); }
    if Normalize(toState) == RUNNING && db.tasks[tid].status != RUNNING { assert ToRunning(db'.history[n], tid); }
  }

  lemma ReachTimed(db: Db, tid: string, state: int, reason: string, now: int, since: nat)
    requires Timed(db, tid, since) && Unfinished(db.tasks[tid].status) && Unfinished(state)
    ensures var db' := EnsureReached(db, tid, state, reason, now);
      Timed(db', tid, since) && Unfinished(db'.tasks[tid].status) && db'.tasks[tid].status >= state
  {
    if db.tasks[tid].status < state { TransitionTimed(db, tid, state, reason, None, now, since); }
  }

  /** An ended poll leaves the time of its last turn. */
  ghost predicate TimedTurn(db': Db, exits: bool, tid: string, since: nat, now: int) {
    Timed(db', tid, since) && if exits then db'.tasks[tid].endTime == Some(now) else Unfinished(db'.tasks[tid].status)
  }

  lemma StoreTimed(db: Db, tid: string, resp: FetchResponse, storage: Storage, now: int, since: nat)
    requires Timed(db, tid, since) && Unfinished(db.tasks[tid].status)
    ensures TimedTurn(StoreFetched(db, tid, resp, storage, now), true, tid, since, now)
  {
    var db1 := EnsureReached(db, tid, RUNNING, "collector ran before result was fetched", now);
    ReachTimed(db, tid, RUNNING, "collector ran before result was fetched", now, since);
    match PersistResult(tid, resp, storage)
    case Missing(error) => TransitionTimed(db1, tid, FAILED, error, Some(now), now, since);
    case Key(key) =>
      var db2 := EnsureReached(db1, tid, UPLOADING, "collector uploaded result", now);
      ReachTimed(db1, tid, UPLOADING, "collector uploaded result", now, since);
      TransitionTimed(db2, tid, SUCCESS, ReadyInfo(key), Some(now), now, since);
  }

  lemma ResultTimed(db: Db, tid: string, r: DS.TaskResult, storage: Storage, now: int, since: nat)
    requires Timed(db, tid, since) && Unfinished(db.tasks[tid].status) && AgentWorker.WellMade(r)
    ensures var (db', exits) := Handle(db, tid, Fetched(ResultReply(r), storage, now)); exits && TimedTurn(db', exits, tid, since, now)
  {
    if r.errorMessage == "" {
      OkIsNoStatus();
      StoreTimed(db, tid, ResultReply(r), storage, now, since);
    } else {
      var db2 := EnsureReached(db, tid, RUNNING, "collector started before failure", now);
      ReachTimed(db, tid, RUNNING, "collector started before failure", now, since);
      TransitionTimed(db2, tid, FAILED, r.errorMessage, Some(now), now, since);
    }
  }

  lemma StatusTimed(db: Db, tid: string, t: DS.TaskState, now: int, since: nat)
    requires Timed(db, tid, since) && Unfinished(db.tasks[tid].status)
    ensures var (db', exits) := Handle(db, tid, Fetched(StatusReply(Some(t)), NoStorage, now)); TimedTurn(db', exits, tid, since, now)
  {
    var code := DS.PublicCode(t.status);
    StatusTurn(db, tid, t, now);
    StatusMessageRoundTrip(code, t.reason);
    TransitionTimed(db, tid, code, t.reason, if Finished(code) then Some(now) else None, now, since);
  }

  lemma DoTimed(w: World, tid: string, a: Act, since: nat)
    requires PollInv(w, tid) && Possible(w, a) && Timed(w.db, tid, since) && !w.poll.Returned?
    ensures var w' := Do(w, tid, a);
      Timed(w'.db, tid, since) && (w'.poll.Returned? ==> !a.SystemStep? && !a.RpcError? && w'.db.tasks[tid].endTime == Some(a.now))
  {
    PollingIsUnfinished(w, tid);
    match a
    case SystemStep(_) =>
    case FirstRead(storage, now) =>
      if tid in w.sys.server.results { ResultTimed(w.db, tid, w.sys.server.results[tid], storage, now, since); }
    case SecondRead(now) =>
      match StateOf(w.sys, tid) {
        case None => NotFoundTurn(w.db, tid, now);
        case Some(t) => StatusTimed(w.db, tid, t, now, since);
      }
    case RpcError =>
    case CancelPoll(error, now) => TransitionTimed(w.db, tid, FAILED, "cancelled: " + error, Some(now), now, since);
    case Deadline(now) => TransitionTimed(w.db, tid, FAILED, "timeout waiting for drop_server result", Some(now), now, since);
  }

  /** Over every run that began on a new row: the row has an end time if and only if it is
      finished, and a begin time if and only if the run recorded an edge to RUNNING. */
  lemma {:induction false} TimesFollowStatus(ws: seq<World>, acts: seq<Act>, tid: string, i: nat)
    requires PollRun(ws, acts, tid) && i < |ws|
    requires ws[0].db.tasks[tid].beginTime.None? && ws[0].db.tasks[tid].endTime.None?
    ensures Timed(ws[i].db, tid, |ws[0].db.history|)
  {
    if i > 0 {
      TimesFollowStatus(ws, acts, tid, i - 1);
      ActTimed(ws, acts, tid, i - 1, |ws[0].db.history|);
    }
  }

  lemma ActTimed(ws: seq<World>, acts: seq<Act>, tid: string, i: nat, since: nat)
    requires PollRun(ws, acts, tid) && i < |acts| && Timed(ws[i].db, tid, since)
    ensures Timed(ws[i + 1].db, tid, since)
  {
    PollRunKeepsInv(ws, acts, tid, i);
    assert ActAt(ws, acts, tid, i);
    if ws[i].poll.Returned? {
      ReturnedWritesNothing(ws, acts, tid, i, i + 1);
    } else {
      DoTimed(ws[i], tid, acts[i], since);
    }
  }

  /** The end time is the time of the act that ended the poll. */
  lemma EndsWhenPolled(ws: seq<World>, acts: seq<Act>, tid: string, j: nat) returns (i: nat)
    requires PollRun(ws, acts, tid) && j < |ws| && ws[j].poll.Returned?
    requires ws[0].db.tasks[tid].beginTime.None? && ws[0].db.tasks[tid].endTime.None?
    ensures i < j && !ws[i].poll.Returned? && ws[i + 1].poll.Returned? && !acts[i].SystemStep? && !acts[i].RpcError?
    ensures tid in ws[j].db.tasks && ws[j].db.tasks[tid].endTime == Some(acts[i].now)
  {
    i := FindExit(ws, acts, tid, j);
    TimesFollowStatus(ws, acts, tid, i);
    PollRunKeepsInv(ws, acts, tid, i);
    assert ActAt(ws, acts, tid, i);
    DoTimed(ws[i], tid, acts[i], |ws[0].db.history|);
    ReturnedWritesNothing(ws, acts, tid, i + 1, j);
  }
}
