/** The poller of one task running against the whole dispatch system. FetchData takes
    drop_server's lock twice, so anything may happen between its two reads. */
module PollerProtocol {
  import opened Text
  import opened DispatchSystem
  import opened DispatchSafety
  import opened DispatchTheorems
  import opened TaskDb
  import opened Poller
  import DS = DispatchServer
  import AgentWorker
  import StatusInfo
  import WindowId

  /** Between turns, between the two reads of a fetch, or returned. */
  datatype Poll = Waiting | Missed | Returned

  /** `polled` is the history of status codes the poller was shown. */
  datatype World = World(sys: System, db: Db, poll: Poll, polled: seq<int>)

  datatype Act =
    | SystemStep(step: Step)
    | FirstRead(storage: Storage, now: int)
    | SecondRead(now: int)
    | RpcError
    | CancelPoll(error: string, now: int)
    | Deadline(now: int)

  predicate Possible(w: World, a: Act) {
    match a
    case SystemStep(step) => Enabled(w.sys, step)
    case FirstRead(_, _) => w.poll.Waiting?
    case SecondRead(_) => w.poll.Missed?
    case RpcError => !w.poll.Returned?
    case CancelPoll(_, _) => w.poll.Waiting?
    case Deadline(_) => w.poll.Waiting?
  }

  /** Results come from the agent's worker. */
  ghost predicate Reports(a: Act) {
    a.SystemStep? && (a.step.Finish? || a.step.Cancel?) ==> AgentWorker.WellMade(a.step.result)
  }

  function StateOf(s: System, tid: string): Option<DS.TaskState> {
    if tid in s.server.states then Some(s.server.states[tid]) else None
  }

  function PollTurn(w: World, tid: string, turn: Turn): World {
    var (db, exits) := Handle(w.db, tid, turn);
    w.(db := db, poll := if exits then Returned else Waiting)
  }

  function Do(w: World, tid: string, a: Act): World
    requires Possible(w, a)
  {
    match a
    case SystemStep(step) => w.(sys := Next(w.sys, step))
    case FirstRead(storage, now) =>
      if tid in w.sys.server.results
      then PollTurn(w, tid, Fetched(ResultReply(w.sys.server.results[tid]), storage, now))
      else w.(poll := Missed)
    case SecondRead(now) =>
      var state := StateOf(w.sys, tid);
      PollTurn(w, tid, Fetched(StatusReply(state), NoStorage, now))
        .(polled := if state.Some? then w.polled + [DS.PublicCode(state.value.status)] else w.polled)
    case RpcError => PollTurn(w, tid, FetchFailed)
    case CancelPoll(error, now) => PollTurn(w, tid, Cancelled(error, now))
    case Deadline(now) => PollTurn(w, tid, DeadlinePassed(now))
  }

  // ---------- the invariant ----------

  predicate Unfinished(code: int) { code == NEW || code == RUNNING || code == UPLOADING }

  ghost predicate Rising(codes: seq<int>) {
    forall i, j :: 0 <= i < j < |codes| ==> codes[i] <= codes[j]
  }

  /** Until the poller returns it has seen only unfinished statuses, never a lower one
      after a higher one; the row shows the last of them, and the task got at least
      that far. Once it returned the row is finished. */
  ghost predicate PollState(db: Db, poll: Poll, polled: seq<int>, tid: string, progress: int) {
    && tid in db.tasks
    && var status := db.tasks[tid].status;
       if poll.Returned? then Finished(status) && (polled == [] || RisingUntilLast(polled))
       else
         && Rising(polled) && (forall i :: 0 <= i < |polled| ==> Unfinished(polled[i]))
         && status == (if polled == [] then NEW else polled[|polled| - 1])
         && status <= progress
  }

  ghost predicate PollInv(w: World, tid: string) {
    && Inv(w.sys) && tid in w.sys.accepted && tid in w.sys.progress
    && (forall id :: id in w.sys.server.results ==> AgentWorker.WellMade(w.sys.server.results[id]))
    && DoneCached(w.sys.server)
    && PollState(w.db, w.poll, w.polled, tid, w.sys.progress[tid])
  }

  /** Everything before the last code is unfinished and rising. */
  ghost predicate RisingUntilLast(codes: seq<int>)
    requires codes != []
  {
    var before := codes[..|codes| - 1];
    Rising(before) && forall i :: 0 <= i < |before| ==> Unfinished(before[i])
  }

  lemma StatusTurn(db: Db, tid: string, t: DS.TaskState, now: int)
    requires tid in db.tasks
    ensures var code := DS.PublicCode(t.status);
      var (db', exits) := Handle(db, tid, Fetched(StatusReply(Some(t)), NoStorage, now));
      && tid in db'.tasks && db'.tasks[tid].status == code && db'.tasks[tid].statusInfo == t.reason
      && (exits <==> Finished(code)) && (Finished(code) || Unfinished(code))
      && (exits <==> t.status.Terminal())
  {
    StatusMessageRoundTrip(DS.PublicCode(t.status), t.reason);
  }

  lemma NotFoundTurn(db: Db, tid: string, now: int)
    ensures Handle(db, tid, Fetched(StatusReply(None), NoStorage, now)) == (db, false)
  {
    assert NOT_FOUND[0] == 'R';
  }

  /** Any stored result ends the poll. */
  lemma ResultTurn(db: Db, tid: string, r: DS.TaskResult, storage: Storage, now: int)
    requires tid in db.tasks && AgentWorker.WellMade(r)
    ensures var (db', exits) := Handle(db, tid, Fetched(ResultReply(r), storage, now));
      exits && tid in db'.tasks && Finished(db'.tasks[tid].status)
  {
    HandleExitsFinished(db, tid, Fetched(ResultReply(r), storage, now));
    assert "OK"[0] == 'O' && STATUS_PREFIX[0] == 'S';
    assert ParseStatus("OK").None?;
  }

  /** A step only ever adds the result it reports. */
  lemma ResultsAfter(s: System, step: Step, id: string)
    requires Enabled(s, step) && id in Next(s, step).server.results
    ensures (id in s.server.results && Next(s, step).server.results[id] == s.server.results[id])
         || ((step.Finish? || step.Cancel?) && Next(s, step).server.results[id] == step.result && step.result.taskId == id)
  {
    NextRunsTheServer(s, step);
    if step.Finish? || step.Cancel? { NotifyResults(s.server, step.result, step.now, step.wall, id); }
  }

  lemma NotifyResults(server: DS.ServerState, r: DS.TaskResult, now: int, wall: int, id: string)
    requires id in DS.Notify(server, r, now, wall).results
    ensures (id in server.results && DS.Notify(server, r, now, wall).results[id] == server.results[id])
         || (DS.Notify(server, r, now, wall).results[id] == r && r.taskId == id)
  {
  }

  lemma SystemKeepsPollInv(w: World, tid: string, step: Step)
    requires PollInv(w, tid) && Enabled(w.sys, step) && Reports(SystemStep(step))
    ensures PollInv(Do(w, tid, SystemStep(step)), tid)
  {
    NextKeepsInv(w.sys, step);
    ProgressGrows(w.sys, step, tid);
    ResultsStayWellMade(w.sys, step);
    NextKeepsDone(w.sys, step);
    PollStateGrows(w.db, w.poll, w.polled, tid, w.sys.progress[tid], Next(w.sys, step).progress[tid]);
  }

  lemma ProgressGrows(s: System, step: Step, tid: string)
    requires Inv(s) && Enabled(s, step) && tid in s.accepted && tid in s.progress
    ensures var s' := Next(s, step); tid in s'.accepted && tid in s'.progress && s.progress[tid] <= s'.progress[tid]
  {
    NextExtends(s, step);
  }

  lemma PollStateGrows(db: Db, poll: Poll, polled: seq<int>, tid: string, progress: int, progress': int)
    requires PollState(db, poll, polled, tid, progress) && progress <= progress'
    ensures PollState(db, poll, polled, tid, progress')
  {
  }

  lemma ResultsStayWellMade(s: System, step: Step)
    requires Enabled(s, step) && Reports(SystemStep(step))
    requires forall id :: id in s.server.results ==> AgentWorker.WellMade(s.server.results[id])
    ensures var s' := Next(s, step); forall id :: id in s'.server.results ==> AgentWorker.WellMade(s'.server.results[id])
  {
    forall id | id in Next(s, step).server.results ensures AgentWorker.WellMade(Next(s, step).server.results[id]) {
      ResultsAfter(s, step, id);
    }
  }

  lemma SecondReadState(db: Db, polled: seq<int>, tid: string, t: DS.TaskState, progress: int, now: int)
    requires PollState(db, Missed, polled, tid, progress)
    requires !t.status.Terminal() ==> DS.PublicCode(t.status) == progress
    ensures var (db', exits) := Handle(db, tid, Fetched(StatusReply(Some(t)), NoStorage, now));
      PollState(db', if exits then Returned else Waiting, polled + [DS.PublicCode(t.status)], tid, progress)
  {
    StatusTurn(db, tid, t, now);
    PolledAgain(Handle(db, tid, Fetched(StatusReply(Some(t)), NoStorage, now)).0, tid, polled, DS.PublicCode(t.status), progress);
  }

  /** One more code was polled and stored. */
  lemma PolledAgain(db: Db, tid: string, polled: seq<int>, code: int, progress: int)
    requires tid in db.tasks && db.tasks[tid].status == code && (Finished(code) || Unfinished(code))
    requires Rising(polled) && forall i :: 0 <= i < |polled| ==> Unfinished(polled[i])
    requires !Finished(code) ==> code == progress && (polled == [] || polled[|polled| - 1] <= code)
    ensures PollState(db, if Finished(code) then Returned else Waiting, polled + [code], tid, progress)
  {
    var polled' := polled + [code];
    assert polled'[..|polled'| - 1] == polled && polled'[|polled|] == code;
    assert forall i :: 0 <= i < |polled| ==> polled'[i] == polled[i];
  }

  lemma SecondReadKeepsPollInv(w: World, tid: string, now: int)
    requires PollInv(w, tid) && w.poll.Missed?
    ensures PollInv(Do(w, tid, SecondRead(now)), tid)
  {
    match StateOf(w.sys, tid)
    case None => NotFoundTurn(w.db, tid, now);
    case Some(t) =>
      assert StatusShown(w.sys, tid);
      SecondReadState(w.db, w.polled, tid, t, w.sys.progress[tid], now);
  }

  /** Every act of the poller or the system keeps the invariant. */
  lemma DoKeepsPollInv(w: World, tid: string, a: Act)
    requires PollInv(w, tid) && Possible(w, a) && Reports(a)
    ensures PollInv(Do(w, tid, a), tid)
  {
    match a
    case SystemStep(step) => SystemKeepsPollInv(w, tid, step);
    case FirstRead(storage, now) =>
      if tid in w.sys.server.results {
        ResultTurn(w.db, tid, w.sys.server.results[tid], storage, now);
        RisingPrefix(w.polled);
      }
    case SecondRead(now) => SecondReadKeepsPollInv(w, tid, now);
    case RpcError =>
    case CancelPoll(error, now) => HandleExitsFinished(w.db, tid, Cancelled(error, now)); RisingPrefix(w.polled);
    case Deadline(now) => HandleExitsFinished(w.db, tid, DeadlinePassed(now)); RisingPrefix(w.polled);
  }

  lemma RisingPrefix(codes: seq<int>)
    requires Rising(codes) && forall i :: 0 <= i < |codes| ==> Unfinished(codes[i])
    ensures codes == [] || RisingUntilLast(codes)
  {
  }

  // ---------- every run ----------

  /** The task was just accepted by drop_server and its row created. */
  ghost predicate Begins(w: World, tid: string) {
    && Inv(w.sys) && tid in w.sys.accepted && tid in w.sys.progress && w.sys.progress[tid] >= NEW
    && (forall id :: id in w.sys.server.results ==> AgentWorker.WellMade(w.sys.server.results[id]))
    && DoneCached(w.sys.server)
    && tid in w.db.tasks && w.db.tasks[tid].status == NEW && w.poll.Waiting? && w.polled == []
  }

  /** Both servers fold the statuses that are not shown into the same public ones. */
  lemma ShownAsNormalized(status: DS.TaskStatus)
    ensures Normalize(DS.Code(status)) == DS.PublicCode(status)
    ensures Finished(DS.PublicCode(status)) <==> status.Terminal()
  {
  }

  /** Creating a row and handing the task to drop_server is such a beginning. */
  lemma CreatedTaskBegins(s: System, ip: string, task: DS.TaskDesc, now: int, db: Db, reason: string)
    requires Inv(s) && Enabled(s, Push(ip, task, now)) && |DS.At(s.server.queues, ip)| < DS.MAX_TASK_QUEUE_SIZE
    requires forall id :: id in s.server.results ==> AgentWorker.WellMade(s.server.results[id])
    requires DoneCached(s.server) && task.taskId !in db.tasks
    ensures var w := World(Next(s, Push(ip, task, now)), Apply(db, CreateTask(task.taskId, reason)), Waiting, []);
      && Begins(w, task.taskId)
      && w.db.tasks[task.taskId].beginTime.None? && w.db.tasks[task.taskId].endTime.None?
  {
    NextKeepsInv(s, Push(ip, task, now));
    NextKeepsDone(s, Push(ip, task, now));
    ResultsStayWellMade(s, Push(ip, task, now));
  }

  ghost predicate ActAt(ws: seq<World>, acts: seq<Act>, tid: string, i: nat)
    requires i < |acts| < |ws|
  {
    Possible(ws[i], acts[i]) && Reports(acts[i]) && ws[i + 1] == Do(ws[i], tid, acts[i])
  }

  ghost predicate PollRun(ws: seq<World>, acts: seq<Act>, tid: string) {
    && |ws| == |acts| + 1 && Begins(ws[0], tid)
    && forall i :: 0 <= i < |acts| ==> ActAt(ws, acts, tid, i)
  }

  lemma {:induction false} PollRunKeepsInv(ws: seq<World>, acts: seq<Act>, tid: string, i: nat)
    requires PollRun(ws, acts, tid) && i < |ws|
    ensures PollInv(ws[i], tid)
  {
    if i > 0 {
      PollRunKeepsInv(ws, acts, tid, i - 1);
      assert ActAt(ws, acts, tid, i - 1);
      DoKeepsPollInv(ws[i - 1], tid, acts[i - 1]);
    }
  }

  /** NEW < RUNNING < UPLOADING < finished. */
  function Rank(status: int): int { if Finished(status) then 4 else status }

  /** Over every run, despite missed intermediate states: the codes polled before the
      last never fall and are unfinished, the stored status is always one of the
      public five, and it is final exactly when the poller has returned. */
  lemma PolledStatusesRise(ws: seq<World>, acts: seq<Act>, tid: string, i: nat)
    requires PollRun(ws, acts, tid) && i < |ws|
    ensures tid in ws[i].db.tasks
    ensures Unfinished(ws[i].db.tasks[tid].status) || Finished(ws[i].db.tasks[tid].status)
    ensures Finished(ws[i].db.tasks[tid].status) <==> ws[i].poll.Returned?
    ensures ws[i].polled != [] ==> RisingUntilLast(ws[i].polled)
  {
    PollRunKeepsInv(ws, acts, tid, i);
    if !ws[i].poll.Returned? { RisingPrefix(ws[i].polled); }
  }

  /** Once the poller returned, it never writes again. */
  lemma {:induction false} ReturnedWritesNothing(ws: seq<World>, acts: seq<Act>, tid: string, i: nat, j: nat)
    requires PollRun(ws, acts, tid) && i <= j < |ws| && ws[i].poll.Returned?
    ensures ws[j].db == ws[i].db && ws[j].poll.Returned?
    decreases j
  {
    if i < j {
      ReturnedWritesNothing(ws, acts, tid, i, j - 1);
      assert ActAt(ws, acts, tid, j - 1);
    }
  }

  lemma StateAt(ws: seq<World>, acts: seq<Act>, tid: string, i: nat) returns (progress: int)
    requires PollRun(ws, acts, tid) && i < |ws|
    ensures PollState(ws[i].db, ws[i].poll, ws[i].polled, tid, progress)
  {
    PollRunKeepsInv(ws, acts, tid, i);
    progress := ws[i].sys.progress[tid];
  }

  lemma PolledGrows(w: World, tid: string, a: Act)
    requires Possible(w, a)
    ensures var polled := Do(w, tid, a).polled; polled == w.polled || (polled != [] && polled[..|polled| - 1] == w.polled)
  {
  }

  lemma RankRises(w: World, p: int, w': World, p': int, tid: string)
    requires PollState(w.db, w.poll, w.polled, tid, p) && PollState(w'.db, w'.poll, w'.polled, tid, p')
    requires !w.poll.Returned? && (w'.polled == w.polled || (w'.polled != [] && w'.polled[..|w'.polled| - 1] == w.polled))
    ensures Rank(w.db.tasks[tid].status) <= Rank(w'.db.tasks[tid].status)
  {
    if w'.polled != w.polled && w.polled != [] {
      var n := |w.polled| - 1;
      assert w'.polled[n] == w.polled[n];
    }
  }

  lemma StoredStatusStep(ws: seq<World>, acts: seq<Act>, tid: string, i: nat)
    requires PollRun(ws, acts, tid) && i + 1 < |ws|
    ensures tid in ws[i].db.tasks && tid in ws[i + 1].db.tasks
    ensures Rank(ws[i].db.tasks[tid].status) <= Rank(ws[i + 1].db.tasks[tid].status)
  {
    var p := StateAt(ws, acts, tid, i);
    var p' := StateAt(ws, acts, tid, i + 1);
    assert ActAt(ws, acts, tid, i);
    if ws[i].poll.Returned? {
      ReturnedWritesNothing(ws, acts, tid, i, i + 1);
    } else {
      PolledGrows(ws[i], tid, acts[i]);
      RankRises(ws[i], p, ws[i + 1], p', tid);
    }
  }

  /** Over every run the stored status only moves up: NEW, RUNNING, UPLOADING, final. */
  lemma {:induction false} StoredStatusRises(ws: seq<World>, acts: seq<Act>, tid: string, i: nat, j: nat)
    requires PollRun(ws, acts, tid) && i <= j < |ws|
    ensures tid in ws[i].db.tasks && tid in ws[j].db.tasks
    ensures Rank(ws[i].db.tasks[tid].status) <= Rank(ws[j].db.tasks[tid].status)
    decreases j
  {
    if i < j {
      StoredStatusRises(ws, acts, tid, i, j - 1);
      StoredStatusStep(ws, acts, tid, j - 1);
    } else {
      var p := StateAt(ws, acts, tid, i);
    }
  }

  // ---------- the artefact key ----------

  lemma OkIsNoStatus()
    ensures ParseStatus("OK").None?
  {
    assert "OK"[0] == 'O' && STATUS_PREFIX[0] == 'S';
  }

  /** A failed run, found by the first read, fails the task with its error. */
  lemma FirstReadOfFailure(db: Db, tid: string, r: DS.TaskResult, storage: Storage, now: int)
    requires tid in db.tasks && AgentWorker.WellMade(r) && r.errorMessage != ""
    ensures var (db', exits) := Handle(db, tid, Fetched(ResultReply(r), storage, now));
      exits && tid in db'.tasks && db'.tasks[tid].status == FAILED && db'.tasks[tid].statusInfo == r.errorMessage
  {
  }

  /** An error-free run, found by the first read: an unfinished task succeeds if and only if
      there is a key to store the artefact under, through an UPLOADING edge that names the
      key, which can be read back exactly when it is clean; otherwise the task fails. */
  lemma FirstReadStoresKey(db: Db, tid: string, r: DS.TaskResult, storage: Storage, now: int)
    requires tid in db.tasks && Unfinished(db.tasks[tid].status)
    requires AgentWorker.WellMade(r) && r.errorMessage == ""
    ensures var (db', exits) := Handle(db, tid, Fetched(ResultReply(r), storage, now));
      var artefact := PersistResult(tid, ResultReply(r), storage);
      && exits && tid in db'.tasks && db'.tasks[tid].status == (if artefact.Key? then SUCCESS else FAILED)
      && (artefact.Key? <==> r.cosKey != "" || storage.PutWorks?)
      && (artefact.Key? ==>
            && db'.history != [] && db'.history[|db'.history| - 1] ==
                 Change(tid, UPLOADING, SUCCESS, StatusInfo.ReadyInfo(artefact.key), TaskChange)
            && (StatusInfo.Clean(artefact.key) <==> StatusInfo.ExtractKey(db'.tasks[tid].statusInfo) == artefact.key))
  {
    OkIsNoStatus();
    assert Handle(db, tid, Fetched(ResultReply(r), storage, now)) == (StoreFetched(db, tid, ResultReply(r), storage, now), true);
    var artefact := PersistResult(tid, ResultReply(r), storage);
    if artefact.Key? {
      ResultSuccessIsRecorded(db, tid, ResultReply(r), storage, now);
      StatusInfo.ExtractsExactlyCleanKeys(artefact.key);
    } else {
      StoreFails(db, tid, ResultReply(r), storage, now);
    }
  }

  lemma StoreFails(db: Db, tid: string, resp: FetchResponse, storage: Storage, now: int)
    requires tid in db.tasks && PersistResult(tid, resp, storage).Missing?
    ensures var db' := StoreFetched(db, tid, resp, storage, now);
      && tid in db'.tasks && db'.tasks[tid].status == FAILED && db'.tasks[tid].endTime == Some(now)
      && db'.tasks[tid].statusInfo == PersistResult(tid, resp, storage).error
  {
  }

  /** An artefact that cannot be stored fails the task, and the row says why. */
  lemma FailureTellsCause(db: Db, tid: string, r: DS.TaskResult, storage: Storage, now: int)
    requires tid in db.tasks && AgentWorker.WellMade(r) && r.errorMessage == "" && r.cosKey == "" && !storage.PutWorks?
    ensures var (db', exits) := Handle(db, tid, Fetched(ResultReply(r), storage, now));
      && exits && tid in db'.tasks && db'.tasks[tid].status == 5 && db'.tasks[tid].endTime == Some(now)
      && db'.tasks[tid].statusInfo ==
           if storage.NoStorage? then "collector returned embedded file but storage is not configured"
           else "store embedded collector result failed: " + storage.error
  {
    OkIsNoStatus();
    assert Handle(db, tid, Fetched(ResultReply(r), storage, now)) == (StoreFetched(db, tid, ResultReply(r), storage, now), true);
    StoreFails(db, tid, ResultReply(r), storage, now);
  }

  /** A poll that is given up fails the task, and the row says why. */
  lemma GivenUpTellsCause(w: World, tid: string, a: Act)
    requires tid in w.db.tasks && Possible(w, a) && (a.CancelPoll? || a.Deadline?)
    ensures var w' := Do(w, tid, a);
      && w'.poll.Returned? && tid in w'.db.tasks && w'.db.tasks[tid].status == 5 && w'.db.tasks[tid].endTime == Some(a.now)
      && w'.db.tasks[tid].statusInfo ==
           if a.CancelPoll? then "cancelled: " + a.error else "timeout waiting for drop_server result"
  {
  }

  lemma FinishStoresDone(s: System, step: Step)
    requires Inv(s) && step.Finish? && Enabled(s, step) && step.result.errorMessage == ""
    ensures var states, id := Next(s, step).server.states, step.result.taskId;
      id in states && states[id] == DS.TaskState(DS.DONE, DS.DONE_REASON, step.now)
  {
    var s1, r := Released(s, step), step.result;
    ResultKeepsInv(s, step);
    if Chains(s1, r) { NextWindowAcceptable(s1, r, step.now, step.wall); }
    DeliverStoresDone(s1, r, step.now, step.wall);
  }

  lemma DeliverStoresDone(s: System, r: DS.TaskResult, now: int, wall: int)
    requires r.errorMessage == ""
    requires Chains(s, r) ==> DS.NextWindow(s.server, WindowId.ParentOf(r.taskId).value, r).taskId != r.taskId
    ensures var states := Deliver(s, r, now, wall).server.states;
      r.taskId in states && states[r.taskId] == DS.TaskState(DS.DONE, DS.DONE_REASON, now)
  {
  }

  /** A result that lands between the two reads is only seen as a status: the task
      succeeds, and no key can be read back. */
  lemma LateResultLosesKey(w: World, tid: string, storage: Storage, step: Step, now: int)
    requires PollInv(w, tid) && w.poll.Waiting? && tid !in w.sys.server.results
    requires step.Finish? && Enabled(w.sys, step) && step.result.taskId == tid && step.result.errorMessage == ""
    ensures var w1 := Do(w, tid, FirstRead(storage, now));
      && Possible(w1, SystemStep(step))
      && var w2 := Do(w1, tid, SystemStep(step));
      && Possible(w2, SecondRead(now))
      && var w3 := Do(w2, tid, SecondRead(now));
         && w3.poll.Returned? && tid in w3.db.tasks && w3.db.tasks[tid].status == SUCCESS
         && StatusInfo.ExtractKey(w3.db.tasks[tid].statusInfo) == ""
  {
    FinishStoresDone(w.sys, step);
    StatusTurn(w.db, tid, DS.TaskState(DS.DONE, DS.DONE_REASON, step.now), now);
    ShortHasNoMarker(DS.DONE_REASON);
  }

  lemma ShortHasNoMarker(reason: string)
    requires |reason| < |StatusInfo.MARKER|
    ensures StatusInfo.ExtractKey(reason) == ""
  {
  }
}
