/** The apiserver's result poller: it asks drop_server for a task's result every few
    seconds and folds the answers into the task's row until the task is finished. */
module Poller {
  import opened Text
  import opened TaskDb
  import DS = DispatchServer
  import StatusInfo

  datatype FetchResponse = FetchResponse(code: int, message: string, cosKey: string,
                                         file: Option<DS.EmbeddedFile>)

  // ---------- drop_server's side ----------

  const STATUS_PREFIX := "STATUS:"
  const NOT_FOUND := "Result not found"

  /** FetchData when the first read finds a result. */
  function ResultReply(r: DS.TaskResult): FetchResponse {
    if r.errorMessage != "" then FetchResponse(-1, r.errorMessage, "", None)
    else FetchResponse(0, "OK", r.cosKey, r.file)
  }

  function StatusMessage(code: int, reason: string): string {
    STATUS_PREFIX + ToString(code) + ":" + reason
  }

  /** FetchData when it does not, from what the second read finds. */
  function StatusReply(state: Option<DS.TaskState>): FetchResponse {
    match state
    case Some(t) => FetchResponse(1, StatusMessage(DS.PublicCode(t.status), t.reason), "", None)
    case None => FetchResponse(-1, NOT_FOUND, "", None)
  }

  // ---------- reading the reply ----------

  datatype Polled = Polled(status: int, reason: string)

  /** `strconv.Atoi`: an optional sign and digits only, within 64 bits. */
  function Atoi(s: string): Option<int> {
    var signed := s != "" && (s[0] == '-' || s[0] == '+');
    var digits := if signed then s[1..] else s;
    if digits == "" || !AllDigits(digits) then None
    else
      var v: int := DecimalValue(digits);
      var n := if signed && s[0] == '-' then -v else v;
      if -0x8000_0000_0000_0000 <= n <= 0x7fff_ffff_ffff_ffff then Some(n) else None
  }

  /** The status a "STATUS:<code>:<reason>" message carries, normalised. */
  function ParseStatus(message: string): Option<Polled> {
    if !(STATUS_PREFIX <= message) then None
    else
      var rest := message[|STATUS_PREFIX|..];
      var cut := Index(rest, ':');
      if cut < 0 then None
      else
        match Atoi(rest[..cut])
        case None => None
        case Some(n) => Some(Polled(Normalize(n), rest[cut + 1..]))
  }

  /** The poller reads off a status message exactly what drop_server put in, for
      every status code and every reason. */
  lemma StatusMessageRoundTrip(code: int, reason: string)
    requires 0 <= code <= 6
    ensures ParseStatus(StatusMessage(code, reason)) == Some(Polled(Normalize(code), reason))
  {
    var message := StatusMessage(code, reason);
    var rest := message[|STATUS_PREFIX|..];
    assert rest == Decimal(code) + ":" + reason;
    assert |Decimal(code)| == 1;
    DecimalRoundTrip(code);
    assert rest[0] == Decimal(code)[0] && rest[1] == ':';
    assert IsDigit(rest[0]);
    assert Index(rest, ':') == 1;
    assert rest[..1] == Decimal(code) && rest[2..] == reason;
  }

  // ---------- one turn of the loop ----------

  datatype Storage = NoStorage | PutFails(error: string) | PutWorks

  /** The key under which the fetched artefact is stored, or why there is none. */
  datatype Artefact = Key(key: string) | Missing(error: string)

  function PersistResult(tid: string, resp: FetchResponse, storage: Storage): (a: Artefact)
    ensures a.Key? ==> a.key != ""
    ensures a.Key? <==> resp.cosKey != "" || (resp.file.Some? && resp.file.value.content != [] && storage.PutWorks?)
  {
    if resp.cosKey != "" then Key(resp.cosKey)
    else if resp.file.None? || resp.file.value.content == [] then
      Missing("collector result missing artifact: no cos_key or embedded file")
    else if storage.NoStorage? then
      Missing("collector returned embedded file but storage is not configured")
    else if storage.PutFails? then
      Missing("store embedded collector result failed: " + storage.error)
    else
      var name := if resp.file.value.name == "" then tid + ".data" else resp.file.value.name;
      Key("profiler/" + tid + "/" + name)
  }

  datatype Turn =
    | Cancelled(error: string, now: int)
    | DeadlinePassed(now: int)
    | FetchFailed
    | Fetched(resp: FetchResponse, storage: Storage, now: int)

  /** Write the outcome of a fetched result. */
  function StoreFetched(db: Db, tid: string, resp: FetchResponse, storage: Storage, now: int): Db {
    match PersistResult(tid, resp, storage)
    case Missing(error) =>
      var db1 := EnsureReached(db, tid, RUNNING, "collector ran before result was fetched", now);
      Transition(db1, tid, FAILED, error, Some(now), now)
    case Key(key) =>
      var db1 := EnsureReached(db, tid, RUNNING, "collector ran before result was fetched", now);
      var db2 := EnsureReached(db1, tid, UPLOADING, "collector uploaded result", now);
      Transition(db2, tid, SUCCESS, StatusInfo.ReadyInfo(key), Some(now), now)
  }

  /** The database after a turn, and whether the loop returns. */
  function Handle(db: Db, tid: string, turn: Turn): (Db, bool) {
    match turn
    case Cancelled(error, now) => (Transition(db, tid, FAILED, "cancelled: " + error, Some(now), now), true)
    case DeadlinePassed(now) =>
      (Transition(db, tid, FAILED, "timeout waiting for drop_server result", Some(now), now), true)
    case FetchFailed => (db, false)
    case Fetched(resp, storage, now) => HandleFetched(db, tid, ParseStatus(resp.message), resp, storage, now)
  }

  /** A reply, with the status that its message holds, if any. */
  function HandleFetched(db: Db, tid: string, polled: Option<Polled>, resp: FetchResponse, storage: Storage, now: int): (Db, bool) {
    var db1 := if polled.Some? then SyncStatus(db, tid, polled.value.status, polled.value.reason, now) else db;
    if polled.Some? && Finished(polled.value.status) then (db1, true)
    else if resp.code == 0 then (StoreFetched(db1, tid, resp, storage, now), true)
    else if polled.None? && resp.message != "" && resp.message != NOT_FOUND then
      var db2 := EnsureReached(db1, tid, RUNNING, "collector started before failure", now);
      (Transition(db2, tid, FAILED, resp.message, Some(now), now), true)
    else (db1, false)
  }

  function HandleAll(db: Db, tid: string, turns: seq<Turn>): (Db, bool)
    decreases |turns|
  {
    if turns == [] then (db, false)
    else
      var (db1, exits) := Handle(db, tid, turns[0]);
      if exits then (db1, true) else HandleAll(db1, tid, turns[1..])
  }

  lemma HandleExitsFinished(db: Db, tid: string, turn: Turn)
    requires tid in db.tasks
    ensures var (db', exits) := Handle(db, tid, turn);
      tid in db'.tasks && (exits ==> Finished(db'.tasks[tid].status))
  {
    if turn.Fetched? { FetchedExitsFinished(db, tid, ParseStatus(turn.resp.message), turn.resp, turn.storage, turn.now); }
  }

  lemma FetchedExitsFinished(db: Db, tid: string, polled: Option<Polled>, resp: FetchResponse, storage: Storage, now: int)
    requires tid in db.tasks
    ensures var (db', exits) := HandleFetched(db, tid, polled, resp, storage, now);
      tid in db'.tasks && (exits ==> Finished(db'.tasks[tid].status))
  {
    var db1 := if polled.Some? then SyncStatus(db, tid, polled.value.status, polled.value.reason, now) else db;
    assert tid in db1.tasks;
    if resp.code == 0 { StoreFetchedFinishes(db1, tid, resp, storage, now); }
  }

  lemma StoreFetchedFinishes(db: Db, tid: string, resp: FetchResponse, storage: Storage, now: int)
    requires tid in db.tasks
    ensures var db' := StoreFetched(db, tid, resp, storage, now); tid in db'.tasks && Finished(db'.tasks[tid].status)
  {
  }

  /** However the loop returns, the row it polled for holds a final status, and turns
      after that write nothing. */
  lemma {:induction false} ExitLeavesFinished(db: Db, tid: string, turns: seq<Turn>, later: seq<Turn>)
    requires tid in db.tasks
    ensures var (db', exits) := HandleAll(db, tid, turns);
      tid in db'.tasks &&
      (exits ==> Finished(db'.tasks[tid].status) && HandleAll(db, tid, turns + later) == (db', true))
    decreases |turns|
  {
    if turns != [] {
      HandleExitsFinished(db, tid, turns[0]);
      var (db1, exits) := Handle(db, tid, turns[0]);
      assert (turns + later)[0] == turns[0] && (turns + later)[1..] == turns[1..] + later;
      if !exits { ExitLeavesFinished(db1, tid, turns[1..], later); }
    }
  }

  /** Success from the result branch of an unfinished task is recorded as an edge from
      UPLOADING and leaves the artefact's key in the status column. */
  lemma ResultSuccessIsRecorded(db: Db, tid: string, resp: FetchResponse, storage: Storage, now: int)
    requires tid in db.tasks && db.tasks[tid].status <= UPLOADING && Normalize(db.tasks[tid].status) == db.tasks[tid].status
    requires PersistResult(tid, resp, storage).Key?
    ensures var db' := StoreFetched(db, tid, resp, storage, now);
      var info := StatusInfo.ReadyInfo(PersistResult(tid, resp, storage).key);
      && tid in db'.tasks && db'.tasks[tid].status == SUCCESS && db'.tasks[tid].statusInfo == info
      && db'.history != [] && db'.history[|db'.history| - 1] == Change(tid, UPLOADING, SUCCESS, info, TaskChange)
  {
  }
}
