/** How long the artefact key stays readable: what analysis does to the column that
    carries it, from the poller's success to any number of later writes. */
module ArtefactKey {
  import opened TaskDb
  import opened Poller
  import opened StatusInfo

  /** The guard of the analysis fallback: it writes unless the analysis had ended. */
  predicate Open(analysisStatus: int) {
    analysisStatus != ANALYSIS_SUCCESS && analysisStatus != ANALYSIS_FAILED
  }

  /** A write of the analysis, with a reason that does not itself name a key. */
  ghost predicate PlainAnalysis(w: Write) {
    match w
    case Analyse(_, _, reason) => MarkerFree(reason)
    case CrashAnalysis(_, reason) => MarkerFree(reason)
    case _ => false
  }

  /** The analysis status after a write. */
  function StatusAfter(tid: string, a: int, w: Write): int {
    match w
    case Analyse(t, toState, _) => if t == tid then toState else a
    case CrashAnalysis(t, _) => if t == tid && Open(a) then ANALYSIS_FAILED else a
    case _ => a
  }

  /** Some crash in `ws` finds the analysis still open, starting from status `a`. */
  predicate CrashTakesEffect(tid: string, a: int, ws: seq<Write>)
    decreases |ws|
  {
    ws != [] &&
    ((ws[0].CrashAnalysis? && ws[0].tid == tid && Open(a)) || CrashTakesEffect(tid, StatusAfter(tid, a, ws[0]), ws[1..]))
  }

  ghost function Written(db: Db, ws: seq<Write>): Db
    requires forall i :: 0 <= i < |ws| ==> PlainAnalysis(ws[i])
    decreases |ws|
  {
    if ws == [] then db
    else
      assert PlainAnalysis(ws[0]);
      Written(Apply(db, ws[0]), ws[1..])
  }

  function Info(db: Db, tid: string): string
    requires tid in db.tasks
  {
    db.tasks[tid].statusInfo
  }

  /** The fallback of a crashed analysis leaves a key readable if and only if the
      analysis had already ended. */
  lemma CrashKeepsKeyExactly(db: Db, tid: string, key: string, reason: string)
    requires tid in db.tasks && Carries(Info(db, tid), key) && Clean(key) && MarkerFree(reason)
    ensures tid in AnalysisCrash(db, tid, reason).tasks
    ensures ExtractKey(Info(AnalysisCrash(db, tid, reason), tid)) == key <==> !Open(db.tasks[tid].analysisStatus)
  {
    CarriedIsExtracted(Info(db, tid), key);
    NoMarkerNoKey(reason);
  }

  /** An analysis transition keeps a key readable, and brings none back. */
  lemma AnalysisKeepsKey(db: Db, tid: string, key: string, toState: int, reason: string)
    requires tid in db.tasks && MarkerFree(reason)
    ensures var db' := TransitionAnalysis(db, tid, toState, reason);
      && tid in db'.tasks
      && (Carries(Info(db, tid), key) ==> Carries(Info(db', tid), key))
      && (MarkerFree(Info(db, tid)) ==> MarkerFree(Info(db', tid)))
  {
    if Carries(Info(db, tid), key) { MergeCarries(Info(db, tid), key, reason); }
    if MarkerFree(Info(db, tid)) { NoMarkerNoKey(Info(db, tid)); }
  }

  /** The state of the column: the key and its notes, or no key for good. */
  ghost predicate Holds(db: Db, tid: string, key: string, lost: bool) {
    tid in db.tasks && if lost then MarkerFree(Info(db, tid)) else Carries(Info(db, tid), key)
  }

  lemma WriteHolds(db: Db, tid: string, key: string, lost: bool, w: Write)
    requires Holds(db, tid, key, lost) && PlainAnalysis(w)
    ensures var a := db.tasks[tid].analysisStatus;
      && Holds(Apply(db, w), tid, key, lost || (w.CrashAnalysis? && w.tid == tid && Open(a)))
      && Apply(db, w).tasks[tid].analysisStatus == StatusAfter(tid, a, w)
  {
    if w.Analyse? && w.tid == tid { AnalysisKeepsKey(db, tid, key, w.toState, w.reason); }
  }

  lemma {:induction false} WritesHold(db: Db, tid: string, key: string, lost: bool, ws: seq<Write>)
    requires Holds(db, tid, key, lost) && forall i :: 0 <= i < |ws| ==> PlainAnalysis(ws[i])
    ensures Holds(Written(db, ws), tid, key, lost || CrashTakesEffect(tid, db.tasks[tid].analysisStatus, ws))
    decreases |ws|
  {
    if ws != [] {
      var now := lost || (ws[0].CrashAnalysis? && ws[0].tid == tid && Open(db.tasks[tid].analysisStatus));
      WriteHolds(db, tid, key, lost, ws[0]);
      WritesHold(Apply(db, ws[0]), tid, key, now, ws[1..]);
    }
  }

  /** Over any sequence of analysis writes, to this task and to others, a key that a row
      carries stays readable if and only if no crash finds the analysis still open. */
  lemma KeyReadableUnlessCrash(db: Db, tid: string, key: string, ws: seq<Write>)
    requires tid in db.tasks && Carries(Info(db, tid), key) && Clean(key)
    requires forall i :: 0 <= i < |ws| ==> PlainAnalysis(ws[i])
    ensures tid in Written(db, ws).tasks
    ensures ExtractKey(Info(Written(db, ws), tid)) == key <==> !CrashTakesEffect(tid, db.tasks[tid].analysisStatus, ws)
  {
    WritesHold(db, tid, key, false, ws);
    var info := Info(Written(db, ws), tid);
    if CrashTakesEffect(tid, db.tasks[tid].analysisStatus, ws) {
      NoMarkerNoKey(info);
    } else {
      CarriedIsExtracted(info, key);
    }
  }

  /** The same from the poller's success on: whatever the row held before, the stored key
      is readable after the writes if and only if it is clean and no crash finds the
      analysis still open. */
  lemma StoredKeyReadable(db: Db, tid: string, resp: FetchResponse, storage: Storage, now: int, ws: seq<Write>)
    requires tid in db.tasks && PersistResult(tid, resp, storage).Key? && forall i :: 0 <= i < |ws| ==> PlainAnalysis(ws[i])
    ensures var key, db' := PersistResult(tid, resp, storage).key, StoreFetched(db, tid, resp, storage, now);
      && tid in db'.tasks && tid in Written(db', ws).tasks
      && (ExtractKey(Info(Written(db', ws), tid)) == key <==>
            Clean(key) && !CrashTakesEffect(tid, db.tasks[tid].analysisStatus, ws))
  {
    var key, db' := PersistResult(tid, resp, storage).key, StoreFetched(db, tid, resp, storage, now);
    StoreFetchedFinishes(db, tid, resp, storage, now);
    assert Info(db', tid) == ReadyInfo(key) && db'.tasks[tid].analysisStatus == db.tasks[tid].analysisStatus;
    RowsStay(db', tid, ws);
    if Clean(key) {
      ReadyInfoCarries(key);
      KeyReadableUnlessCrash(db', tid, key, ws);
    } else {
      ExtractedIsClean(Info(Written(db', ws), tid));
    }
  }

  lemma {:induction false} RowsStay(db: Db, tid: string, ws: seq<Write>)
    requires tid in db.tasks && forall i :: 0 <= i < |ws| ==> PlainAnalysis(ws[i])
    ensures tid in Written(db, ws).tasks
    decreases |ws|
  {
    if ws != [] {
      assert PlainAnalysis(ws[0]);
      RowsStay(Apply(db, ws[0]), tid, ws[1..]);
    }
  }
}
