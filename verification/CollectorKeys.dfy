/** The artefact keys of results that come from the agent's own worker: for plain task ids
    they are always clean, so only the moment of the poll decides whether they are read. */
module CollectorKeys {
  import opened TaskDb
  import opened Poller
  import opened PollerProtocol
  import opened PollerOutcome
  import opened AgentWorker
  import opened ArtefactKey
  import DS = DispatchServer
  import DispatchSystem
  import StatusInfo

  /** Every cached result is a worker's, under its own task. */
  ghost predicate Collected(results: map<string, DS.TaskResult>) {
    forall id :: id in results ==> results[id].taskId == id && FromCollector(results[id])
  }

  ghost predicate CollectorReports(a: Act) {
    a.SystemStep? && (a.step.Finish? || a.step.Cancel?) ==> FromCollector(a.step.result)
  }

  /** A run in which only workers report. */
  ghost predicate CollectorRun(ws: seq<World>, acts: seq<Act>, tid: string) {
    && PollRun(ws, acts, tid) && Collected(ws[0].sys.server.results)
    && forall i :: 0 <= i < |acts| ==> CollectorReports(acts[i])
  }

  lemma DoKeepsCollected(w: World, tid: string, a: Act)
    requires Possible(w, a) && CollectorReports(a) && Collected(w.sys.server.results)
    ensures Collected(Do(w, tid, a).sys.server.results)
  {
    if a.SystemStep? {
      var results := DispatchSystem.Next(w.sys, a.step).server.results;
      forall id | id in results ensures results[id].taskId == id && FromCollector(results[id]) {
        ResultsAfter(w.sys, a.step, id);
      }
    }
  }

  lemma {:induction false} ResultsStayCollected(ws: seq<World>, acts: seq<Act>, tid: string, i: nat)
    requires CollectorRun(ws, acts, tid) && i < |ws|
    ensures Collected(ws[i].sys.server.results)
  {
    if i > 0 {
      ResultsStayCollected(ws, acts, tid, i - 1);
      assert ActAt(ws, acts, tid, i - 1);
      assert CollectorReports(acts[i - 1]);
      DoKeepsCollected(ws[i - 1], tid, acts[i - 1]);
    }
  }

  /** Uploaded or embedded, a worker's artefact has the key named after its task. */
  lemma CollectorArtefact(r: DS.TaskResult) returns (ext: string)
    requires FromCollector(r) && r.errorMessage == ""
    ensures ext in EXTENSIONS && ArtefactOf(r.taskId, r) == Key(RemoteKey(r.taskId, ext))
  {
    ext :| ext in EXTENSIONS && NamedAfter(r, ext);
    OkIsNoStatus();
  }

  /** An embedded file without a name is stored as raw data of its task. */
  lemma UnnamedArtefact(r: DS.TaskResult)
    requires r.errorMessage == "" && r.cosKey == "" && r.file.Some? && r.file.value.name == "" && r.file.value.content != []
    ensures ArtefactOf(r.taskId, r) == Key(RemoteKey(r.taskId, ".data"))
  {
    OkIsNoStatus();
    var dir, file := "profiler/" + r.taskId + "/", r.taskId + ".data";
    assert RemoteKey(r.taskId, ".data") == dir + file;
  }

  /** The whole life of a worker's key: for a plain task id, after any run that ended in
      success and any later analysis writes, the key named after the task is readable if
      and only if the poll ended at a first read and no crash found the analysis open. */
  lemma CollectorKeyReadable(ws: seq<World>, acts: seq<Act>, tid: string, j: nat, analysis: seq<Write>)
    returns (i: nat, ext: string)
    requires CollectorRun(ws, acts, tid) && PlainId(tid) && j < |ws| && ws[j].poll.Returned?
    requires tid in ws[j].db.tasks && ws[j].db.tasks[tid].status == SUCCESS
    requires forall k :: 0 <= k < |analysis| ==> PlainAnalysis(analysis[k])
    ensures i < j && !ws[i].poll.Returned? && ws[i + 1].poll.Returned? && ext in EXTENSIONS
    ensures tid in Written(ws[j].db, analysis).tasks
    ensures StatusInfo.ExtractKey(Info(Written(ws[j].db, analysis), tid)) == RemoteKey(tid, ext) <==>
      acts[i].FirstRead? && !CrashTakesEffect(tid, ws[j].db.tasks[tid].analysisStatus, analysis)
  {
    i := KeyReadableExactly(ws, acts, tid, j);
    ResultsStayCollected(ws, acts, tid, i);
    var r := ws[i].sys.server.results[tid];
    ext := CollectorArtefact(r);
    RemoteKeyIsClean(tid, ext);
    ReadableAfterWrites(ws[j].db, tid, r, acts[i], ws[i], analysis);
  }
}
