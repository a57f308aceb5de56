/** Whether the analyser finds what the agent's worker stores: the API server's table of task
    types, the analyser's table of input files, and the names of the worker's artefacts. */
module ArtefactNames {
  import opened DispatchServer
  import opened AgentWorker

  /** The combinations for which the API server creates a task. */
  predicate ValidCombination(taskType: nat, profilerType: nat) {
    match taskType
    case 0 => profilerType == 0
    case 1 => profilerType == 1
    case 4 => profilerType == 4
    case 5 => profilerType == 6
    case 6 => profilerType == 3
    case 10 => profilerType == 2
    case 11 => profilerType == 2
    case 12 => profilerType == 5
    case _ => false
  }

  /** The files the analyser tries for a type of task. */
  function Candidates(taskType: nat, tid: TaskId): seq<string> {
    match taskType
    case 0 => ["collapsed.txt", tid + ".collapsed", "perf.script.txt", tid + ".txt", "perf.data", tid + ".data"]
    case 1 => ["collapsed.txt", tid + ".collapsed", tid + ".txt"]
    case 2 => ["tracing.json", "tracing.csv", tid + ".json", tid + ".csv"]
    case 4 => ["memleak.xml", "memleak.txt", "memleak.json", "memray.json", "memray.html", tid + ".json", tid + ".html", tid + ".bin"]
    case 5 => ["pidstat.csv", "pidstat.json", tid + ".json"]
    case 6 => ["biosnoop.csv", "biosnoop.json", tid + ".json", tid + ".txt"]
    case 7 => ["bw_sync.json", "bw_sync.csv"]
    case 8 => ["namespace.txt"]
    case 9 => ["assembly.txt", "objdump.txt"]
    case 10 => ["pprof.cpu", "pprof.pb.gz", tid + ".pb.gz"]
    case 11 => ["pprof.heap", "pprof_heap.pb.gz", tid + ".pb.gz"]
    case 12 => ["heap.hprof", tid + ".hprof"]
    case _ => ["perf.data", "collapsed.txt", tid + ".data", tid + ".txt"]
  }

  /** The analyser looks for the key, in the agent's directory. */
  ghost predicate LookedFor(taskType: nat, tid: TaskId, key: string) {
    exists k :: 0 <= k < |Candidates(taskType, tid)| && key == "profiler/" + tid + "/" + Candidates(taskType, tid)[k]
  }

  /** Every task the API server accepts: what the worker stores, processed or not, is
      looked for by the analysis of that type of task. */
  lemma StoredIsLookedFor(taskType: nat, profilerType: nat, tid: TaskId, ext: string) returns (k: nat)
    requires ValidCombination(taskType, profilerType) && ext in {OutputExt(profilerType), ResultExt(profilerType)}
    ensures k < |Candidates(taskType, tid)| && Candidates(taskType, tid)[k] == tid + ext
    ensures LookedFor(taskType, tid, RemoteKey(tid, ext))
  {
    k := match taskType
      case 0 => if ext == ".txt" then 3 else 5
      case 1 => 1
      case 4 => if ext == ".html" then 6 else 7
      case 5 => 2
      case 6 => 3
      case 10 => 2
      case 11 => 2
      case _ => 1;
    var dir, file := "profiler/" + tid + "/", tid + ext;
    assert RemoteKey(tid, ext) == dir + file;
  }

  /** From the execution to the analysis: if the worker of an accepted task uploads an
      artefact, the analysis of the task looks for it. */
  method ExecuteAndFind(task: TaskDesc, o: Outcome) returns (r: TaskResult)
    ensures r.taskId == task.taskId && FromCollector(r)
    ensures r.cosKey != "" <==> o.exitCode == 0 && o.upload.Uploaded?
    ensures r.cosKey != "" && ValidCombination(task.taskType, task.profilerType) ==> LookedFor(task.taskType, task.taskId, r.cosKey)
  {
    r := BuildResult(task, o);
    if r.cosKey != "" && ValidCombination(task.taskType, task.profilerType) {
      var ext := if o.byProfiler && o.postOk then ResultExt(task.profilerType) else OutputExt(task.profilerType);
      var k := StoredIsLookedFor(task.taskType, task.profilerType, task.taskId, ext);
    }
  }
}
