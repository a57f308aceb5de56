/** The agent: a bounded queue fed by heartbeat replies, and the result the worker
    builds for each task it executes. */
module AgentWorker {
  import opened Text
  import opened DispatchServer
  import Poller
  import StatusInfo

  class HotmethodChannel {
    var taskQueue: seq<TaskDesc>

    constructor ()
      ensures taskQueue == []
    {
      taskQueue := [];
    }

    /** A full queue drops the task. */
    method PushTask(task: TaskDesc)
      modifies this
      ensures taskQueue == Offer(old(taskQueue), task)
    {
      if |taskQueue| >= MAX_TASK_QUEUE_SIZE { return; }
      taskQueue := taskQueue + [task];
    }

    /** The worker takes the oldest task. */
    method TakeTask() returns (task: TaskDesc)
      requires taskQueue != []
      modifies this
      ensures [task] + taskQueue == old(taskQueue)
    {
      task := taskQueue[0];
      taskQueue := taskQueue[1..];
    }
  }

  const PERF: nat := 0
  const ASYNC_PROFILER: nat := 1
  const PPROF: nat := 2
  const BPFTRACE: nat := 3
  const MEMRAY: nat := 4
  const JAVA_HEAP: nat := 5
  const RESOURCE: nat := 6

  const MAX_EMBED_SIZE: nat := 16 * 1024 * 1024

  function OutputExt(profilerType: nat): string {
    if profilerType == BPFTRACE then ".txt"
    else if profilerType == ASYNC_PROFILER then ".collapsed"
    else if profilerType == PPROF then ".pb.gz"
    else if profilerType == MEMRAY then ".bin"
    else if profilerType == JAVA_HEAP then ".hprof"
    else if profilerType == RESOURCE then ".json"
    else ".data"
  }

  function ResultExt(profilerType: nat): string {
    if profilerType == PERF then ".txt"
    else if profilerType == MEMRAY then ".html"
    else OutputExt(profilerType)
  }

  function RemoteKey(taskId: TaskId, ext: string): string {
    "profiler/" + taskId + "/" + taskId + ext
  }

  datatype Upload = NoStorage | Uploaded | UploadFailed

  /** What the execution produced: the exit code, whether a profiler (not a script)
      ran and its post-processing worked, how the upload went, and the local file. */
  datatype Outcome = Outcome(exitCode: int, byProfiler: bool, postOk: bool, upload: Upload,
                             localFile: Option<seq<bv8>>)

  /** Not empty and at most 16 MiB. */
  predicate Embeddable(o: Outcome) {
    o.localFile.Some? && 0 < |o.localFile.value| <= 16_777_216
  }

  /** An error the poller cannot mistake for a status, and an artefact when there is no error. */
  ghost predicate WellMade(r: TaskResult) {
    if r.errorMessage == ""
    then r.cosKey != "" || (r.file.Some? && r.file.value.content != [])
    else !(Poller.STATUS_PREFIX <= r.errorMessage) && r.errorMessage != Poller.NOT_FOUND
  }

  /** The kinds of files collectors make. */
  const EXTENSIONS := {".txt", ".collapsed", ".pb.gz", ".bin", ".hprof", ".json", ".data", ".html"}

  /** A result without error names its artefact after the task. */
  ghost predicate FromCollector(r: TaskResult) {
    r.errorMessage == "" ==> exists ext :: ext in EXTENSIONS && NamedAfter(r, ext)
  }

  ghost predicate NamedAfter(r: TaskResult, ext: string) {
    if r.cosKey != "" then r.cosKey == RemoteKey(r.taskId, ext)
    else r.file.Some? && r.file.value.content != [] && r.file.value.name == r.taskId + ext
  }

  /** Task ids that can stand in a key. */
  predicate PlainId(id: TaskId) { ' ' !in id && ';' !in id && '\r' !in id && '\n' !in id }

  lemma ExtensionsArePlain(ext: string)
    requires ext in EXTENSIONS
    ensures ext != "" && PlainId(ext) && !GoSpace(ext[|ext| - 1])
  {
  }

  /** Every key a collector makes for a plain task id is clean. */
  lemma RemoteKeyIsClean(id: TaskId, ext: string)
    requires PlainId(id) && ext in EXTENSIONS
    ensures StatusInfo.Clean(RemoteKey(id, ext))
  {
    ExtensionsArePlain(ext);
    var key, stem := RemoteKey(id, ext), "profiler/" + id + "/" + id;
    assert key == stem + ext && key[0] == 'p' && key[|key| - 1] == ext[|ext| - 1];
    forall c | c in key ensures c != ' ' && c != ';' && c != '\r' && c != '\n' {
      assert c in "profiler/" || c in id || c in "/" || c in ext;
    }
    SpaceFreeHasNoMarker(key);
  }

  lemma SpaceFreeHasNoMarker(s: string)
    requires ' ' !in s
    ensures !Contains(s, StatusInfo.MARKER)
  {
    forall i ensures !OccursAt(s, StatusInfo.MARKER, i) {
      if 0 <= i && i + |StatusInfo.MARKER| <= |s| {
        assert StatusInfo.MARKER[9] == ' ';
        assert s[i..i + |StatusInfo.MARKER|][9] == s[i + 9];
      }
    }
  }

  lemma NotAStatus(message: string, first: char)
    requires message != "" && message[0] == first && first != 'S' && first != 'R'
    ensures !(Poller.STATUS_PREFIX <= message) && message != Poller.NOT_FOUND
  {
    assert Poller.STATUS_PREFIX[0] == 'S' && Poller.NOT_FOUND[0] == 'R';
  }

  /** Assemble the result of a task. It reports success exactly when the run succeeded
      and the artefact was uploaded, or could be embedded after a failed upload. */
  method BuildResult(task: TaskDesc, o: Outcome) returns (r: TaskResult)
    ensures r.taskId == task.taskId && WellMade(r) && FromCollector(r)
    ensures r.errorMessage == "" <==>
      o.exitCode == 0 && (o.upload.Uploaded? || (o.upload.UploadFailed? && Embeddable(o)))
    ensures r.cosKey != "" <==> o.exitCode == 0 && o.upload.Uploaded?
    ensures r.cosKey != "" ==>
      r.cosKey == RemoteKey(task.taskId, if o.byProfiler && o.postOk then ResultExt(task.profilerType)
                                         else OutputExt(task.profilerType))
    ensures r.file.Some? ==> Embeddable(o) && r.file.value.content == o.localFile.value && r.cosKey == ""
  {
    r := TaskResult(task.taskId, "", "", None);
    if o.exitCode != 0 {
      r := r.(errorMessage := "profiler failed with code " + ToString(o.exitCode));
      NotAStatus(r.errorMessage, 'p');
      return;
    }
    var uploadExt := OutputExt(task.profilerType);
    var uploadPath := "/tmp/profiler_" + task.taskId + uploadExt;
    if o.byProfiler {
      var resultExt := ResultExt(task.profilerType);
      if o.postOk {
        uploadPath := "/tmp/result_" + task.taskId + resultExt;
        uploadExt := resultExt;
      }
    }
    match o.upload
    case NoStorage =>
      r := r.(errorMessage := "no storage configured, cannot upload result");
      NotAStatus(r.errorMessage, 'n');
    case Uploaded =>
      r := r.(cosKey := RemoteKey(task.taskId, uploadExt));
    case UploadFailed =>
      if o.localFile.Some? {
        var content := o.localFile.value;
        if 0 < |content| <= MAX_EMBED_SIZE {
          r := r.(file := Some(EmbeddedFile(task.taskId + uploadExt, content)));
        } else {
          r := r.(errorMessage := "upload failed, local file: " + uploadPath);
          NotAStatus(r.errorMessage, 'u');
        }
      } else {
        r := r.(errorMessage := "upload failed and cannot read local file: " + uploadPath);
        NotAStatus(r.errorMessage, 'u');
      }
  }

  /** The result reported for a queued task when the agent shuts down. */
  method CancelResult(task: TaskDesc) returns (r: TaskResult)
    ensures r.taskId == task.taskId && WellMade(r) && r.errorMessage != ""
  {
    r := TaskResult(task.taskId, "agent shutting down", "", None);
    NotAStatus(r.errorMessage, 'a');
  }
}
