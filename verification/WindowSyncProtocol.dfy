/** Window sync running against drop_server: syncs of any parents are interleaved with
    the steps of the dispatch system and with the writes of analyses. What the sync
    needs of the listed windows is proved here of every run instead of assumed. */
module WindowSyncProtocol {
  import opened Text
  import opened DispatchServer
  import opened DispatchSystem
  import opened DispatchSafety
  import opened DispatchTheorems
  import opened TaskDb
  import opened WindowSync
  import opened WindowHistory
  import WindowId

  // ---------- every recorded window is completed ----------

  ghost predicate CompletedAt(server: ServerState, p: TaskId) {
    forall i :: 0 <= i < |At(server.windows, p)| ==> At(server.windows, p)[i].status in {1, 2}
  }

  ghost predicate Completed(server: ServerState) { forall p :: CompletedAt(server, p) }

  lemma NotifyKeepsCompleted(server: ServerState, r: TaskResult, now: int, wall: int, p: TaskId)
    requires CompletedAt(server, p)
    ensures CompletedAt(Notify(server, r, now, wall), p)
  {
    if WindowId.ParentOf(r.taskId) == Some(p) && p in server.continuous {
      var rec := NotifyRecords(server, r, p, now, wall);
    } else {
      NotifyLeaves(server, r, now, wall, p);
    }
  }

  /** Every other operation adds no record. */
  lemma OtherStepsAddNone(s: System, step: Step, p: TaskId)
    requires Enabled(s, step) && !step.Finish? && !step.Cancel?
    ensures At(Next(s, step).server.windows, p) == At(s.server.windows, p) || At(Next(s, step).server.windows, p) == []
  {
  }

  /** Every step leaves only completed windows recorded. */
  lemma NextKeepsCompleted(s: System, step: Step)
    requires Completed(s.server) && Enabled(s, step)
    ensures Completed(Next(s, step).server)
  {
    NextRunsTheServer(s, step);
    forall p ensures CompletedAt(Next(s, step).server, p) {
      assert CompletedAt(s.server, p);
      match step {
        case Finish(_, r, now, wall) => NotifyKeepsCompleted(s.server, r, now, wall, p);
        case Cancel(_, r, now, wall) => NotifyKeepsCompleted(s.server, r, now, wall, p);
        case _ => OtherStepsAddNone(s, step, p);
      }
    }
  }

  // ---------- the composed system ----------

  datatype World = World(sys: System, sync: SyncState)

  datatype Act =
    | SystemStep(step: Step)
    | SyncParent(parent: TaskId)
    | AnalysisStep(w: Write)

  predicate Feasible(w: World, a: Act) {
    match a
    case SystemStep(step) => Enabled(w.sys, step)
    case SyncParent(_) => true
    case AnalysisStep(w) => w.Analyse? || w.CrashAnalysis?
  }

  /** The windows drop_server lists for a parent. */
  function Listed(s: System, p: TaskId): seq<WindowRecord> { At(s.server.windows, p) }

  function Do(w: World, a: Act, configured: bool): World
    requires Feasible(w, a)
  {
    match a
    case SystemStep(step) => w.(sys := Next(w.sys, step))
    case SyncParent(p) => w.(sync := SyncAll(w.sync, p, Listed(w.sys, p), configured))
    case AnalysisStep(write) => w.(sync := w.sync.(db := Apply(w.sync.db, write)))
  }

  // ---------- lists of windows ----------

  lemma ListedAreWindows(s: System, p: TaskId)
    requires Inv(s) && Completed(s.server)
    ensures RecordsNumbered(p, Listed(s, p)) && WindowList(Listed(s, p))
  {
    assert CompletedAt(s.server, p);
    var ws := Listed(s, p);
    if ws != [] {
      assert p in s.server.continuous && p != "";
      forall i, j | 0 <= i < j < |ws| ensures ws[i].windowTid != ws[j].windowTid {
        if ws[i].windowTid == ws[j].windowTid { WindowId.MakeInjective(p, i, p, j); }
      }
    }
  }

  lemma {:induction false} SyncAllElsewhere(s: SyncState, q: TaskId, ws: seq<WindowRecord>, configured: bool, p: TaskId, v: WindowRecord)
    requires forall i :: 0 <= i < |ws| ==> ws[i].windowTid != v.windowTid
    ensures Unknown(s, v.windowTid) ==> Unknown(SyncAll(s, q, ws, configured), v.windowTid)
    ensures Synced(s, p, v, configured) ==> Synced(SyncAll(s, q, ws, configured), p, v, configured)
    decreases |ws|
  {
    if ws != [] {
      var n := |ws| - 1;
      SyncAllElsewhere(s, q, ws[..n], configured, p, v);
      SyncElsewhere(SyncAll(s, q, ws[..n], configured), q, ws[n], configured, p, v);
    }
  }

  // ---------- the invariant ----------

  /** The first `k` listed windows of `p` are synced, and nothing is known of any other
      window of `p`, listed or yet to come. */
  ghost predicate SyncedTo(w: World, p: TaskId, k: nat, configured: bool) {
    && k <= |Listed(w.sys, p)|
    && (forall i :: 0 <= i < k ==> Synced(w.sync, p, Listed(w.sys, p)[i], configured))
    && (forall n :: n >= k ==> Unseen(w.sync, p, n))
  }

  ghost predicate Unseen(s: SyncState, p: TaskId, n: int) { Unknown(s, WindowId.Make(p, n)) }

  /** A record of window number `n`, for its id only. */
  function Blank(p: TaskId, n: int): WindowRecord { WindowRecord(WindowId.Make(p, n), n, 0, 0, 1, "") }

  lemma OwnSync(w: World, p: TaskId, k: nat, configured: bool)
    requires Inv(w.sys) && Completed(w.sys.server) && p != "" && SyncedTo(w, p, k, configured)
    ensures SyncedTo(Do(w, SyncParent(p), configured), p, |Listed(w.sys, p)|, configured)
  {
    var ws := Listed(w.sys, p);
    ListedAreWindows(w.sys, p);
    forall i | k <= i < |ws| ensures Unknown(w.sync, ws[i].windowTid) { assert Unseen(w.sync, p, i); }
    SyncPrefix(w.sync, p, ws, k, |ws|, configured);
    assert ws[..|ws|] == ws;
    var s' := SyncAll(w.sync, p, ws, configured);
    forall n | n >= |ws| ensures Unseen(s', p, n) {
      assert Unseen(w.sync, p, n);
      forall i | 0 <= i < |ws| ensures ws[i].windowTid != Blank(p, n).windowTid {
        if ws[i].windowTid == WindowId.Make(p, n) { WindowId.MakeInjective(p, i, p, n); }
      }
      SyncAllElsewhere(w.sync, p, ws, configured, p, Blank(p, n));
    }
  }

  lemma OtherSync(w: World, q: TaskId, p: TaskId, k: nat, configured: bool)
    requires Inv(w.sys) && Completed(w.sys.server) && p != "" && q != p && SyncedTo(w, p, k, configured)
    ensures SyncedTo(Do(w, SyncParent(q), configured), p, k, configured)
  {
    var ws, own := Listed(w.sys, q), Listed(w.sys, p);
    ListedAreWindows(w.sys, q);
    ListedAreWindows(w.sys, p);
    forall n | n >= 0 ensures forall i :: 0 <= i < |ws| ==> ws[i].windowTid != WindowId.Make(p, n) {
      ForeignWindows(w.sys, q, p, n);
    }
    forall i | 0 <= i < k ensures Synced(SyncAll(w.sync, q, ws, configured), p, own[i], configured) {
      assert own[i].windowTid == WindowId.Make(p, i);
      SyncAllElsewhere(w.sync, q, ws, configured, p, own[i]);
    }
    forall n | n >= k ensures Unseen(SyncAll(w.sync, q, ws, configured), p, n) {
      assert Unseen(w.sync, p, n);
      SyncAllElsewhere(w.sync, q, ws, configured, p, Blank(p, n));
    }
  }

  lemma ForeignWindows(s: System, q: TaskId, p: TaskId, n: nat)
    requires Inv(s) && Completed(s.server) && p != "" && q != p
    ensures forall i :: 0 <= i < |Listed(s, q)| ==> Listed(s, q)[i].windowTid != WindowId.Make(p, n)
  {
    var ws := Listed(s, q);
    ListedAreWindows(s, q);
    forall i | 0 <= i < |ws| ensures ws[i].windowTid != WindowId.Make(p, n) {
      assert q in s.server.continuous && q != "";
      if WindowId.Make(q, i) == WindowId.Make(p, n) { WindowId.MakeInjective(q, i, p, n); }
    }
  }

  lemma AnalysisSync(w: World, write: Write, p: TaskId, k: nat, configured: bool)
    requires (write.Analyse? || write.CrashAnalysis?) && SyncedTo(w, p, k, configured)
    ensures SyncedTo(Do(w, AnalysisStep(write), configured), p, k, configured)
  {
    var s' := w.sync.(db := Apply(w.sync.db, write));
    forall i | 0 <= i < k ensures Synced(s', p, Listed(w.sys, p)[i], configured) {
      AnalysisKeepsSync(w.sync, p, Listed(w.sys, p)[i], write, configured);
    }
    forall n | n >= k ensures Unseen(s', p, n) {
      assert Unseen(w.sync, p, n);
      AnalysisKeepsSync(w.sync, p, Blank(p, n), write, configured);
    }
  }

  lemma ListGrows(s: System, step: Step, p: TaskId)
    requires Inv(s) && Enabled(s, step)
    ensures Listed(s, p) <= Listed(Next(s, step), p)
  {
    NextExtends(s, step);
    if p !in s.server.continuous { assert p !in s.server.windows; }
  }

  lemma SystemSync(w: World, step: Step, p: TaskId, k: nat, configured: bool)
    requires Inv(w.sys) && Enabled(w.sys, step) && SyncedTo(w, p, k, configured)
    ensures SyncedTo(Do(w, SystemStep(step), configured), p, k, configured)
  {
    ListGrows(w.sys, step, p);
    StillSynced(w, Next(w.sys, step), p, k, configured);
  }

  lemma StillSynced(w: World, sys: System, p: TaskId, k: nat, configured: bool)
    requires SyncedTo(w, p, k, configured) && Listed(w.sys, p) <= Listed(sys, p)
    ensures SyncedTo(w.(sys := sys), p, k, configured)
  {
    forall i | 0 <= i < k ensures Listed(sys, p)[i] == Listed(w.sys, p)[i] {}
  }

  // ---------- every run ----------

  ghost predicate ActAt(ws: seq<World>, acts: seq<Act>, configured: bool, i: nat)
    requires i < |acts| < |ws|
  {
    Feasible(ws[i], acts[i]) && ws[i + 1] == Do(ws[i], acts[i], configured)
  }

  /** A run from the empty system; the database starts without windows of `p`. */
  ghost predicate SyncRun(ws: seq<World>, acts: seq<Act>, configured: bool, p: TaskId) {
    && |ws| == |acts| + 1 && ws[0].sys == INITIAL && (forall n :: n >= 0 ==> Unseen(ws[0].sync, p, n))
    && forall i :: 0 <= i < |acts| ==> ActAt(ws, acts, configured, i)
  }

  /** How many windows of `p` were listed at its last sync. */
  function Shown(ws: seq<World>, acts: seq<Act>, p: TaskId, i: nat): nat
    requires i <= |acts| < |ws|
  {
    if i == 0 then 0
    else if acts[i - 1] == SyncParent(p) then |Listed(ws[i - 1].sys, p)|
    else Shown(ws, acts, p, i - 1)
  }

  lemma {:induction false} SystemHolds(ws: seq<World>, acts: seq<Act>, configured: bool, p: TaskId, i: nat)
    requires SyncRun(ws, acts, configured, p) && i < |ws|
    ensures Inv(ws[i].sys) && Completed(ws[i].sys.server)
  {
    if i == 0 {
      InitialInv();
      forall q ensures CompletedAt(INITIAL.server, q) {}
    } else {
      SystemHolds(ws, acts, configured, p, i - 1);
      assert ActAt(ws, acts, configured, i - 1);
      if acts[i - 1].SystemStep? {
        NextKeepsInv(ws[i - 1].sys, acts[i - 1].step);
        NextKeepsCompleted(ws[i - 1].sys, acts[i - 1].step);
      }
    }
  }

  lemma ActSyncs(w: World, a: Act, p: TaskId, k: nat, configured: bool)
    requires Inv(w.sys) && Completed(w.sys.server) && Feasible(w, a) && p != "" && SyncedTo(w, p, k, configured)
    ensures SyncedTo(Do(w, a, configured), p, if a == SyncParent(p) then |Listed(w.sys, p)| else k, configured)
  {
    match a
    case SystemStep(step) => SystemSync(w, step, p, k, configured);
    case SyncParent(q) => if q == p { OwnSync(w, p, k, configured); } else { OtherSync(w, q, p, k, configured); }
    case AnalysisStep(write) => AnalysisSync(w, write, p, k, configured);
  }

  /** Over every run of drop_server with its agents, of syncs of any parents and of
      analysis writes: the windows of a parent listed at its last sync each have one
      row, one child task and one creation record, their analysis started once if due
      and never otherwise, and no other window of it has left a trace. */
  lemma {:induction false} EveryWindowOnce(ws: seq<World>, acts: seq<Act>, configured: bool, p: TaskId, i: nat)
    requires SyncRun(ws, acts, configured, p) && p != "" && i < |ws|
    ensures SyncedTo(ws[i], p, Shown(ws, acts, p, i), configured)
  {
    if i > 0 {
      EveryWindowOnce(ws, acts, configured, p, i - 1);
      SystemHolds(ws, acts, configured, p, i - 1);
      assert ActAt(ws, acts, configured, i - 1);
      ActSyncs(ws[i - 1], acts[i - 1], p, Shown(ws, acts, p, i - 1), configured);
    }
  }

  // ---------- from the agent's result to the child task ----------

  /** The steps of the dispatch system among the acts. */
  function StepsOf(acts: seq<Act>): seq<Step> {
    if acts == [] then []
    else
      var a := acts[|acts| - 1];
      StepsOf(acts[..|acts| - 1]) + if a.SystemStep? then [a.step] else []
  }

  /** The records of `p` are the results reported for its windows. */
  lemma {:induction false} ListedAreResults(ws: seq<World>, acts: seq<Act>, configured: bool, p: TaskId, i: nat)
    requires SyncRun(ws, acts, configured, p) && i < |ws|
    ensures Recorded(ws[i].sys.server, p, WindowResults(StepsOf(acts[..i]), p))
  {
    if i > 0 {
      ListedAreResults(ws, acts, configured, p, i - 1);
      assert ActAt(ws, acts, configured, i - 1);
      assert acts[..i][..i - 1] == acts[..i - 1];
      var before, a := StepsOf(acts[..i - 1]), acts[i - 1];
      assert before + [] == before;
      if a.SystemStep? {
        SystemHolds(ws, acts, configured, p, i - 1);
        if WindowResult(a.step, p) != [] { ReportedParentKnown(ws[i - 1].sys, a.step, p); }
        NextRecorded(ws[i - 1].sys, a.step, p, WindowResults(before, p));
        assert (before + [a.step])[..|before|] == before;
      }
    }
  }

  /** Over every run, from what the agents reported to the task table: the `j`-th result
      reported for a parent's windows is window `j`; once listed to a sync, its child task
      is successful if and only if the result had no error, ends when it arrived, and its
      analysis is started, once, if and only if the result also named an artefact. */
  lemma WindowOutcome(ws: seq<World>, acts: seq<Act>, configured: bool, p: TaskId, i: nat, j: nat)
    requires SyncRun(ws, acts, configured, p) && p != "" && i < |ws| && j < Shown(ws, acts, p, i)
    ensures var ds := WindowResults(StepsOf(acts[..i]), p);
      && j < |ds| && ds[j].result.taskId == WindowId.Make(p, j) && ds[j].result.taskId in ws[i].sync.db.tasks
      && var r, row := ds[j].result, ws[i].sync.db.tasks[ds[j].result.taskId];
         && row.status == (if r.errorMessage == "" then TaskDb.SUCCESS else TaskDb.FAILED)
         && row.endTime == Some(ds[j].wall)
         && Count(ws[i].sync.started, r.taskId) == if r.errorMessage == "" && r.cosKey != "" && configured then 1 else 0
  {
    EveryWindowOnce(ws, acts, configured, p, i);
    SystemHolds(ws, acts, configured, p, i);
    ListedAreWindows(ws[i].sys, p);
    ListedAreResults(ws, acts, configured, p, i);
    var ds := WindowResults(StepsOf(acts[..i]), p);
    assert RecordAt(Listed(ws[i].sys, p), ds, j, ws[i].sys.server.continuous[p].windowSec);
    assert Synced(ws[i].sync, p, Listed(ws[i].sys, p)[j], configured);
  }
}
