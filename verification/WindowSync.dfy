/** Turning the windows drop_server lists into window rows and child tasks, and
    starting the analysis of windows that just completed. */
module WindowSync {
  import opened Text
  import opened TaskDb
  import opened DispatchServer

  datatype WindowRow = WindowRow(parentTid: string, windowTid: string, seqNo: int,
                                 startTime: int, endTime: int, status: int, cosKey: string)

  /** The task table, the window table, and the windows whose analysis was started
      by the sync, in order. */
  datatype SyncState = SyncState(db: Db, windows: seq<WindowRow>, started: seq<string>)

  /** Position of the first row of a window. */
  function Find(rows: seq<WindowRow>, tid: string): (i: int)
    ensures -1 <= i < |rows|
    ensures i >= 0 ==> rows[i].windowTid == tid
    ensures i < 0 ==> forall k :: 0 <= k < |rows| ==> rows[k].windowTid != tid
  {
    if rows == [] then -1
    else if rows[0].windowTid == tid then 0
    else var k := Find(rows[1..], tid); if k < 0 then -1 else k + 1
  }

  function UpsertWindow(rows: seq<WindowRow>, parent: string, w: WindowRecord): seq<WindowRow> {
    var i := Find(rows, w.windowTid);
    if i < 0 then
      rows + [WindowRow(parent, w.windowTid, w.seqNo, w.startTime, w.endTime, w.status, w.cosKey)]
    else
      rows[i := rows[i].(status := w.status,
                         cosKey := if w.cosKey != "" then w.cosKey else rows[i].cosKey,
                         endTime := if w.endTime > 0 then w.endTime else rows[i].endTime)]
  }

  /** Only completed windows, done or failed, get a child task. */
  predicate HasChild(w: WindowRecord) { w.windowTid != "" && (w.status == 1 || w.status == 2) }

  function EnsureChild(db: Db, w: WindowRecord): Db {
    if !HasChild(w) then db
    else if w.windowTid !in db.tasks then Apply(db, CreateWindowTask(w.windowTid, w.status == 2, w.startTime, w.endTime))
    else Apply(db, ResyncWindowTask(w.windowTid, w.status == 2, w.startTime, w.endTime))
  }

  /** Done with an artefact, and something about it is new. */
  predicate ShouldStart(s: SyncState, w: WindowRecord, configured: bool) {
    var i := Find(s.windows, w.windowTid);
    var childCreated := w.windowTid !in s.db.tasks;
    && HasChild(w) && w.status == 1 && w.cosKey != ""
    && (childCreated || i < 0 || s.windows[i].status != 1)
    && (childCreated || s.db.tasks[w.windowTid].analysisStatus == ANALYSIS_PENDING)
    && configured
  }

  function SyncOne(s: SyncState, parent: string, w: WindowRecord, configured: bool): SyncState {
    SyncState(EnsureChild(s.db, w), UpsertWindow(s.windows, parent, w),
              s.started + if ShouldStart(s, w, configured) then [w.windowTid] else [])
  }

  function SyncAll(s: SyncState, parent: string, ws: seq<WindowRecord>, configured: bool): SyncState {
    if ws == [] then s
    else SyncOne(SyncAll(s, parent, ws[..|ws| - 1], configured), parent, ws[|ws| - 1], configured)
  }

  // ---------- exactly once ----------

  function Count(xs: seq<string>, x: string): nat {
    if xs == [] then 0 else Count(xs[..|xs| - 1], x) + if xs[|xs| - 1] == x then 1 else 0
  }

  lemma CountSnoc(xs: seq<string>, y: string, x: string)
    ensures Count(xs + [y], x) == Count(xs, x) + if y == x then 1 else 0
  {
    assert (xs + [y])[..|xs|] == xs;
  }

  function Tids(rows: seq<WindowRow>): (r: seq<string>)
    ensures |r| == |rows| && forall i :: 0 <= i < |rows| ==> r[i] == rows[i].windowTid
  {
    seq(|rows|, i requires 0 <= i < |rows| => rows[i].windowTid)
  }

  /** The creation records of a task. */
  function Creations(history: seq<Change>, tid: string): seq<Change> {
    if history == [] then []
    else
      var c := history[|history| - 1];
      Creations(history[..|history| - 1], tid) +
      if c.tid == tid && c.changeType.TaskChange? && c.fromState == -1 then [c] else []
  }

  lemma CreationsSnoc(history: seq<Change>, c: Change, tid: string)
    ensures Creations(history + [c], tid) ==
      Creations(history, tid) + if c.tid == tid && c.changeType.TaskChange? && c.fromState == -1 then [c] else []
  {
    assert (history + [c])[..|history|] == history;
  }

  /** Nothing in the database knows this window yet. */
  ghost predicate Unknown(s: SyncState, tid: string) {
    && Count(Tids(s.windows), tid) == 0 && Find(s.windows, tid) < 0
    && tid !in s.db.tasks && Creations(s.db.history, tid) == [] && Count(s.started, tid) == 0
  }

  /** The child task of a window: successful if the window was done, failed if it failed,
      from the window's start to its end, and created once with that status. */
  ghost predicate ChildOf(db: Db, w: WindowRecord) {
    && w.windowTid in db.tasks
    && var row := db.tasks[w.windowTid];
       && (w.status == 1 ==> row.status == TaskDb.SUCCESS) && (w.status == 2 ==> row.status == TaskDb.FAILED)
       && row.beginTime == Some(w.startTime) && row.endTime == Some(w.endTime)
       && Creations(db.history, w.windowTid) ==
          [Change(w.windowTid, -1, row.status,
                  if w.status == 1 then "continuous window completed" else "continuous window failed", TaskChange)]
  }

  /** The window has one row with its data, one child task that matches it, and its
      analysis was started once if it is due, else never. */
  ghost predicate Synced(s: SyncState, parent: string, w: WindowRecord, configured: bool) {
    var i := Find(s.windows, w.windowTid);
    && Count(Tids(s.windows), w.windowTid) == 1
    && i >= 0 && s.windows[i] == WindowRow(parent, w.windowTid, w.seqNo, w.startTime, w.endTime, w.status, w.cosKey)
    && ChildOf(s.db, w)
    && Count(s.started, w.windowTid) == if w.status == 1 && w.cosKey != "" && configured then 1 else 0
  }

  lemma {:induction false} FindUpdate(rows: seq<WindowRow>, i: nat, row: WindowRow, tid: string)
    requires i < |rows| && row.windowTid == rows[i].windowTid
    ensures Find(rows[i := row], tid) == Find(rows, tid)
    decreases |rows|
  {
    if rows[0].windowTid != tid {
      if i == 0 {
        assert rows[0 := row][1..] == rows[1..];
      } else {
        assert rows[i := row][1..] == rows[1..][i - 1 := row];
        FindUpdate(rows[1..], i - 1, row, tid);
      }
    }
  }

  lemma {:induction false} FindSnoc(rows: seq<WindowRow>, row: WindowRow, tid: string)
    ensures Find(rows + [row], tid) ==
      if Find(rows, tid) >= 0 then Find(rows, tid) else if row.windowTid == tid then |rows| else -1
    decreases |rows|
  {
    if rows != [] {
      assert (rows + [row])[1..] == rows[1..] + [row];
      FindSnoc(rows[1..], row, tid);
    }
  }

  lemma UpsertElsewhere(rows: seq<WindowRow>, parent: string, w: WindowRecord, tid: string)
    requires tid != w.windowTid
    ensures var rows' := UpsertWindow(rows, parent, w);
      && Count(Tids(rows'), tid) == Count(Tids(rows), tid) && Find(rows', tid) == Find(rows, tid)
      && (Find(rows, tid) >= 0 ==> rows'[Find(rows, tid)] == rows[Find(rows, tid)])
  {
    var i, rows' := Find(rows, w.windowTid), UpsertWindow(rows, parent, w);
    if i < 0 {
      assert Tids(rows') == Tids(rows) + [w.windowTid];
      CountSnoc(Tids(rows), w.windowTid, tid);
      FindSnoc(rows, rows'[|rows|], tid);
    } else {
      assert Tids(rows') == Tids(rows);
      FindUpdate(rows, i, rows'[i], tid);
    }
  }

  lemma ChildElsewhere(db: Db, w: WindowRecord, tid: string)
    requires tid != w.windowTid
    ensures var db' := EnsureChild(db, w);
      && (tid in db'.tasks <==> tid in db.tasks) && (tid in db.tasks ==> db'.tasks[tid] == db.tasks[tid])
      && Creations(db'.history, tid) == Creations(db.history, tid)
  {
    var db' := EnsureChild(db, w);
    if |db'.history| > |db.history| { CreationsSnoc(db.history, db'.history[|db.history|], tid); }
    assert db.history + [] == db.history;
  }

  /** Syncing one window does not touch another. */
  lemma SyncElsewhere(s: SyncState, parent: string, w: WindowRecord, configured: bool, parent': string, v: WindowRecord)
    requires v.windowTid != w.windowTid
    ensures Unknown(s, v.windowTid) ==> Unknown(SyncOne(s, parent, w, configured), v.windowTid)
    ensures Synced(s, parent', v, configured) ==> Synced(SyncOne(s, parent, w, configured), parent', v, configured)
  {
    UpsertElsewhere(s.windows, parent, w, v.windowTid);
    ChildElsewhere(s.db, w, v.windowTid);
    CountSnoc(s.started, w.windowTid, v.windowTid);
    assert s.started + [] == s.started;
  }

  lemma FirstRow(rows: seq<WindowRow>, parent: string, w: WindowRecord)
    requires Count(Tids(rows), w.windowTid) == 0 && Find(rows, w.windowTid) < 0
    ensures var rows' := UpsertWindow(rows, parent, w); var i := Find(rows', w.windowTid);
      && Count(Tids(rows'), w.windowTid) == 1 && i >= 0
      && rows'[i] == WindowRow(parent, w.windowTid, w.seqNo, w.startTime, w.endTime, w.status, w.cosKey)
  {
    var rows' := UpsertWindow(rows, parent, w);
    assert Tids(rows') == Tids(rows) + [w.windowTid];
    CountSnoc(Tids(rows), w.windowTid, w.windowTid);
    FindSnoc(rows, rows'[|rows|], w.windowTid);
  }

  lemma SameRow(rows: seq<WindowRow>, parent: string, w: WindowRecord)
    requires var i := Find(rows, w.windowTid);
      i >= 0 && rows[i] == WindowRow(parent, w.windowTid, w.seqNo, w.startTime, w.endTime, w.status, w.cosKey)
    ensures UpsertWindow(rows, parent, w) == rows
  {
  }

  lemma FirstChild(db: Db, w: WindowRecord)
    requires HasChild(w) && w.windowTid !in db.tasks && Creations(db.history, w.windowTid) == []
    ensures ChildOf(EnsureChild(db, w), w)
  {
    var db' := EnsureChild(db, w);
    CreationsSnoc(db.history, db'.history[|db.history|], w.windowTid);
  }

  lemma SameChild(db: Db, w: WindowRecord)
    requires HasChild(w) && ChildOf(db, w)
    ensures ChildOf(EnsureChild(db, w), w)
  {
    assert db.history + [] == db.history;
  }

  /** The first sync of a window creates everything, a repeated one nothing. */
  lemma SyncHere(s: SyncState, parent: string, w: WindowRecord, configured: bool)
    requires HasChild(w)
    requires Unknown(s, w.windowTid) || Synced(s, parent, w, configured)
    ensures Synced(SyncOne(s, parent, w, configured), parent, w, configured)
  {
    CountSnoc(s.started, w.windowTid, w.windowTid);
    assert s.started + [] == s.started;
    if Unknown(s, w.windowTid) {
      FirstRow(s.windows, parent, w);
      FirstChild(s.db, w);
    } else {
      SameRow(s.windows, parent, w);
      SameChild(s.db, w);
    }
  }

  // ---------- a window whose listing changes ----------

  /** How often the window became done, with an artefact. */
  function TimesDone(us: seq<WindowRecord>): nat {
    if us == [] then 0
    else
      var n := |us| - 1;
      TimesDone(us[..n]) +
      if us[n].status == 1 && us[n].cosKey != "" && (n == 0 || us[n - 1].status != 1) then 1 else 0
  }

  ghost predicate LastKey(us: seq<WindowRecord>, key: string) {
    if key == "" then forall i :: 0 <= i < |us| ==> us[i].cosKey == ""
    else exists i :: 0 <= i < |us| && us[i].cosKey == key && forall j :: i < j < |us| ==> us[j].cosKey == ""
  }

  ghost predicate LastEnd(us: seq<WindowRecord>, end: int)
    requires us != []
  {
    if forall i :: 0 < i < |us| ==> us[i].endTime <= 0 then end == us[0].endTime
    else exists i :: 0 < i < |us| && us[i].endTime == end > 0 && forall j :: i < j < |us| ==> us[j].endTime <= 0
  }

  /** The row has the status listed last, the last key and the last end that were given,
      and everything else as listed first. */
  ghost predicate RowFollows(rows: seq<WindowRow>, parent: string, us: seq<WindowRecord>)
    requires us != []
  {
    var i := Find(rows, us[0].windowTid);
    && i >= 0 && Count(Tids(rows), us[0].windowTid) == 1
    && rows[i].parentTid == parent && rows[i].seqNo == us[0].seqNo && rows[i].startTime == us[0].startTime
    && rows[i].status == us[|us| - 1].status && LastKey(us, rows[i].cosKey) && LastEnd(us, rows[i].endTime)
  }

  ghost predicate FirstCompleted(us: seq<WindowRecord>, j: nat)
    requires j < |us|
  {
    HasChild(us[j]) && forall l :: 0 <= l < j ==> !HasChild(us[l])
  }

  ghost predicate EverCompleted(us: seq<WindowRecord>) {
    exists j :: 0 <= j < |us| && HasChild(us[j])
  }

  /** There is a child task, not yet analysed, if the window was ever completed; it has the
      status and the end listed last. */
  ghost predicate ChildShows(db: Db, us: seq<WindowRecord>)
    requires us != []
  {
    var tid, last := us[0].windowTid, us[|us| - 1];
    && (tid in db.tasks <==> EverCompleted(us))
    && (tid in db.tasks ==> db.tasks[tid].analysisStatus == ANALYSIS_PENDING && db.tasks[tid].beginTime.Some?)
    && (HasChild(last) && last.endTime > 0 ==> tid in db.tasks && db.tasks[tid].endTime == Some(last.endTime))
    && (tid in db.tasks && last.status == 1 ==> db.tasks[tid].status == TaskDb.SUCCESS)
    && (tid in db.tasks && last.status == 2 ==> db.tasks[tid].status == TaskDb.FAILED)
  }

  /** It began when the window first listed as completed did. */
  ghost predicate ChildBegan(db: Db, us: seq<WindowRecord>)
    requires us != []
  {
    forall j :: 0 <= j < |us| && FirstCompleted(us, j) ==>
      us[0].windowTid in db.tasks && db.tasks[us[0].windowTid].beginTime == Some(us[j].startTime)
  }

  /** What is stored of a window after it was listed as `us`, one after another. */
  ghost predicate Follows(s: SyncState, parent: string, us: seq<WindowRecord>, configured: bool)
    requires us != []
  {
    && RowFollows(s.windows, parent, us) && ChildShows(s.db, us) && ChildBegan(s.db, us)
    && Count(s.started, us[0].windowTid) == if configured then TimesDone(us) else 0
  }

  lemma FirstListing(s: SyncState, parent: string, w: WindowRecord, configured: bool)
    requires Unknown(s, w.windowTid) && w.windowTid != ""
    ensures Follows(SyncOne(s, parent, w, configured), parent, [w], configured)
  {
    FirstListedRow(s.windows, parent, w);
    FirstListedChild(s.db, w);
    CountSnoc(s.started, w.windowTid, w.windowTid);
    assert s.started + [] == s.started;
    assert [w][..0] == [];
  }

  lemma FirstListedChild(db: Db, w: WindowRecord)
    requires w.windowTid !in db.tasks && w.windowTid != ""
    ensures ChildShows(EnsureChild(db, w), [w]) && ChildBegan(EnsureChild(db, w), [w])
  {
    assert HasChild(w) ==> HasChild([w][0]);
    ChildBroughtUp(db, w);
  }

  lemma FirstListedRow(rows: seq<WindowRow>, parent: string, w: WindowRecord)
    requires Count(Tids(rows), w.windowTid) == 0 && Find(rows, w.windowTid) < 0
    ensures RowFollows(UpsertWindow(rows, parent, w), parent, [w])
  {
    FirstRow(rows, parent, w);
    if w.cosKey != "" { assert [w][0].cosKey == w.cosKey; }
  }

  lemma LastKeySnoc(us: seq<WindowRecord>, w: WindowRecord, key: string)
    requires LastKey(us, key)
    ensures LastKey(us + [w], if w.cosKey != "" then w.cosKey else key)
  {
    var us' := us + [w];
    assert us'[|us|] == w && forall i :: 0 <= i < |us| ==> us'[i] == us[i];
    if w.cosKey == "" && key != "" {
      var i :| 0 <= i < |us| && us[i].cosKey == key && forall j :: i < j < |us| ==> us[j].cosKey == "";
      assert us'[i].cosKey == key;
    }
  }

  lemma LastEndSnoc(us: seq<WindowRecord>, w: WindowRecord, end: int)
    requires us != [] && LastEnd(us, end)
    ensures LastEnd(us + [w], if w.endTime > 0 then w.endTime else end)
  {
    var us' := us + [w];
    assert us'[|us|] == w && forall i :: 0 <= i < |us| ==> us'[i] == us[i];
    if w.endTime <= 0 && exists i :: 0 < i < |us| && us[i].endTime > 0 {
      var i :| 0 < i < |us| && us[i].endTime == end > 0 && forall j :: i < j < |us| ==> us[j].endTime <= 0;
      assert us'[i].endTime == end;
    }
  }

  lemma NextRow(rows: seq<WindowRow>, parent: string, us: seq<WindowRecord>, w: WindowRecord)
    requires us != [] && us[0].windowTid == w.windowTid && RowFollows(rows, parent, us)
    ensures RowFollows(UpsertWindow(rows, parent, w), parent, us + [w])
  {
    var i, rows' := Find(rows, w.windowTid), UpsertWindow(rows, parent, w);
    FindUpdate(rows, i, rows'[i], w.windowTid);
    assert Tids(rows') == Tids(rows);
    LastKeySnoc(us, w, rows[i].cosKey);
    LastEndSnoc(us, w, rows[i].endTime);
  }

  lemma EverCompletedSnoc(us: seq<WindowRecord>, w: WindowRecord)
    ensures EverCompleted(us + [w]) <==> HasChild(w) || EverCompleted(us)
  {
    var us' := us + [w];
    assert us'[|us|] == w && forall j :: 0 <= j < |us| ==> us'[j] == us[j];
    if j :| 0 <= j < |us| && HasChild(us[j]) { assert HasChild(us'[j]); }
    if HasChild(w) { assert HasChild(us'[|us|]); }
  }

  /** A first completed listing stays the first one; a new one is first if there was none. */
  lemma FirstCompletedSnoc(us: seq<WindowRecord>, w: WindowRecord, j: nat)
    requires j <= |us| && FirstCompleted(us + [w], j)
    ensures if j < |us| then FirstCompleted(us, j) else HasChild(w) && !EverCompleted(us)
  {
    assert forall l :: 0 <= l < |us| ==> (us + [w])[l] == us[l];
  }

  /** What a sync does to the child task of a completed window. */
  lemma ChildBroughtUp(db: Db, w: WindowRecord)
    ensures !HasChild(w) ==> EnsureChild(db, w) == db
    ensures HasChild(w) ==> w.windowTid in EnsureChild(db, w).tasks
    ensures HasChild(w) ==> var row' := EnsureChild(db, w).tasks[w.windowTid];
      && row'.status == (if w.status == 1 then TaskDb.SUCCESS else TaskDb.FAILED)
      && row'.statusInfo == (if w.status == 1 then "continuous window completed" else "continuous window failed")
      && (w.endTime > 0 ==> row'.endTime == Some(w.endTime))
      && (w.endTime <= 0 && w.windowTid in db.tasks && db.tasks[w.windowTid].endTime.Some? ==>
            row'.endTime == db.tasks[w.windowTid].endTime)
      && if w.windowTid in db.tasks
         then row'.analysisStatus == db.tasks[w.windowTid].analysisStatus
              && (db.tasks[w.windowTid].beginTime.Some? ==> row'.beginTime == db.tasks[w.windowTid].beginTime)
         else row'.analysisStatus == ANALYSIS_PENDING && row'.beginTime == Some(w.startTime)
  {
  }

  lemma NextChildShows(db: Db, us: seq<WindowRecord>, w: WindowRecord)
    requires us != [] && us[0].windowTid == w.windowTid && w.windowTid != "" && ChildShows(db, us)
    ensures ChildShows(EnsureChild(db, w), us + [w])
  {
    assert (us + [w])[|us|] == w && (us + [w])[0] == us[0];
    EverCompletedSnoc(us, w);
    ChildBroughtUp(db, w);
  }

  lemma NextChildBegan(db: Db, us: seq<WindowRecord>, w: WindowRecord)
    requires us != [] && us[0].windowTid == w.windowTid && ChildShows(db, us) && ChildBegan(db, us)
    ensures ChildBegan(EnsureChild(db, w), us + [w])
  {
    var us', db' := us + [w], EnsureChild(db, w);
    assert us'[|us|] == w && us'[0] == us[0];
    ChildBroughtUp(db, w);
    forall j | 0 <= j < |us'| && FirstCompleted(us', j)
      ensures w.windowTid in db'.tasks && db'.tasks[w.windowTid].beginTime == Some(us'[j].startTime)
    {
      FirstCompletedSnoc(us, w, j);
      assert j < |us| ==> us'[j] == us[j];
    }
  }

  /** A sync starts the analysis of a listed window when it becomes done. */
  lemma StartsNow(s: SyncState, parent: string, us: seq<WindowRecord>, w: WindowRecord, configured: bool)
    requires us != [] && us[0].windowTid == w.windowTid && us[|us| - 1].windowTid == w.windowTid && w.windowTid != ""
    requires RowFollows(s.windows, parent, us) && ChildShows(s.db, us)
    ensures ShouldStart(s, w, configured) <==> configured && w.status == 1 && w.cosKey != "" && us[|us| - 1].status != 1
  {
    assert us[|us| - 1].status == 1 ==> HasChild(us[|us| - 1]);
  }

  lemma {:induction false} TimesDoneSnoc(us: seq<WindowRecord>, w: WindowRecord)
    requires us != []
    ensures TimesDone(us + [w]) ==
      TimesDone(us) + if w.status == 1 && w.cosKey != "" && us[|us| - 1].status != 1 then 1 else 0
  {
    assert (us + [w])[..|us|] == us;
  }

  lemma {:induction false} NextStart(s: SyncState, parent: string, us: seq<WindowRecord>, w: WindowRecord, configured: bool)
    requires us != []
    requires ShouldStart(s, w, configured) <==> configured && w.status == 1 && w.cosKey != "" && us[|us| - 1].status != 1
    requires Count(s.started, w.windowTid) == if configured then TimesDone(us) else 0
    ensures Count(SyncOne(s, parent, w, configured).started, w.windowTid) == if configured then TimesDone(us + [w]) else 0
  {
    TimesDoneSnoc(us, w);
    CountSnoc(s.started, w.windowTid, w.windowTid);
    assert s.started + [] == s.started;
  }

  /** Whatever a window is listed as, time after time: its row follows the listings, and its
      analysis is started exactly as often as it became done with an artefact. */
  lemma {:induction false} ListingsFollowed(s: SyncState, parent: string, us: seq<WindowRecord>, tid: string, configured: bool)
    requires us != [] && tid != "" && Unknown(s, tid) && forall i :: 0 <= i < |us| ==> us[i].windowTid == tid
    ensures Follows(SyncAll(s, parent, us, configured), parent, us, configured)
    decreases |us|
  {
    var n := |us| - 1;
    assert us == us[..n] + [us[n]];
    if n == 0 {
      assert SyncAll(s, parent, us[..0], configured) == s;
      FirstListing(s, parent, us[0], configured);
    } else {
      ListingsFollowed(s, parent, us[..n], tid, configured);
      var s1 := SyncAll(s, parent, us[..n], configured);
      NextRow(s1.windows, parent, us[..n], us[n]);
      NextChildShows(s1.db, us[..n], us[n]);
      NextChildBegan(s1.db, us[..n], us[n]);
      StartsNow(s1, parent, us[..n], us[n], configured);
      NextStart(s1, parent, us[..n], us[n], configured);
    }
  }

  /** Once an analysis has begun, the sync starts none. */
  lemma BegunNotStarted(s: SyncState, parent: string, w: WindowRecord, configured: bool)
    requires w.windowTid in s.db.tasks && s.db.tasks[w.windowTid].analysisStatus != ANALYSIS_PENDING
    ensures SyncOne(s, parent, w, configured).started == s.started
  {
  }

  /** A parent's list of completed windows, with distinct ids. */
  ghost predicate WindowList(ws: seq<WindowRecord>) {
    && (forall i :: 0 <= i < |ws| ==> HasChild(ws[i]))
    && (forall i, j :: 0 <= i < j < |ws| ==> ws[i].windowTid != ws[j].windowTid)
  }

  /** The first `k` windows of the list are synced, the others unknown. */
  ghost predicate SyncedUpTo(s: SyncState, parent: string, ws: seq<WindowRecord>, k: nat, configured: bool) {
    && k <= |ws|
    && (forall i :: 0 <= i < k ==> Synced(s, parent, ws[i], configured))
    && (forall i :: k <= i < |ws| ==> Unknown(s, ws[i].windowTid))
  }

  function Max(a: nat, b: nat): nat { if a >= b then a else b }

  lemma SyncNth(s: SyncState, parent: string, ws: seq<WindowRecord>, k: nat, m: nat, configured: bool)
    requires WindowList(ws) && SyncedUpTo(s, parent, ws, k, configured) && m < |ws| && m <= k
    ensures SyncedUpTo(SyncOne(s, parent, ws[m], configured), parent, ws, Max(k, m + 1), configured)
  {
    var s' := SyncOne(s, parent, ws[m], configured);
    SyncHere(s, parent, ws[m], configured);
    forall i | 0 <= i < k && i != m ensures Synced(s', parent, ws[i], configured) {
      SyncElsewhere(s, parent, ws[m], configured, parent, ws[i]);
    }
    forall i | Max(k, m + 1) <= i < |ws| ensures Unknown(s', ws[i].windowTid) {
      SyncElsewhere(s, parent, ws[m], configured, parent, ws[i]);
    }
  }

  lemma SyncAllSnoc(s: SyncState, parent: string, ws: seq<WindowRecord>, n: nat, configured: bool)
    requires n < |ws|
    ensures SyncAll(s, parent, ws[..n + 1], configured) ==
      SyncOne(SyncAll(s, parent, ws[..n], configured), parent, ws[n], configured)
  {
    assert ws[..n + 1][..n] == ws[..n];
  }

  lemma {:induction false} SyncPrefix(s: SyncState, parent: string, ws: seq<WindowRecord>, k: nat, n: nat, configured: bool)
    requires WindowList(ws) && SyncedUpTo(s, parent, ws, k, configured) && n <= |ws|
    ensures SyncedUpTo(SyncAll(s, parent, ws[..n], configured), parent, ws, Max(k, n), configured)
  {
    if n > 0 {
      SyncPrefix(s, parent, ws, k, n - 1, configured);
      SyncAllSnoc(s, parent, ws, n - 1, configured);
      SyncNth(SyncAll(s, parent, ws[..n - 1], configured), parent, ws, Max(k, n - 1), n - 1, configured);
    }
  }

  /** What happens to a parent's windows: a sync that sees the first `n` of them, or a
      step of some analysis. */
  datatype Event = SyncList(n: nat) | AnalysisWrite(w: Write)

  predicate Possible(ws: seq<WindowRecord>, e: Event) {
    match e
    case SyncList(n) => n <= |ws|
    case AnalysisWrite(w) => w.Analyse? || w.CrashAnalysis?
  }

  function React(s: SyncState, parent: string, ws: seq<WindowRecord>, e: Event, configured: bool): SyncState
    requires Possible(ws, e)
  {
    match e
    case SyncList(n) => SyncAll(s, parent, ws[..n], configured)
    case AnalysisWrite(w) => s.(db := Apply(s.db, w))
  }

  lemma AnalysisKeepsSync(s: SyncState, parent: string, v: WindowRecord, w: Write, configured: bool)
    requires w.Analyse? || w.CrashAnalysis?
    ensures Synced(s, parent, v, configured) ==> Synced(s.(db := Apply(s.db, w)), parent, v, configured)
    ensures Unknown(s, v.windowTid) ==> Unknown(s.(db := Apply(s.db, w)), v.windowTid)
  {
    AnalysisKeepsRow(s.db, w, v.windowTid);
  }

  lemma AnalysisKeepsRow(db: Db, w: Write, tid: string)
    requires w.Analyse? || w.CrashAnalysis?
    ensures var db' := Apply(db, w);
      && Creations(db'.history, tid) == Creations(db.history, tid) && (tid in db'.tasks <==> tid in db.tasks)
      && (tid in db.tasks ==> var row, row' := db.tasks[tid], db'.tasks[tid];
            row' == row.(analysisStatus := row'.analysisStatus, statusInfo := row'.statusInfo))
  {
    var db' := Apply(db, w);
    if |db'.history| > |db.history| { CreationsSnoc(db.history, db'.history[|db.history|], tid); }
  }

  /** How many windows the first `i` events have shown to the sync. */
  function Seen(events: seq<Event>, i: nat): nat
    requires i <= |events|
  {
    if i == 0 then 0
    else match events[i - 1]
      case SyncList(n) => Max(Seen(events, i - 1), n)
      case AnalysisWrite(_) => Seen(events, i - 1)
  }

  ghost predicate EventAt(states: seq<SyncState>, events: seq<Event>, parent: string, ws: seq<WindowRecord>,
                          configured: bool, j: nat)
    requires j < |events| < |states|
  {
    Possible(ws, events[j]) && states[j + 1] == React(states[j], parent, ws, events[j], configured)
  }

  /** Over any sequence of syncs of a growing list of distinct windows, interleaved
      with any analysis activity: each window seen so far has exactly one row, one
      child task and one creation record, and its analysis was started once if it
      completed with an artefact and never otherwise; later windows left no trace. */
  lemma {:induction false} ExactlyOncePerWindow(states: seq<SyncState>, events: seq<Event>, parent: string,
                                                ws: seq<WindowRecord>, configured: bool, i: nat)
    requires WindowList(ws) && |states| == |events| + 1 && i < |states|
    requires forall j :: 0 <= j < |ws| ==> Unknown(states[0], ws[j].windowTid)
    requires forall j :: 0 <= j < |events| ==> EventAt(states, events, parent, ws, configured, j)
    ensures SyncedUpTo(states[i], parent, ws, Seen(events, i), configured)
  {
    if i > 0 {
      ExactlyOncePerWindow(states, events, parent, ws, configured, i - 1);
      var k := Seen(events, i - 1);
      assert EventAt(states, events, parent, ws, configured, i - 1);
      match events[i - 1]
      case SyncList(n) => SyncPrefix(states[i - 1], parent, ws, k, n, configured);
      case AnalysisWrite(w) =>
        forall j | 0 <= j < |ws|
          ensures Synced(states[i - 1], parent, ws[j], configured) ==> Synced(states[i], parent, ws[j], configured)
          ensures Unknown(states[i - 1], ws[j].windowTid) ==> Unknown(states[i], ws[j].windowTid)
        {
          AnalysisKeepsSync(states[i - 1], parent, ws[j], w, configured);
        }
    }
  }
}
