/** The `status_info` column carries the key of the collected artefact behind a
    marker; later notes are appended to it and the key is read back out. */
module StatusInfo {
  import opened Text

  const MARKER := "collector result ready: "

  function ReadyInfo(key: string): string { MARKER + key }

  /** The key after the last marker, up to a ';'; empty when there is none. */
  function ExtractKey(info: string): (key: string)
    ensures ';' !in key && '\r' !in key && '\n' !in key && Trimmed(key, GoSpace)
  {
    var idx := LastIndex(info, MARKER);
    if idx < 0 then ""
    else
      var rest := Trim(info[idx + |MARKER|..], GoSpace);
      var cut := Index(rest, ';');
      var key := if cut >= 0 then Trim(rest[..cut], GoSpace) else rest;
      TrimPart(info[idx + |MARKER|..], GoSpace);
      TrimPart(if cut >= 0 then rest[..cut] else rest, GoSpace);
      if '\r' in key || '\n' in key then "" else key
  }

  /** Add a note, keeping the key part unless the note brings a new key. */
  function Merge(current: string, reason: string): string {
    if current == "" || LastIndex(current, MARKER) < 0 then reason
    else if reason == "" then current
    else if LastIndex(reason, MARKER) >= 0 then reason
    else current + "; " + reason
  }

  function MergeAll(current: string, reasons: seq<string>): string
    decreases |reasons|
  {
    if reasons == [] then current else MergeAll(Merge(current, reasons[0]), reasons[1..])
  }

  /** A key the column can carry: non-empty, trimmed, one line, no ';' and no marker in it. */
  ghost predicate Clean(key: string) {
    && key != "" && Trimmed(key, GoSpace) && ';' !in key && '\r' !in key && '\n' !in key
    && !Contains(key, MARKER)
  }

  ghost predicate MarkerFree(reason: string) { !Contains(reason, MARKER) }

  /** The column holds `key`, possibly followed by notes; no later marker. */
  ghost predicate Carries(info: string, key: string) {
    && ReadyInfo(key) <= info
    && (|info| == |ReadyInfo(key)| || info[|ReadyInfo(key)|] == ';')
    && (forall j :: 0 < j ==> !OccursAt(info, MARKER, j))
  }

  /** The marker does not overlap itself. */
  lemma MarkerHasNoBorder(s: string, j: int)
    requires 0 < j < |MARKER|
    ensures !OccursAt(MARKER + s, MARKER, j)
  {
    var t := MARKER + s;
    if j + |MARKER| <= |t| {
      var w := t[j..j + |MARKER|];
      assert w[0] == t[j] && w[1] == t[j + 1];
      assert t[j] == MARKER[j];
      assert MARKER[5] == 'c' && MARKER[6] == 't';
      if j != 5 { assert MARKER[j] != 'c'; }
    }
  }

  lemma ReadyInfoCarries(key: string)
    requires !Contains(key, MARKER)
    ensures Carries(ReadyInfo(key), key)
  {
    var info := ReadyInfo(key);
    forall j | 0 < j ensures !OccursAt(info, MARKER, j) {
      if j < |MARKER| {
        MarkerHasNoBorder(key, j);
      } else if j + |MARKER| <= |info| {
        var k := j - |MARKER|;
        assert info[j..j + |MARKER|] == key[k..k + |MARKER|];
        assert !OccursAt(key, MARKER, k);
      }
    }
  }

  /** What is read out of a text that follows the only marker. */
  lemma KeyBeforeNotes(raw: string, key: string)
    requires Clean(key) && key <= raw && (|raw| == |key| || raw[|key|] == ';')
    ensures var rest := Trim(raw, GoSpace);
      var cut := Index(rest, ';');
      key == if cut >= 0 then Trim(rest[..cut], GoSpace) else rest
  {
    var rest := Trim(raw, GoSpace);
    if |raw| == |key| {
      assert raw == key;
    } else {
      TrimKeepsHead(raw, |key|);
      assert rest[..|key|] == key && rest[|key|] == ';';
      assert Index(rest, ';') == |key| by {
        forall i | 0 <= i < |key| ensures rest[i] != ';' { assert rest[i] == key[i]; }
      }
    }
  }

  lemma OnlyMarkerFirst(info: string, pat: string, key: string)
    requires pat + key <= info && (forall j :: 0 < j ==> !OccursAt(info, pat, j))
    ensures LastIndex(info, pat) == 0 && key <= info[|pat|..]
  {
    assert info[..|pat|] == pat;
    assert OccursAt(info, pat, 0);
    LastIndexIs(info, pat, 0);
    assert info[|pat|..][..|key|] == (pat + key)[|pat|..] == key;
  }

  lemma CarriedIsExtracted(info: string, key: string)
    requires Carries(info, key) && Clean(key)
    ensures ExtractKey(info) == key
  {
    OnlyMarkerFirst(info, MARKER, key);
    KeyBeforeNotes(info[|MARKER|..], key);
  }

  /** Trimming a text that starts with a visible character keeps everything up to a
      later visible character. */
  lemma TrimKeepsHead(s: string, n: nat)
    requires n < |s| && !GoSpace(s[0]) && !GoSpace(s[n])
    ensures var r := Trim(s, GoSpace); n < |r| && r <= s
  {
    TrimRightPart(s, GoSpace);
    TrimRightKeeps(s, n);
  }

  lemma {:induction false} TrimRightKeeps(s: string, n: nat)
    requires n < |s| && !GoSpace(s[n])
    ensures n < |TrimRight(s, GoSpace)|
    decreases |s|
  {
    if GoSpace(s[|s| - 1]) { TrimRightKeeps(s[..|s| - 1], n); }
  }

  /** Trimming leaves a contiguous part. */
  lemma TrimSlice(s: string) returns (a: nat)
    ensures var r := Trim(s, GoSpace); a + |r| <= |s| && r == s[a..a + |r|]
  {
    var left := TrimLeft(s, GoSpace);
    TrimLeftPart(s, GoSpace);
    TrimRightPart(left, GoSpace);
    a := |s| - |left|;
  }

  lemma SliceOccurs(s: string, a: nat, b: nat, pat: string, k: int)
    requires a <= b <= |s| && OccursAt(s[a..b], pat, k)
    ensures OccursAt(s, pat, a + k)
  {
    var t, u := s[a..b][k..k + |pat|], s[a + k..a + k + |pat|];
    assert forall i :: 0 <= i < |pat| ==> t[i] == s[a + k + i] == u[i];
    assert t == u;
  }

  lemma TrimmedOccurs(s: string, pat: string)
    requires Contains(Trim(s, GoSpace), pat)
    ensures Contains(s, pat)
  {
    var a := TrimSlice(s);
    var k :| OccursAt(Trim(s, GoSpace), pat, k);
    SliceOccurs(s, a, a + |Trim(s, GoSpace)|, pat, k);
  }

  /** Whatever the column holds, only a clean key is ever read out of it. */
  lemma ExtractedIsClean(info: string)
    ensures ExtractKey(info) == "" || Clean(ExtractKey(info))
  {
    var idx := LastIndex(info, MARKER);
    if ExtractKey(info) != "" && Contains(ExtractKey(info), MARKER) {
      var raw := info[idx + |MARKER|..];
      var rest := Trim(raw, GoSpace);
      var cut := Index(rest, ';');
      if cut >= 0 {
        TrimmedOccurs(rest[..cut], MARKER);
        var k :| OccursAt(rest[..cut], MARKER, k);
        SliceOccurs(rest, 0, cut, MARKER, k);
      }
      TrimmedOccurs(raw, MARKER);
      var k :| OccursAt(raw, MARKER, k);
      assert raw == info[idx + |MARKER|..|info|];
      SliceOccurs(info, idx + |MARKER|, |info|, MARKER, k);
      assert false;
    }
  }

  /** The key comes back from a freshly written column exactly when it is clean. */
  lemma ExtractsExactlyCleanKeys(key: string)
    requires key != ""
    ensures ExtractKey(ReadyInfo(key)) == key <==> Clean(key)
  {
    ExtractedIsClean(ReadyInfo(key));
    if Clean(key) {
      ReadyInfoCarries(key);
      CarriedIsExtracted(ReadyInfo(key), key);
    }
  }

  lemma OccursInSlice(s: string, a: nat, b: nat, pat: string, k: int)
    requires OccursAt(s, pat, k) && a <= k && k + |pat| <= b <= |s|
    ensures OccursAt(s[a..b], pat, k - a)
  {
    var t, u := s[a..b][k - a..k - a + |pat|], s[k..k + |pat|];
    assert forall i :: 0 <= i < |pat| ==> t[i] == s[k + i] == u[i];
    assert t == u;
  }

  /** A note is joined so that no marker arises across the joint. */
  lemma MarkerOnOneSide(info: string, reason: string, m: string, j: int)
    requires m == info + "; " + reason && OccursAt(m, MARKER, j)
    ensures OccursAt(info, MARKER, j) || OccursAt(reason, MARKER, j - |info| - 2)
  {
    var n := |info|;
    assert m[j] == m[j..j + |MARKER|][0] == MARKER[0];
    assert m[n] == ';' && m[n + 1] == ' ' && m[..n] == info && m[n + 2..] == reason;
    if j + |MARKER| <= n {
      assert m[0..n] == info;
      OccursInSlice(m, 0, n, MARKER, j);
    } else if j <= n {
      SemicolonFree(m, j, n);
      assert false;
    } else if j == n + 1 {
      assert false;
    } else {
      assert m[n + 2..|m|] == reason;
      OccursInSlice(m, n + 2, |m|, MARKER, j);
    }
  }

  lemma SemicolonFree(m: string, j: int, n: int)
    requires OccursAt(m, MARKER, j) && j <= n < j + |MARKER|
    ensures m[n] != ';'
  {
    assert m[j..j + |MARKER|][n - j] == m[n] == MARKER[n - j];
    assert forall k :: 0 <= k < |MARKER| ==> MARKER[k] != ';';
  }

  lemma MergeCarries(info: string, key: string, reason: string)
    requires Carries(info, key) && MarkerFree(reason)
    ensures Carries(Merge(info, reason), key)
  {
    assert info[..|MARKER|] == MARKER;
    assert OccursAt(info, MARKER, 0);
    var m := info + "; " + reason;
    forall j | 0 < j ensures !OccursAt(m, MARKER, j) {
      assert !OccursAt(info, MARKER, j) && !OccursAt(reason, MARKER, j - |info| - 2);
      if OccursAt(m, MARKER, j) { MarkerOnOneSide(info, reason, m, j); }
    }
  }

  /** Any number of marker-free notes leave the stored key readable. */
  lemma {:induction false} KeySurvivesNotes(info: string, key: string, reasons: seq<string>)
    requires Carries(info, key) && Clean(key)
    requires forall i :: 0 <= i < |reasons| ==> MarkerFree(reasons[i])
    ensures Carries(MergeAll(info, reasons), key) && ExtractKey(MergeAll(info, reasons)) == key
    decreases |reasons|
  {
    if reasons == [] {
      CarriedIsExtracted(info, key);
    } else {
      MergeCarries(info, key, reasons[0]);
      KeySurvivesNotes(Merge(info, reasons[0]), key, reasons[1..]);
    }
  }

  ghost predicate EndsIn(s: string, tail: string) { |tail| <= |s| && s[|s| - |tail|..] == tail }

  /** A note is always shown, at the end; what is there already stays in front of it if
      that is where a key is and the note brings no other. */
  lemma NoteIsShown(current: string, reason: string)
    ensures EndsIn(Merge(current, reason), reason)
    ensures Contains(current, MARKER) && MarkerFree(reason) ==> current <= Merge(current, reason)
  {
    assert LastIndex(current, MARKER) < 0 ==> MarkerFree(current);
  }

  /** Behind a key, every one of any number of marker-free notes is still to be read. */
  lemma {:induction false} NotesSurvive(info: string, key: string, reasons: seq<string>)
    requires Carries(info, key) && forall i :: 0 <= i < |reasons| ==> MarkerFree(reasons[i])
    ensures info <= MergeAll(info, reasons)
    ensures forall i :: 0 <= i < |reasons| ==> Contains(MergeAll(info, reasons), reasons[i])
    decreases |reasons|
  {
    if reasons != [] {
      var m := Merge(info, reasons[0]);
      MergeCarries(info, key, reasons[0]);
      assert info[..|MARKER|] == MARKER && OccursAt(info, MARKER, 0);
      NoteIsShown(info, reasons[0]);
      NotesSurvive(m, key, reasons[1..]);
      var all := MergeAll(m, reasons[1..]);
      assert all[..|m|] == m;
      assert OccursAt(all, reasons[0], |m| - |reasons[0]|);
      forall i | 0 < i < |reasons| ensures Contains(all, reasons[i]) { assert reasons[i] == reasons[1..][i - 1]; }
    }
  }

  /** Without a marker there is no key, and marker-free notes never make one. */
  lemma NoMarkerNoKey(info: string)
    requires MarkerFree(info)
    ensures ExtractKey(info) == "" && forall reason :: Merge(info, reason) == reason
  {
    assert LastIndex(info, MARKER) < 0;
  }
}
