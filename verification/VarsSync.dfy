/** What one run of `performSync` does with the variables: it merges the local document with the
    newest remote one, stores the merge on both sides where it differs, and deletes the other files. */
module VarsSync {
  import opened Basics
  import opened Replication
  import opened VarsMerge

  /** A variables file: `config_<ts>`, or `vars_<ts>` as older versions wrote it. `marked`: the name ends in
      `_d`, as the names of deletion markers do. No version writes such a name, but the listing takes it. */
  datatype VarsFile = VarsFile(legacy: bool, ts: nat, marked: bool := false)

  /** Such a file is put on the delete list unread when it is old. */
  predicate Lapsed(f: VarsFile, now: int) {
    f.marked && now - f.ts > MAX_AGE
  }

  type VarsFolder = map<VarsFile, VarsDoc>

  /** The file the loop over the listing picks: the first one with the greatest timestamp. */
  function BestVars(listing: seq<VarsFile>): (w: Option<VarsFile>)
    ensures w.Some? ==> w.value in listing
    ensures w.None? <==> listing == []
    ensures forall f <- listing :: w.Some? && f.ts <= w.value.ts
  {
    if listing == [] then None
    else
      var last := listing[|listing| - 1];
      var b := BestVars(listing[..|listing| - 1]);
      if b.None? || last.ts > b.value.ts then Some(last) else b
  }

  /** Of several files with the greatest timestamp, an older and a newer name, the one listed first is taken. */
  lemma {:induction false} FirstNewest(listing: seq<VarsFile>) returns (i: nat)
    requires listing != []
    ensures i < |listing| && BestVars(listing) == Some(listing[i])
    ensures forall j :: 0 <= j < |listing| ==>
              if j < i then listing[j].ts < listing[i].ts else listing[j].ts <= listing[i].ts
    decreases |listing|
  {
    var n := |listing| - 1;
    var front, last := listing[..n], listing[n];
    if front == [] {
      i := 0;
    } else {
      var k := FirstNewest(front);
      assert forall j :: 0 <= j < n ==> front[j] == listing[j];
      i := if last.ts > front[k].ts then n else k;
    }
  }

  /** The file that the run goes by: none if the best one could not be fetched, decrypted or decoded. */
  function Fetched(best: Option<VarsFile>, readable: bool): Option<VarsFile> {
    if readable then best else None
  }

  /** A file with timestamp zero is never downloaded. */
  predicate Loaded(w: Option<VarsFile>) {
    w.Some? && w.value.ts > 0
  }

  function RemoteDoc(w: Option<VarsFile>, folder: VarsFolder): VarsDoc
    requires w.Some? ==> w.value in folder
  {
    if Loaded(w) then folder[w.value] else EMPTY
  }

  /** The greatest time of a document, or -1. */
  ghost function MaxTime(m: map<string, int>): (t: int)
    ensures t >= -1 && forall k <- m :: m[k] <= t
    ensures t == -1 || exists k <- m :: m[k] == t
    decreases m.Keys
  {
    if m == map[] then -1
    else
      var k :| k in m;
      var rest := m - {k};
      assert rest.Keys == m.Keys - {k};
      var t := MaxTime(rest);
      assert forall x <- m :: x == k || (x in rest && rest[x] == m[x]);
      if m[k] > t then m[k] else t
  }

  ghost function UploadFile(m: map<string, int>, now: nat): VarsFile {
    VarsFile(false, if MaxTime(m) <= 0 then now else MaxTime(m))
  }

  predicate RemoteDiffers(w: Option<VarsFile>, folder: VarsFolder, merged: VarsDoc)
    requires w.Some? ==> w.value in folder
  {
    if Loaded(w) then folder[w.value] != merged else merged.mtime != map[]
  }

  /** The file that is neither superseded nor redundant, if any. */
  function KeptFile(w: Option<VarsFile>, folder: VarsFolder, merged: VarsDoc): set<VarsFile>
    requires w.Some? ==> w.value in folder
  {
    if !RemoteDiffers(w, folder, merged) && Loaded(w) then {w.value} else {}
  }

  /** The variables files after all PUTs and all DELETEs. */
  ghost function SyncedVars(local: VarsDoc, w: Option<VarsFile>, folder: VarsFolder, now: nat): VarsFolder
    requires w.Some? ==> w.value in folder
  {
    var merged := Merged(local, RemoteDoc(w, folder), now);
    var put := if RemoteDiffers(w, folder, merged) then folder[UploadFile(merged.mtime, now) := merged] else folder;
    put - (folder.Keys - KeptFile(w, folder, merged))
  }

  /** `w` is a file with the greatest timestamp among those that have not lapsed, absent only if there is
      none. */
  ghost predicate IsBest(w: Option<VarsFile>, folder: VarsFolder, now: int) {
    && (w.None? <==> forall f <- folder :: Lapsed(f, now))
    && (w.Some? ==> w.value in folder && !Lapsed(w.value, now))
    && (w.Some? ==> forall f <- folder :: Lapsed(f, now) || f.ts <= w.value.ts)
  }

  /** What a run may go by: a best file, or none. */
  ghost predicate Usable(w: Option<VarsFile>, folder: VarsFolder, now: int) {
    w.None? || IsBest(w, folder, now)
  }

  /** The upload carries the name of a file that is about to be deleted. */
  ghost predicate Clashes(local: VarsDoc, w: Option<VarsFile>, folder: VarsFolder, now: nat)
    requires w.Some? ==> w.value in folder
  {
    var merged := Merged(local, RemoteDoc(w, folder), now);
    RemoteDiffers(w, folder, merged) && UploadFile(merged.mtime, now) in folder
  }

  /** The uploaded merge is still in the folder after the run exactly when its name was not
      listed: otherwise the same run deletes it again. */
  lemma {:induction false} UploadSurvives(local: VarsDoc, w: Option<VarsFile>, folder: VarsFolder, now: nat)
    requires Usable(w, folder, now)
    requires RemoteDiffers(w, folder, Merged(local, RemoteDoc(w, folder), now))
    ensures var merged := Merged(local, RemoteDoc(w, folder), now);
            var after := SyncedVars(local, w, folder, now);
            && (UploadFile(merged.mtime, now) !in folder ==> after == map[UploadFile(merged.mtime, now) := merged])
            && (UploadFile(merged.mtime, now) in folder ==> after == map[])
  {
    var merged := Merged(local, RemoteDoc(w, folder), now);
    var name := UploadFile(merged.mtime, now);
    var after := SyncedVars(local, w, folder, now);
    assert folder.Keys - {} == folder.Keys;
    assert after == folder[name := merged] - folder.Keys;
    assert forall f <- after :: f == name;
  }

  /** What a run leaves in the folder. If the merge differs from the file that was read, or is not empty when
      none was read, that is its upload and nothing else, or nothing at all when a listed file had that name;
      otherwise it is the file that was read. The upload is named by the greatest time in it, or by the
      clock if no time is positive. */
  lemma {:induction false} FolderAfter(local: VarsDoc, w: Option<VarsFile>, folder: VarsFolder, now: nat, t: nat)
    requires Usable(w, folder, now)
    requires var m := Merged(local, if w.Some? && w.value.ts > 0 then folder[w.value] else EMPTY, now);
      if forall k <- m.mtime :: m.mtime[k] <= 0 then t == now
      else (exists k <- m.mtime :: m.mtime[k] == t) && forall k <- m.mtime :: m.mtime[k] <= t
    ensures var was := if w.Some? && w.value.ts > 0 then folder[w.value] else EMPTY;
      var m := Merged(local, was, now);
      var after := SyncedVars(local, w, folder, now);
      && (w.Some? && w.value.ts > 0 && m == was ==> after == map[w.value := was])
      && (!(w.Some? && w.value.ts > 0) && m.mtime == map[] ==> after == map[])
      && ((if w.Some? && w.value.ts > 0 then m != was else m.mtime != map[]) ==>
            after == if VarsFile(false, t) in folder then map[] else map[VarsFile(false, t) := m])
  {
    var m := Merged(local, RemoteDoc(w, folder), now);
    assert UploadFile(m.mtime, now) == VarsFile(false, t);
    if RemoteDiffers(w, folder, m) {
      UploadSurvives(local, w, folder, now);
    } else {
      KeepOnly(folder, KeptFile(w, folder, m));
    }
  }

  lemma {:induction false} KeepOnly(folder: VarsFolder, kept: set<VarsFile>)
    ensures kept == {} ==> folder - (folder.Keys - kept) == map[]
    ensures forall f <- folder :: kept == {f} ==> folder - (folder.Keys - kept) == map[f := folder[f]]
  {
  }

  /** It does happen: another device stored `y` at 10 while this one had set `x` at 5. The merge is
      uploaded as `config_10`, which is then deleted. */
  lemma {:induction false} ClashExample()
    ensures var local := VarsDoc(map["x" := "1"], map["x" := 5]);
            var remote := VarsDoc(map["y" := "2"], map["y" := 10]);
            var folder := map[VarsFile(false, 10) := remote];
            && IsBest(Some(VarsFile(false, 10)), folder, 20)
            && SyncedVars(local, Some(VarsFile(false, 10)), folder, 20) == map[]
  {
    var local := VarsDoc(map["x" := "1"], map["x" := 5]);
    var remote := VarsDoc(map["y" := "2"], map["y" := 10]);
    var folder := map[VarsFile(false, 10) := remote];
    assert VarsFile(false, 10) in folder;
    ClashMerge(local, remote);
    UploadSurvives(local, Some(VarsFile(false, 10)), folder, 20);
  }

  lemma {:induction false} ClashMerge(local: VarsDoc, remote: VarsDoc)
    requires local == VarsDoc(map["x" := "1"], map["x" := 5]) && remote == VarsDoc(map["y" := "2"], map["y" := 10])
    ensures var m := Merged(local, remote, 20); m != remote && MaxTime(m.mtime) == 10
  {
    var m := Merged(local, remote, 20);
    assert m.mtime == map["x" := 5, "y" := 10];
    assert "x" in m.mtime && "y" in m.mtime && "x" !in remote.mtime;
    assert m.mtime["y"] == 10;
  }

  // ---- Running again at once ----

  /** The run issues no request and changes nothing. */
  ghost predicate Quiet(local: VarsDoc, w: Option<VarsFile>, folder: VarsFolder, now: nat)
    requires w.Some? ==> w.value in folder
  {
    var merged := Merged(local, RemoteDoc(w, folder), now);
    && merged == local
    && !RemoteDiffers(w, folder, merged)
    && folder.Keys == KeptFile(w, folder, merged)
  }

  predicate NonNegative(d: VarsDoc) {
    forall k <- d.mtime :: d.mtime[k] >= 0
  }

  lemma {:induction false} MergedNonNegative(l: VarsDoc, r: VarsDoc, now: nat)
    ensures NonNegative(l) && NonNegative(r) ==> NonNegative(Merged(l, r, now))
  {
  }

  /** Without variables files the merge is the local document. */
  lemma {:induction false} AloneAgain(a: VarsDoc, b: VarsDoc, now: nat)
    requires NonNegative(a) && NonNegative(b)
    ensures var m := Merged(a, b, now); Merged(m, EMPTY, now) == m
  {
    MergeTimed(a, b, now);
    MergedNonNegative(a, b, now);
    MergeNothing(Merged(a, b, now));
    PurgeTwice(Merge(a, b), now);
  }

  ghost predicate FolderNonNegative(folder: VarsFolder) {
    forall f <- folder :: NonNegative(folder[f])
  }

  lemma {:induction false} QuietOnOwnUpload(m: VarsDoc, f: VarsFile, w2: Option<VarsFile>, now: nat)
    requires f.ts > 0 && IsBest(w2, map[f := m], now) && !Lapsed(f, now) && Merged(m, m, now) == m
    ensures Quiet(m, w2, map[f := m], now)
  {
    assert f in map[f := m];
    assert w2 == Some(f);
  }

  lemma {:induction false} QuietOnEmpty(m: VarsDoc, w2: Option<VarsFile>, now: nat)
    requires IsBest(w2, map[], now) && Merged(m, EMPTY, now) == m
    ensures Quiet(m, w2, map[], now) <==> m.mtime == map[]
  {
  }

  /** What one run leaves in the folder. */
  lemma {:induction false} AfterRun(local: VarsDoc, w: Option<VarsFile>, folder: VarsFolder, now: nat)
    requires now > 0 && Usable(w, folder, now)
    ensures var merged := Merged(local, RemoteDoc(w, folder), now);
            var after := SyncedVars(local, w, folder, now);
            if RemoteDiffers(w, folder, merged)
            then after == if Clashes(local, w, folder, now) then map[] else map[UploadFile(merged.mtime, now) := merged]
            else after == if Loaded(w) then map[w.value := merged] else map[]
  {
    var merged := Merged(local, RemoteDoc(w, folder), now);
    if RemoteDiffers(w, folder, merged) {
      UploadSurvives(local, w, folder, now);
    }
  }

  /** When the best file is not loaded, all listed files are deleted, the best one unread; its newer
      entries are in the merge exactly when it was loaded or had none. */
  lemma {:induction false} UnreadWinner(local: VarsDoc, best: VarsFile, folder: VarsFolder, now: nat, readable: bool)
    requires now > 0 && NonNegative(local) && IsBest(Some(best), folder, now)
    ensures var w := Fetched(Some(best), readable);
      var doc := folder[best];
      && (!Loaded(w) ==> forall f <- folder :: f !in SyncedVars(local, w, folder, now))
      && ((forall k <- doc.mtime :: TimeOf(Merge(local, RemoteDoc(w, folder)), k) >= doc.mtime[k])
          <==> Loaded(w) || forall k <- doc.mtime :: TimeOf(local, k) >= doc.mtime[k])
  {
    var w := Fetched(Some(best), readable);
    var doc := folder[best];
    AfterRun(local, w, folder, now);
    forall k | k in doc.mtime
      ensures TimeOf(Merge(local, RemoteDoc(w, folder)), k) ==
              if Loaded(w) && doc.mtime[k] > TimeOf(local, k) then doc.mtime[k] else TimeOf(local, k)
    {
      MergeAt(local, RemoteDoc(w, folder), k);
    }
  }

  /** A second run at once is quiet exactly when the first one did not delete its own upload. */
  lemma {:induction false} SecondRunQuiet(local: VarsDoc, w: Option<VarsFile>, folder: VarsFolder, now: nat,
                                          w2: Option<VarsFile>)
    requires now > 0 && NonNegative(local) && FolderNonNegative(folder)
    requires IsBest(w, folder, now) && IsBest(w2, SyncedVars(local, w, folder, now), now)
    ensures var merged := Merged(local, RemoteDoc(w, folder), now);
            Quiet(merged, w2, SyncedVars(local, w, folder, now), now)
            <==> !(Clashes(local, w, folder, now) && merged.mtime != map[])
  {
    var remote := RemoteDoc(w, folder);
    var merged := Merged(local, remote, now);
    MergedAgain(local, remote, now);
    AloneAgain(local, remote, now);
    AfterRun(local, w, folder, now);
    if RemoteDiffers(w, folder, merged) && !Clashes(local, w, folder, now) {
      QuietOnOwnUpload(merged, UploadFile(merged.mtime, now), w2, now);
    } else if !RemoteDiffers(w, folder, merged) && Loaded(w) {
      QuietOnOwnUpload(merged, w.value, w2, now);
    } else {
      QuietOnEmpty(merged, w2, now);
    }
  }

  /** The run after that is quiet in every case. */
  lemma {:induction false} ThirdRunQuiet(local: VarsDoc, w: Option<VarsFile>, folder: VarsFolder, now: nat,
                                         w2: Option<VarsFile>, w3: Option<VarsFile>)
    requires now > 0 && NonNegative(local) && FolderNonNegative(folder)
    requires IsBest(w, folder, now) && IsBest(w2, SyncedVars(local, w, folder, now), now)
    requires var m1 := Merged(local, RemoteDoc(w, folder), now);
             IsBest(w3, SyncedVars(m1, w2, SyncedVars(local, w, folder, now), now), now)
    ensures var f1 := SyncedVars(local, w, folder, now);
            var m1 := Merged(local, RemoteDoc(w, folder), now);
            var f2 := SyncedVars(m1, w2, f1, now);
            var m2 := Merged(m1, RemoteDoc(w2, f1), now);
            && m2 == m1
            && Quiet(m2, w3, f2, now)
  {
    var remote := RemoteDoc(w, folder);
    var f1 := SyncedVars(local, w, folder, now);
    var m1 := Merged(local, remote, now);
    MergedNonNegative(local, remote, now);
    SecondRunQuiet(local, w, folder, now, w2);
    if Clashes(local, w, folder, now) {
      UploadSurvives(local, w, folder, now);
      AloneAgain(local, remote, now);
      assert !Clashes(m1, w2, f1, now);
    } else {
      assert Quiet(m1, w2, f1, now);
    }
    SecondRunQuiet(m1, w2, f1, now, w3);
  }
}
