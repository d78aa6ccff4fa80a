/** Where the protocol stops being safe: a PUT the server refuses, and an edit made while a run is
    under way. Both are stated with the exact condition. */
module SyncLimits {
  import opened Basics
  import opened Replication
  import opened Convergence
  import opened Interleaving
  import opened CrashSafety

  // ---- Refused uploads ----

  /** For a key whose upload was accepted, or that has none, the folder is the one of a run without
      refusals; a refused key has no file at all. */
  lemma {:induction false} ButKey(folder: Folder, s: Store, w: Winners, now: int, lost: set<Key>, f: RemoteFile)
    requires Picks(w, folder.Keys, now) && s == Cleaned(s, now)
    requires forall k <- lost :: k in Known(s) && Pushes(s, w, k)
    ensures f in SyncedBut(folder, s, w, lost) <==> f in Synced(folder, s, w) && f.key !in lost
  {
    var stored := AllKeys(s, w) - lost;
    if f in Synced(folder, s, w) || f in SyncedBut(folder, s, w, lost) {
      SyncedFiles(folder, s, w, now);
      if f in Uploads(s, w) {
        KeptOfKey(s, w, folder.Keys, now, f);
        UploadIsNew(folder.Keys, s, w, now, f.key);
        assert f in DocsOf(s, w, stored) <==> f.key !in lost;
      } else {
        assert f in folder && f in Kept(s, w);
        KeptOfKey(s, w, folder.Keys, now, f);
      }
    }
  }

  /** The run of one device from its start to its end, some PUTs refused. */
  ghost predicate WholeRun(truth: Truth, y: Sys, d: nat, now: int, w: Winners, acts: seq<Act>) {
    && Enabled(truth, y, Begin(d, now, y.folder.Keys, w)) && Solo(d, acts)
    && CanDo(truth, Do(truth, y, Begin(d, now, y.folder.Keys, w)), acts)
    && d < |After(truth, Do(truth, y, Begin(d, now, y.folder.Keys, w)), acts).devs|
    && After(truth, Do(truth, y, Begin(d, now, y.folder.Keys, w)), acts).devs[d].proc == Deleting({})
  }

  ghost function AfterRun(truth: Truth, y: Sys, d: nat, now: int, w: Winners, acts: seq<Act>): Sys
    requires WholeRun(truth, y, d, now, w, acts)
  {
    After(truth, Do(truth, y, Begin(d, now, y.folder.Keys, w)), acts)
  }

  /** The program looks for transport errors only and treats a refused PUT as done. A key that is
      uploaded has a file after the run exactly when the server accepted its PUT, the older files
      being deleted either way; the device still holds its copy. */
  lemma {:induction false} RefusedPut(truth: Truth, y: Sys, d: nat, now: int, w: Winners, acts: seq<Act>, k: Key)
    requires WholeRun(truth, y, d, now, w, acts)
    requires var s := Cleaned(y.devs[d].store, now); k in Known(s) && Pushes(s, w, k)
    ensures var end := AfterRun(truth, y, d, now, w, acts);
      && (NoFile(end.folder.Keys, k) <==> k in RefusedIn(acts))
      && LocalTS(end.devs[d].store, k) == LocalTS(Cleaned(y.devs[d].store, now), k)
  {
    var s := Cleaned(y.devs[d].store, now);
    CleanedTwice(y.devs[d].store, now);
    CompleteRun(truth, y, d, now, w, acts);
    var end := AfterRun(truth, y, d, now, w, acts);
    PushedKey(y.folder, s, w, now, k);
    AppliedTS(s, w, y.folder, k);
    forall f: RemoteFile | f.key == k ensures f in end.folder <==> f in Synced(y.folder, s, w) && k !in RefusedIn(acts) {
      ButKey(y.folder, s, w, now, RefusedIn(acts), f);
    }
  }

  /** So what `NeverLost` promises holds of an undisturbed run, file by file, exactly for the keys
      without a refused PUT. */
  lemma {:induction false} LostExactly(truth: Truth, y: Sys, d: nat, now: int, w: Winners, acts: seq<Act>,
                                       f: RemoteFile)
    requires WholeRun(truth, y, d, now, w, acts) && f in y.folder && !Expired(f, now)
    ensures var end := AfterRun(truth, y, d, now, w, acts);
      (exists g <- end.folder.Keys :: g.key == f.key && g.ts >= f.ts) <==> f.key !in RefusedIn(acts)
  {
    var s := Cleaned(y.devs[d].store, now);
    var k := f.key;
    CleanedTwice(y.devs[d].store, now);
    CompleteRun(truth, y, d, now, w, acts);
    var end := AfterRun(truth, y, d, now, w, acts);
    if k in RefusedIn(acts) {
      RefusedPut(truth, y, d, now, w, acts, k);
    } else {
      SyncedKey(y.folder, s, w, now, k);
      var g := Survivor(s, w, k);
      ButKey(y.folder, s, w, now, RefusedIn(acts), g);
      assert g in end.folder.Keys && g.ts >= f.ts;
    }
  }

  // ---- Edits during a run ----

  /** What is still going to happen to a key: nothing, or an item with this time takes its place, or it
      goes. */
  datatype Fate = Stays | Becomes(ts: nat) | Goes

  /** The run will take over the winner of this key. */
  function Pulled(p: Proc, k: Key): Fate {
    match p
    case Syncing(snap, w, _, _, _) =>
      if k !in w || !Pulls(snap, w, k) then Stays else if w[k].deleted then Goes else Becomes(w[k].ts)
    case Halfway(got, _) => if k !in got then Stays else if got[k].Replace? then Becomes(got[k].item.ts) else Goes
    case _ => Stays
  }

  /** The pages have been read back and will be put in place of those in memory. */
  predicate InWindow(p: Proc, k: Key) {
    k.kind == Page && p.Reading? && p.pages != map[]
  }

  function FateOf(p: Proc, k: Key): Fate {
    if InWindow(p, k) then (if k in p.pages then Becomes(p.pages[k].ts) else Goes) else Pulled(p, k)
  }

  /** The time of the live item that the device will show in the end, if any. */
  function Outlook(v: Device, k: Key): Option<nat> {
    match FateOf(v.proc, k)
    case Becomes(ts) => Some(ts)
    case Goes => None
    case Stays => if k in v.store.active then Some(v.store.active[k].ts) else None
  }

  /** Device `d` goes on with its run and does not edit `k`; everybody else does as they like. */
  ghost predicate GoesOn(d: nat, k: Key, acts: seq<Act>) {
    forall a <- acts :: a.d == d ==> !a.Begin? && !a.Stop? && !a.Restart? && (a.Save? || a.Remove? ==> a.k != k)
  }

  lemma {:induction false} PagesOutlook(v: Device, k: Key)
    requires v.proc.Halfway?
    ensures Outlook(PagesApplied(v), k) == Outlook(v, k)
  {
    ChangeAllAt(v.store, v.proc.got, k);
  }

  lemma {:induction false} ButtonsOutlook(v: Device, k: Key)
    requires v.proc.Syncing? && v.proc.todo == {} && GotFits(v.proc)
    ensures Outlook(ButtonsApplied(v), k) == Outlook(v, k)
  {
    ChangeAllAt(v.store, OfKind(v.proc.got, Button), k);
    assert k.kind == Button || k.kind == Page;
    assert k in v.proc.got ==> ChangeFits(v.proc.got[k], v.proc.w[k]);
  }

  /** Reading back changes nothing in the outlook while the file has what is in memory. */
  lemma {:induction false} ReadOutlook(v: Device, ok: bool, k: Key)
    requires v.proc.Stored? && v.file == PagesOf(v.store)
    ensures Outlook(FileRead(v, ok), k) == Outlook(v, k)
  {
  }

  lemma {:induction false} PutOutlook(v: Device, k: Key)
    requires v.proc.Reading?
    ensures Outlook(PagesPut(v), k) == Outlook(v, k)
  {
  }

  lemma {:induction false} EditOutlook(v: Device, k: Key, j: Key, c: Change)
    requires j != k
    ensures Outlook(Edited(v, j, c), k) == Outlook(v, k)
    ensures k in v.store.tombs ==> k in Edited(v, j, c).store.tombs
  {
  }

  lemma {:induction false} OutlookTreated(y: Sys, d: nat, j: Key, k: Key)
    requires d < |y.devs| && y.devs[d].proc.Syncing? && CanPull(y, y.devs[d].proc, j)
    ensures var v' := TreatKey(y, d, j).devs[d];
      Outlook(v', k) == Outlook(y.devs[d], k) && (k in y.devs[d].store.tombs ==> k in v'.store.tombs)
  {
    TreatEffect(y, d, j);
    SamePlan(y.devs[d], TreatKey(y, d, j).devs[d], k);
  }

  lemma {:induction false} SamePlan(v: Device, v': Device, k: Key)
    requires v.proc.Syncing? && v'.proc.Syncing? && v'.proc.snap == v.proc.snap && v'.proc.w == v.proc.w
    requires v'.store.active == v.store.active
    ensures Outlook(v', k) == Outlook(v, k)
  {
  }

  lemma {:induction false} TombsKept(v: Device, a: Act, k: Key)
    requires a.ApplyButtons? || a.ApplyPages? || a.ReadBack? || a.PutBack?
    requires (a.ApplyButtons? ==> v.proc.Syncing?) && (a.ApplyPages? ==> v.proc.Halfway?)
    requires (a.ReadBack? ==> v.proc.Stored?) && (a.PutBack? ==> v.proc.Reading?) && k in v.store.tombs
    ensures k in Locally(v, a).store.tombs
  {
    if a.ApplyButtons? {
      ChangeAllAt(v.store, OfKind(v.proc.got, Button), k);
    } else if a.ApplyPages? {
      ChangeAllAt(v.store, v.proc.got, k);
    }
  }

  lemma {:induction false} OutlookOwnStep(truth: Truth, y: Sys, a: Act, k: Key)
    requires Inv(truth, y) && Enabled(truth, y, a) && StoredInStep(y.devs[a.d])
    requires a.ApplyButtons? || a.ApplyPages? || a.ReadBack? || a.PutBack?
    ensures var v' := Locally(y.devs[a.d], a);
      Outlook(v', k) == Outlook(y.devs[a.d], k) && (k in y.devs[a.d].store.tombs ==> k in v'.store.tombs)
  {
    var v := y.devs[a.d];
    assert ProcOk(truth, y, v);
    if k in v.store.tombs {
      TombsKept(v, a, k);
    }
    match a {
      case ApplyButtons(_) => ButtonsOutlook(v, k);
      case ApplyPages(_) => PagesOutlook(v, k);
      case ReadBack(_, ok) => ReadOutlook(v, ok, k);
      case PutBack(_) => PutOutlook(v, k);
    }
  }

  /** Whatever a device does next in its run, the outlook for a key stays. */
  lemma {:induction false} OutlookOwn(truth: Truth, y: Sys, a: Act, k: Key)
    requires Inv(truth, y) && Enabled(truth, y, a) && StoredInStep(y.devs[a.d]) && GoesOn(a.d, k, [a])
    ensures var v' := Do(truth, y, a).devs[a.d];
      Outlook(v', k) == Outlook(y.devs[a.d], k) && (k in y.devs[a.d].store.tombs ==> k in v'.store.tombs)
  {
    assert a in [a];
    if a.Treat? {
      OutlookTreated(y, a.d, a.k, k);
    } else if a.Save? {
      EditOutlook(y.devs[a.d], k, a.k, Replace(a.item));
    } else if a.Remove? {
      EditOutlook(y.devs[a.d], k, a.k, Erase(a.ts));
    } else if a.Refuse? || a.Delete? {
      OutlookRequested(truth, y, a, k);
    } else {
      OutlookOwnStep(truth, y, a, k);
    }
  }

  lemma {:induction false} OutlookRequested(truth: Truth, y: Sys, a: Act, k: Key)
    requires Enabled(truth, y, a) && (a.Refuse? || a.Delete?)
    ensures var v' := Do(truth, y, a).devs[a.d];
      Outlook(v', k) == Outlook(y.devs[a.d], k) && v'.store == y.devs[a.d].store
  {
  }

  // ---- Memory and file ----

  /** Between the write of the pages and reading them back, the file has what is in memory. */
  ghost predicate StoredInStep(v: Device) {
    v.proc.Stored? ==> InStep(v)
  }

  lemma {:induction false} EditedInStep(v: Device, k: Key, c: Change)
    requires InStep(v)
    ensures InStep(Edited(v, k, c))
  {
    if k.kind == Button || (c.Erase? && k !in v.store.active) {
      assert PagesOf(Edited(v, k, c).store) == PagesOf(v.store);
    }
  }

  lemma {:induction false} StepStored(truth: Truth, y: Sys, a: Act, d: nat)
    requires Enabled(truth, y, a) && d < |y.devs| && StoredInStep(y.devs[d])
    ensures StoredInStep(Do(truth, y, a).devs[d])
  {
    if a.d == d && y.devs[d].proc.Stored? {
      match a {
        case Save(_, k, item) => EditedInStep(y.devs[d], k, Replace(item));
        case Remove(_, k, ts) => EditedInStep(y.devs[d], k, Erase(ts));
        case _ =>
      }
    }
  }

  lemma {:induction false} OutlookStep(truth: Truth, y: Sys, a: Act, d: nat, k: Key)
    requires Inv(truth, y) && Enabled(truth, y, a) && d < |y.devs| && StoredInStep(y.devs[d]) && GoesOn(d, k, [a])
    ensures var v' := Do(truth, y, a).devs[d];
      Outlook(v', k) == Outlook(y.devs[d], k) && (k in y.devs[d].store.tombs ==> k in v'.store.tombs)
  {
    if a.d == d {
      OutlookOwn(truth, y, a, k);
    }
  }

  lemma {:induction false} OutlookRun(truth: Truth, y: Sys, acts: seq<Act>, d: nat, k: Key)
    requires Inv(truth, y) && CanDo(truth, y, acts) && d < |y.devs| && StoredInStep(y.devs[d]) && GoesOn(d, k, acts)
    ensures var end := After(truth, y, acts);
      && d < |end.devs| && Inv(truth, end)
      && Outlook(end.devs[d], k) == Outlook(y.devs[d], k) &&
        (k in y.devs[d].store.tombs ==> k in end.devs[d].store.tombs)
    decreases |acts|
  {
    if acts != [] {
      assert acts[0] in acts && GoesOn(d, k, [acts[0]]);
      StepInv(truth, y, acts[0]);
      StepStored(truth, y, acts[0], d);
      OutlookStep(truth, y, acts[0], d, k);
      OutlookRun(truth, Do(truth, y, acts[0]), acts[1..], d, k);
    }
  }

  ghost predicate AllStored(y: Sys) {
    forall d :: 0 <= d < |y.devs| ==> StoredInStep(y.devs[d])
  }

  /** In every run from a system at rest the file is in step where that matters. */
  lemma {:induction false} RunStored(truth: Truth, y: Sys, acts: seq<Act>)
    requires CanDo(truth, y, acts) && AllStored(y)
    ensures AllStored(After(truth, y, acts))
    decreases |acts|
  {
    if acts != [] {
      var y' := Do(truth, y, acts[0]);
      forall d | 0 <= d < |y'.devs| ensures StoredInStep(y'.devs[d]) {
        StepStored(truth, y, acts[0], d);
      }
      RunStored(truth, y', acts[1..]);
    }
  }

  /** A state that a system at rest can come to. */
  ghost predicate Reached(truth: Truth, y0: Sys, before: seq<Act>, y: Sys) {
    Start(truth, y0) && CanDo(truth, y0, before) && y == After(truth, y0, before)
  }

  lemma {:induction false} ReachedOk(truth: Truth, y0: Sys, before: seq<Act>, y: Sys)
    requires Reached(truth, y0, before, y)
    ensures Inv(truth, y) && AllStored(y)
  {
    StartInv(truth, y0);
    RunInv(truth, y0, before);
    RunStored(truth, y0, before);
  }

  // ---- The two results ----

  /** The user saves an item at any moment of a run of their device, in any interleaving with other
      devices and other edits. When the run has written its downloads, the edit is still there exactly if
      the run was not going to pull that key, or pulled the very same copy, and the edit was not one of a
      page between reading the pages back and putting them in place, or these had the very same copy. */
  lemma {:induction false} EditDuringRun(truth: Truth, y0: Sys, before: seq<Act>, y: Sys, d: nat, k: Key, item: Item,
                                         acts: seq<Act>)
    requires Reached(truth, y0, before, y) && Enabled(truth, y, Save(d, k, item))
    requires CanDo(truth, Do(truth, y, Save(d, k, item)), acts) && GoesOn(d, k, acts)
    requires var end := After(truth, Do(truth, y, Save(d, k, item)), acts); d < |end.devs| && end.devs[d].proc.Deleting?
    ensures var store := After(truth, Do(truth, y, Save(d, k, item)), acts).devs[d].store;
      var p := y.devs[d].proc;
      (k in store.active && store.active[k] == item)
      <==> && (Pulled(p, k) == Stays || Pulled(p, k) == Becomes(item.ts))
           && (InWindow(p, k) ==> k in p.pages && p.pages[k].ts == item.ts)
  {
    ReachedOk(truth, y0, before, y);
    var y1 := Do(truth, y, Save(d, k, item));
    StepInv(truth, y, Save(d, k, item));
    StepStored(truth, y, Save(d, k, item), d);
    OutlookRun(truth, y1, acts, d, k);
    var end := After(truth, y1, acts);
    assert ProcOk(truth, end, end.devs[d]);
    assert y1.devs[d].store.active[k] == item;
  }

  /** The same for a deletion: it stays recorded, and is undone exactly if the run pulls a live copy, or the
      item is a page that was read back and not yet put in place. */
  lemma {:induction false} DeletionDuringRun(truth: Truth, y0: Sys, before: seq<Act>, y: Sys, d: nat, k: Key, ts: nat,
                                             acts: seq<Act>)
    requires Reached(truth, y0, before, y) && Enabled(truth, y, Remove(d, k, ts)) && k in y.devs[d].store.active
    requires CanDo(truth, Do(truth, y, Remove(d, k, ts)), acts) && GoesOn(d, k, acts)
    requires var end := After(truth, Do(truth, y, Remove(d, k, ts)), acts); d < |end.devs| && end.devs[d].proc.Deleting?
    ensures var store := After(truth, Do(truth, y, Remove(d, k, ts)), acts).devs[d].store;
      var p := y.devs[d].proc;
      k in store.tombs && (k in store.active <==> Pulled(p, k).Becomes? || (InWindow(p, k) && k in p.pages))
  {
    ReachedOk(truth, y0, before, y);
    var y1 := Do(truth, y, Remove(d, k, ts));
    StepInv(truth, y, Remove(d, k, ts));
    StepStored(truth, y, Remove(d, k, ts), d);
    OutlookRun(truth, y1, acts, d, k);
    assert k !in y1.devs[d].store.active && k in y1.devs[d].store.tombs;
  }
}
