/** Any number of devices synchronising at the same time, one request at a time, with local edits
    in between, with crashes anywhere, with stale listings and with PUTs that the server refuses: the
    folder never loses the newest copy of a key it ever held, unless a PUT for that key was refused. */
module Interleaving {
  import opened Basics
  import opened Replication
  import opened Convergence

  /** Where a device is in `performSync`.
      `Syncing`: `snap` and `w` were read at the start, `todo` are the keys not yet treated, `got` the
      changes to apply later, `dels` the files to delete at the end. `Halfway`: the buttons have been
      written to the local store, `got` are the changes of pages. `Stored`: some pages have been written.
      `Reading`: the file of the pages has been read back, `pages` is what it had. */
  datatype Proc =
    | Idle
    | Syncing(snap: Store, w: Winners, todo: set<Key>, got: map<Key, Change>, dels: set<RemoteFile>)
    | Halfway(got: map<Key, Change>, dels: set<RemoteFile>)
    | Stored(dels: set<RemoteFile>)
    | Reading(pages: Pages, dels: set<RemoteFile>)
    | Deleting(dels: set<RemoteFile>)

  datatype Change = Replace(item: Item) | Erase(ts: nat)

  type Pages = map<Key, Item>

  /** `store` is in memory; `file` is the file of the pages, which a start reads. */
  datatype Device = Device(store: Store, file: Pages, proc: Proc)

  /** `ever`, `gone`, `refused` and `clock` record history and influence nothing: all files that were
      ever in the folder, the expired tombstones that were deleted, the keys of refused PUTs, and the
      latest clock reading. */
  datatype Sys = Sys(folder: Folder, devs: seq<Device>, ever: set<RemoteFile>, gone: set<RemoteFile>, refused: set<Key>,
                     clock: int)

  datatype Act =
    // clean the tombstones and look at the store; the listing `files` may be old
    | Begin(d: nat, now: int, files: set<RemoteFile>, w: Winners)
    | Treat(d: nat, k: Key)                 // one key: PUT, GET, note a deletion, or nothing
    | Refuse(d: nat, k: Key)                // one key: a PUT that the server answers with an error
    | ApplyButtons(d: nat)                  // write the downloaded buttons to the local store
    | ApplyPages(d: nat)                    // write the downloaded pages to the local store and their file
    | ReadBack(d: nat, ok: bool)            // read the file of the pages again
    | PutBack(d: nat)                       // put what it had in place of the pages
    | Delete(d: nat, f: RemoteFile)         // one DELETE
    | Stop(d: nat)                          // finish or fail
    | Restart(d: nat)                       // crash and start again
    | Save(d: nat, k: Key, item: Item)      // the user edits an item
    | Remove(d: nat, k: Key, ts: nat)       // the user deletes an item

  predicate WillUpload(p: Proc, k: Key)
    requires p.Syncing?
  {
    k in Known(p.snap) && Pushes(p.snap, p.w, k)
  }

  /** A live copy can be pulled while its file is there; a deletion is read off the file name. */
  predicate CanPull(y: Sys, p: Proc, k: Key)
    requires p.Syncing?
  {
    Pulls(p.snap, p.w, k) ==> k in p.w && (p.w[k].deleted || p.w[k] in y.folder)
  }

  /** The pages of a store, and a store with other pages. */
  function PagesOf(s: Store): Pages {
    map k | k in s.active && k.kind == Page :: s.active[k]
  }

  function WithPages(s: Store, pages: Pages): Store {
    s.(active := map k | k in s.active.Keys + pages.Keys && (if k.kind == Page then k in pages else k in s.active) ::
         if k.kind == Page then pages[k] else s.active[k])
  }

  ghost predicate Enabled(truth: Truth, y: Sys, a: Act) {
    a.d < |y.devs| &&
    var v := y.devs[a.d];
    match a
    case Begin(_, now, files, w) => v.proc.Idle? && files <= y.ever && Picks(w, files, now)
    case Treat(_, k) => v.proc.Syncing? && k in v.proc.todo && CanPull(y, v.proc, k)
    case Refuse(_, k) => v.proc.Syncing? && k in v.proc.todo && WillUpload(v.proc, k)
    case ApplyButtons(_) => v.proc.Syncing? && v.proc.todo == {}
    case ApplyPages(_) => v.proc.Halfway?
    case ReadBack(_, _) => v.proc.Stored?
    case PutBack(_) => v.proc.Reading?
    case Delete(_, f) => v.proc.Deleting? && f in v.proc.dels
    case Stop(_) => true
    case Restart(_) => true
    case Save(_, k, item) => truth(k, item.ts) == Live(item.body)
    case Remove(_, k, ts) => truth(k, ts) == Dead
  }

  function Change1(s: Store, k: Key, c: Change): Store {
    match c
    case Replace(item) => s.(active := s.active[k := item])
    case Erase(ts) => if k in s.active then Store(s.active - {k}, s.tombs[k := ts]) else s
  }

  /** Deleting an item that is not there (any more) calls no callback and records nothing. */
  predicate Erases(s: Store, got: map<Key, Change>, k: Key) {
    k in s.active && k in got && got[k].Erase?
  }

  /** `UpsertButtons` and `UpsertPages` with force: the changes replace whatever is there now. */
  function ChangeAll(s: Store, got: map<Key, Change>): Store {
    Store(
      map k | k in s.active.Keys + got.Keys && (k in got ==> got[k].Replace?) ::
        if k in got then got[k].item else s.active[k],
      map k | k in s.tombs.Keys + got.Keys && (k in s.tombs || Erases(s, got, k)) ::
        if Erases(s, got, k) then got[k].ts else s.tombs[k])
  }

  /** The changes of one kind of item. */
  function OfKind(got: map<Key, Change>, kind: Kind): map<Key, Change> {
    map k | k in got && k.kind == kind :: got[k]
  }

  function TreatKey(y: Sys, d: nat, k: Key): Sys
    requires d < |y.devs| && y.devs[d].proc.Syncing? && CanPull(y, y.devs[d].proc, k)
  {
    var v := y.devs[d];
    var p := v.proc;
    var todo := p.todo - {k};
    if WillUpload(p, k) then
      var f := UploadName(p.snap, k);
      y.(folder := y.folder[f := UploadBody(p.snap, k)], devs := y.devs[d := v.(proc := p.(todo := todo))],
        ever := y.ever + {f})
    else if Pulls(p.snap, p.w, k) then
      var f := p.w[k];
      if f.deleted then
        var p' := Syncing(p.snap, p.w, todo, p.got[k := Erase(f.ts)], p.dels);
        y.(devs := y.devs[d := v.(store := v.store.(tombs := v.store.tombs[k := f.ts]), proc := p')])
      else
        var p' := Syncing(p.snap, p.w, todo, p.got[k := Replace(Item(f.ts, y.folder[f]))], p.dels);
        y.(devs := y.devs[d := v.(proc := p')])
    else
      y.(devs := y.devs[d := v.(proc := p.(todo := todo))])
  }

  /** The end of the local step of a device: the buttons, the pages, and reading these back. Without
      downloaded pages the last three steps are left out, and a file without pages is not put back. */
  function ButtonsApplied(v: Device): Device
    requires v.proc.Syncing?
  {
    v.(store := ChangeAll(v.store, OfKind(v.proc.got, Button)), proc := Halfway(OfKind(v.proc.got, Page), v.proc.dels))
  }

  function PagesApplied(v: Device): Device
    requires v.proc.Halfway?
  {
    var s := ChangeAll(v.store, v.proc.got);
    if v.proc.got == map[] then v.(proc := Deleting(v.proc.dels)) else Device(s, PagesOf(s), Stored(v.proc.dels))
  }

  function FileRead(v: Device, ok: bool): Device
    requires v.proc.Stored?
  {
    v.(proc := Reading(if ok then v.file else map[], v.proc.dels))
  }

  function PagesPut(v: Device): Device
    requires v.proc.Reading?
  {
    var s := if v.proc.pages == map[] then v.store else WithPages(v.store, v.proc.pages);
    v.(store := s, proc := Deleting(v.proc.dels))
  }

  /** An edit of the user; editing a page writes all pages to their file. */
  function Edited(v: Device, k: Key, c: Change): Device {
    var s := Change1(v.store, k, c);
    v.(store := s, file := if k.kind == Page && (c.Replace? || k in v.store.active) then PagesOf(s) else v.file)
  }

  ghost function Do(truth: Truth, y: Sys, a: Act): Sys
    requires Enabled(truth, y, a)
  {
    var v := y.devs[a.d];
    match a
    case Begin(d, now, files, w) =>
      var s := Cleaned(v.store, now);
      var p := Syncing(s, w, Known(s) + w.Keys, map[], Deletes(files, s, w));
      y.(devs := y.devs[d := v.(store := s, proc := p)], clock := Max(y.clock, now))
    case Treat(d, k) => TreatKey(y, d, k)
    case Refuse(d, k) =>
      y.(devs := y.devs[d := v.(proc := v.proc.(todo := v.proc.todo - {k}))], refused := y.refused + {k})
    case ApplyButtons(d) => y.(devs := y.devs[d := ButtonsApplied(v)])
    case ApplyPages(d) => y.(devs := y.devs[d := PagesApplied(v)])
    case ReadBack(d, ok) => y.(devs := y.devs[d := FileRead(v, ok)])
    case PutBack(d) => y.(devs := y.devs[d := PagesPut(v)])
    case Delete(d, f) =>
      y.(folder := y.folder - {f},
         devs := y.devs[d := v.(proc := Deleting(v.proc.dels - {f}))],
         gone := if f in y.folder && Expired(f, y.clock) then y.gone + {f} else y.gone)
    case Stop(d) => y.(devs := y.devs[d := v.(proc := Idle)])
    case Restart(d) => y.(devs := y.devs[d := v.(store := WithPages(v.store, v.file), proc := Idle)])
    case Save(d, k, item) => y.(devs := y.devs[d := Edited(v, k, Replace(item))])
    case Remove(d, k, ts) => y.(devs := y.devs[d := Edited(v, k, Erase(ts))])
  }

  ghost predicate CanDo(truth: Truth, y: Sys, acts: seq<Act>)
    decreases |acts|
  {
    acts == [] || (Enabled(truth, y, acts[0]) && CanDo(truth, Do(truth, y, acts[0]), acts[1..]))
  }

  ghost function After(truth: Truth, y: Sys, acts: seq<Act>): Sys
    requires CanDo(truth, y, acts)
    decreases |acts|
  {
    if acts == [] then y else After(truth, Do(truth, y, acts[0]), acts[1..])
  }

  // ---- The invariant ----

  ghost predicate Named(truth: Truth, f: RemoteFile) {
    truth(f.key, f.ts).Dead? <==> f.deleted
  }

  /** Something at least as new as `f` is in the folder, or was an expired tombstone. */
  ghost predicate Covered(y: Sys, f: RemoteFile) {
    exists g :: (g in y.folder || g in y.gone) && g.key == f.key && g.ts >= f.ts
  }

  ghost predicate WillPut(p: Proc, j: RemoteFile) {
    p.Syncing? && j.key in p.todo && WillUpload(p, j.key) && j == UploadName(p.snap, j.key)
  }

  /** `f` may be deleted: it has expired, or something strictly newer has reached the folder or
      will do so before this device deletes anything. */
  ghost predicate Superseded(y: Sys, p: Proc, f: RemoteFile) {
    Expired(f, y.clock) || exists j: RemoteFile :: j.key == f.key && j.ts > f.ts && (j in y.ever || WillPut(p, j))
  }

  ghost predicate ChangeOk(truth: Truth, k: Key, c: Change) {
    match c
    case Replace(item) => truth(k, item.ts) == Live(item.body)
    case Erase(ts) => truth(k, ts) == Dead
  }

  /** The change is what the winner `f` calls for. */
  ghost predicate ChangeFits(c: Change, f: RemoteFile) {
    match c
    case Replace(item) => !f.deleted && item.ts == f.ts
    case Erase(ts) => f.deleted && ts == f.ts
  }

  /** The changes noted so far are those of the keys treated so far. */
  ghost predicate GotFits(p: Proc)
    requires p.Syncing?
  {
    forall k: Key ::
      && (k in p.got <==> k !in p.todo && k in p.w && Pulls(p.snap, p.w, k))
      && (k in p.got ==> ChangeFits(p.got[k], p.w[k]))
  }

  ghost predicate SyncingOk(truth: Truth, y: Sys, p: Proc)
    requires p.Syncing?
  {
    StoreOk(truth, p.snap) && (forall k <- p.w :: p.w[k] in y.ever && p.w[k].key == k) && GotFits(p)
  }

  /** Genuine copies of pages. */
  ghost predicate PagesOk(truth: Truth, pages: Pages) {
    forall k <- pages :: k.kind == Page && truth(k, pages[k].ts) == Live(pages[k].body)
  }

  ghost predicate ProcOk(truth: Truth, y: Sys, v: Device) {
    && StoreOk(truth, v.store) && PagesOk(truth, v.file) && (v.proc.Reading? ==> PagesOk(truth, v.proc.pages))
    && (v.proc.Syncing? ==> SyncingOk(truth, y, v.proc))
    && (v.proc.Syncing? || v.proc.Halfway? ==> forall k <- v.proc.got :: ChangeOk(truth, k, v.proc.got[k]))
    && (!v.proc.Idle? ==> forall f <- v.proc.dels :: f in y.ever && (f.key in y.refused || Superseded(y, v.proc, f)))
  }

  ghost predicate Inv(truth: Truth, y: Sys) {
    && FolderOk(truth, y.folder)
    && y.folder.Keys <= y.ever
    && (forall f <- y.ever :: Named(truth, f))
    && (forall f <- y.ever :: f.key in y.refused || Covered(y, f))
    && (forall f <- y.gone :: Expired(f, y.clock) && f in y.ever)
    && forall d :: 0 <= d < |y.devs| ==> ProcOk(truth, y, y.devs[d])
  }

  /** Growing the history and the clock keeps every other device's promise. */
  lemma {:induction false} ProcOkMono(truth: Truth, y: Sys, y': Sys, v: Device)
    requires ProcOk(truth, y, v) && y.ever <= y'.ever && y.refused <= y'.refused && y.clock <= y'.clock
    ensures ProcOk(truth, y', v)
  {
    if !v.proc.Idle? {
      forall f | f in v.proc.dels && f.key !in y'.refused ensures Superseded(y', v.proc, f) {
        assert Superseded(y, v.proc, f);
      }
    }
  }

  lemma {:induction false} CoveredMono(y: Sys, y': Sys)
    requires y.folder.Keys <= y'.folder.Keys && y.gone <= y'.gone
    ensures forall f :: Covered(y, f) ==> Covered(y', f)
  {
  }

  lemma {:induction false} BeginSuperseded(truth: Truth, y: Sys, now: int, files: set<RemoteFile>, w: Winners,
                                           s: Store, p: Proc, clock: int, f: RemoteFile)
    requires Inv(truth, y) && files <= y.ever && Picks(w, files, now) && now <= clock
    requires p == Syncing(s, w, Known(s) + w.Keys, map[], Deletes(files, s, w))
    requires f in p.dels
    ensures Superseded(y.(clock := clock), p, f)
  {
    if !Expired(f, now) {
      var k := f.key;
      assert k in w && f.ts <= w[k].ts;
      if Pushes(s, w, k) {
        assert WillPut(p, UploadName(s, k));
      } else {
        assert w[k] in Kept(s, w) && w[k] != f;
        assert Named(truth, f) && Named(truth, w[k]);
        assert w[k].ts > f.ts;
      }
    }
  }

  lemma {:induction false} BeginInv(truth: Truth, y: Sys, a: Act)
    requires a.Begin? && Enabled(truth, y, a) && Inv(truth, y)
    ensures Inv(truth, Do(truth, y, a))
  {
    var y' := Do(truth, y, a);
    CoveredMono(y, y');
    var v := y'.devs[a.d];
    forall f | f in v.proc.dels ensures Superseded(y', v.proc, f) {
      BeginSuperseded(truth, y, a.now, a.files, a.w, v.proc.snap, v.proc, y'.clock, f);
      assert Superseded(y.(clock := y'.clock), v.proc, f);
    }
    assert ProcOk(truth, y, y.devs[a.d]);
    forall d | 0 <= d < |y'.devs| ensures ProcOk(truth, y', y'.devs[d]) {
      if d != a.d {
        ProcOkMono(truth, y, y', y.devs[d]);
      }
    }
  }

  lemma {:induction false} TreatSuperseded(truth: Truth, y: Sys, d: nat, k: Key, f: RemoteFile)
    requires Enabled(truth, y, Treat(d, k)) && f in y.devs[d].proc.dels
    requires Superseded(y, y.devs[d].proc, f)
    ensures Superseded(TreatKey(y, d, k), TreatKey(y, d, k).devs[d].proc, f)
  {
    var y' := TreatKey(y, d, k);
    if !Expired(f, y.clock) {
      var j: RemoteFile :| j.key == f.key && j.ts > f.ts && (j in y.ever || WillPut(y.devs[d].proc, j));
      assert j in y'.ever || WillPut(y'.devs[d].proc, j);
    }
  }

  /** Treating a key notes exactly the change its winner calls for. */
  lemma {:induction false} TreatGot(truth: Truth, y: Sys, d: nat, k: Key)
    requires Inv(truth, y) && Enabled(truth, y, Treat(d, k))
    ensures var v' := TreatKey(y, d, k).devs[d];
      v'.proc.Syncing? && GotFits(v'.proc) && (forall x <- v'.proc.got :: ChangeOk(truth, x, v'.proc.got[x]))
      && StoreOk(truth, v'.store)
  {
    var v := y.devs[d];
    var p := v.proc;
    assert ProcOk(truth, y, v) && GotFits(p);
    if Pulls(p.snap, p.w, k) {
      var f := p.w[k];
      assert Named(truth, f);
      if !f.deleted {
        assert FileOk(truth, f, y.folder[f]);
      }
    }
  }

  lemma {:induction false} TreatProcOk(truth: Truth, y: Sys, d: nat, k: Key)
    requires Inv(truth, y) && Enabled(truth, y, Treat(d, k))
    ensures ProcOk(truth, TreatKey(y, d, k), TreatKey(y, d, k).devs[d])
  {
    var y' := TreatKey(y, d, k);
    var v, v' := y.devs[d], y'.devs[d];
    assert ProcOk(truth, y, v);
    TreatGot(truth, y, d, k);
    forall f | f in v'.proc.dels ensures f in y'.ever && (f.key in y'.refused || Superseded(y', v'.proc, f)) {
      if f.key !in y.refused {
        TreatSuperseded(truth, y, d, k, f);
      }
    }
  }

  lemma {:induction false} TreatInv(truth: Truth, y: Sys, a: Act)
    requires a.Treat? && Enabled(truth, y, a) && Inv(truth, y)
    ensures Inv(truth, Do(truth, y, a))
  {
    var y' := Do(truth, y, a);
    var p := y.devs[a.d].proc;
    assert ProcOk(truth, y, y.devs[a.d]);
    CoveredMono(y, y');
    TreatProcOk(truth, y, a.d, a.k);
    forall f | f in y'.ever ensures (f.key in y'.refused || Covered(y', f)) && Named(truth, f) {
      if f !in y.ever {
        assert f == UploadName(p.snap, a.k) && f in y'.folder;
      }
    }
    forall d | 0 <= d < |y'.devs| ensures ProcOk(truth, y', y'.devs[d]) {
      if d != a.d {
        ProcOkMono(truth, y, y', y.devs[d]);
      }
    }
  }

  lemma {:induction false} RefuseSuperseded(y: Sys, y': Sys, p: Proc, k: Key, f: RemoteFile)
    requires p.Syncing? && k in p.todo && Superseded(y, p, f) && f.key != k
    requires y'.ever == y.ever && y'.clock == y.clock
    ensures Superseded(y', p.(todo := p.todo - {k}), f)
  {
    if !Expired(f, y.clock) {
      var j: RemoteFile :| j.key == f.key && j.ts > f.ts && (j in y.ever || WillPut(p, j));
      assert j in y'.ever || WillPut(p.(todo := p.todo - {k}), j);
    }
  }

  lemma {:induction false} RefuseProcOk(truth: Truth, y: Sys, a: Act)
    requires a.Refuse? && Enabled(truth, y, a) && Inv(truth, y)
    ensures ProcOk(truth, Do(truth, y, a), Do(truth, y, a).devs[a.d])
  {
    var y' := Do(truth, y, a);
    var p, p' := y.devs[a.d].proc, y'.devs[a.d].proc;
    assert ProcOk(truth, y, y.devs[a.d]) && GotFits(p);
    assert !Pulls(p.snap, p.w, a.k);
    forall f | f in p'.dels && f.key !in y'.refused ensures Superseded(y', p', f) {
      RefuseSuperseded(y, y', p, a.k, f);
    }
  }

  /** A refused PUT breaks the promise for its own key only. */
  lemma {:induction false} RefuseInv(truth: Truth, y: Sys, a: Act)
    requires a.Refuse? && Enabled(truth, y, a) && Inv(truth, y)
    ensures Inv(truth, Do(truth, y, a))
  {
    var y' := Do(truth, y, a);
    CoveredMono(y, y');
    RefuseProcOk(truth, y, a);
    forall d | 0 <= d < |y'.devs| ensures ProcOk(truth, y', y'.devs[d]) {
      if d != a.d {
        ProcOkMono(truth, y, y', y.devs[d]);
      }
    }
  }

  lemma {:induction false} Newer(y: Sys, p: Proc, f: RemoteFile) returns (g: RemoteFile)
    requires p.Deleting? && Superseded(y, p, f) && !Expired(f, y.clock) && f.key !in y.refused
    requires forall j <- y.ever :: j.key in y.refused || Covered(y, j)
    ensures (g in y.folder || g in y.gone) && g.key == f.key && g.ts > f.ts
  {
    var j: RemoteFile :| j.key == f.key && j.ts > f.ts && j in y.ever;
    assert Covered(y, j);
    g :| (g in y.folder || g in y.gone) && g.key == j.key && g.ts >= j.ts;
  }

  /** Deleting a superseded file leaves everything covered. */
  lemma {:induction false} DeleteCovered(truth: Truth, y: Sys, a: Act, h: RemoteFile)
    requires a.Delete? && Enabled(truth, y, a) && Inv(truth, y) && h in y.ever && h.key !in y.refused
    ensures Covered(Do(truth, y, a), h)
  {
    var y' := Do(truth, y, a);
    var f := a.f;
    assert ProcOk(truth, y, y.devs[a.d]);
    assert Covered(y, h);
    var g :| (g in y.folder || g in y.gone) && g.key == h.key && g.ts >= h.ts;
    if g == f && g !in y'.gone {
      var g2 := Newer(y, y.devs[a.d].proc, f);
      assert g2 in y'.folder || g2 in y'.gone;
    } else {
      assert g in y'.folder || g in y'.gone;
    }
  }

  lemma {:induction false} DeleteInv(truth: Truth, y: Sys, a: Act)
    requires a.Delete? && Enabled(truth, y, a) && Inv(truth, y)
    ensures Inv(truth, Do(truth, y, a))
  {
    var y' := Do(truth, y, a);
    forall h | h in y'.ever && h.key !in y'.refused ensures Covered(y', h) {
      DeleteCovered(truth, y, a, h);
    }
    forall f | f in y'.folder ensures FileOk(truth, f, y'.folder[f]) {
      assert FileOk(truth, f, y.folder[f]);
    }
    forall d | 0 <= d < |y'.devs| ensures ProcOk(truth, y', y'.devs[d]) {
      ProcOkMono(truth, y, y', y.devs[d]);
    }
  }

  lemma {:induction false} ChangeAllOk(truth: Truth, s: Store, got: map<Key, Change>)
    requires StoreOk(truth, s) && forall k <- got :: ChangeOk(truth, k, got[k])
    ensures StoreOk(truth, ChangeAll(s, got))
  {
    forall k | k in got ensures ChangeOk(truth, k, got[k]) {
    }
  }

  lemma {:induction false} PagesOfOk(truth: Truth, s: Store)
    requires StoreOk(truth, s)
    ensures PagesOk(truth, PagesOf(s))
  {
  }

  lemma {:induction false} WithPagesOk(truth: Truth, s: Store, pages: Pages)
    requires StoreOk(truth, s) && PagesOk(truth, pages)
    ensures StoreOk(truth, WithPages(s, pages))
  {
  }

  /** What only one device does to its own store. */
  predicate IsLocal(a: Act) {
    a.ApplyButtons? || a.ApplyPages? || a.ReadBack? || a.PutBack? || a.Stop? || a.Restart? || a.Save? || a.Remove?
  }

  /** The device after such a step. */
  function Locally(v: Device, a: Act): Device
    requires IsLocal(a)
    requires (a.ApplyButtons? ==> v.proc.Syncing?) && (a.ApplyPages? ==> v.proc.Halfway?)
    requires (a.ReadBack? ==> v.proc.Stored?) && (a.PutBack? ==> v.proc.Reading?)
  {
    match a
    case ApplyButtons(_) => ButtonsApplied(v)
    case ApplyPages(_) => PagesApplied(v)
    case ReadBack(_, ok) => FileRead(v, ok)
    case PutBack(_) => PagesPut(v)
    case Restart(_) => v.(store := WithPages(v.store, v.file), proc := Idle)
    case Save(_, k, item) => Edited(v, k, Replace(item))
    case Remove(_, k, ts) => Edited(v, k, Erase(ts))
    case _ => v.(proc := Idle)
  }

  lemma {:induction false} LocalStores(truth: Truth, y: Sys, a: Act)
    requires IsLocal(a) && Enabled(truth, y, a) && Inv(truth, y)
    ensures var v' := Locally(y.devs[a.d], a);
      && StoreOk(truth, v'.store) && PagesOk(truth, v'.file) && (v'.proc.Reading? ==> PagesOk(truth, v'.proc.pages))
      && (v'.proc.Syncing? || v'.proc.Halfway? ==> forall k <- v'.proc.got :: ChangeOk(truth, k, v'.proc.got[k]))
  {
    var v := y.devs[a.d];
    var v' := Locally(v, a);
    assert ProcOk(truth, y, v);
    if a.ApplyButtons? {
      ChangeAllOk(truth, v.store, OfKind(v.proc.got, Button));
    } else if a.ApplyPages? {
      ChangeAllOk(truth, v.store, v.proc.got);
    } else if a.PutBack? {
      WithPagesOk(truth, v.store, v.proc.pages);
    } else if a.Restart? {
      WithPagesOk(truth, v.store, v.file);
    }
    PagesOfOk(truth, v'.store);
  }

  lemma {:induction false} LocalProcOk(truth: Truth, y: Sys, a: Act)
    requires IsLocal(a) && Enabled(truth, y, a) && Inv(truth, y)
    ensures ProcOk(truth, y, Locally(y.devs[a.d], a))
  {
    var v := y.devs[a.d];
    var v' := Locally(v, a);
    assert ProcOk(truth, y, v);
    LocalStores(truth, y, a);
    if v.proc != v'.proc && !v'.proc.Idle? {
      forall f | f in v'.proc.dels && f.key !in y.refused ensures Superseded(y, v'.proc, f) {
        assert Superseded(y, v.proc, f);
      }
    }
  }

  lemma {:induction false} LocalInv(truth: Truth, y: Sys, a: Act)
    requires IsLocal(a) && Enabled(truth, y, a) && Inv(truth, y)
    ensures Inv(truth, Do(truth, y, a))
  {
    var y' := Do(truth, y, a);
    LocalProcOk(truth, y, a);
    assert y' == y.(devs := y.devs[a.d := Locally(y.devs[a.d], a)]);
    CoveredMono(y, y');
    forall d | 0 <= d < |y'.devs| ensures ProcOk(truth, y', y'.devs[d]) {
      ProcOkMono(truth, y, y', y'.devs[d]);
    }
  }

  lemma {:induction false} StepInv(truth: Truth, y: Sys, a: Act)
    requires Enabled(truth, y, a) && Inv(truth, y)
    ensures Inv(truth, Do(truth, y, a))
    ensures y.ever <= Do(truth, y, a).ever && y.refused <= Do(truth, y, a).refused
  {
    match a
    case Begin(_, _, _, _) => BeginInv(truth, y, a);
    case Treat(_, _) => TreatInv(truth, y, a);
    case Refuse(_, _) => RefuseInv(truth, y, a);
    case Delete(_, _) => DeleteInv(truth, y, a);
    case _ => LocalInv(truth, y, a);
  }

  lemma {:induction false} RunInv(truth: Truth, y: Sys, acts: seq<Act>)
    requires CanDo(truth, y, acts) && Inv(truth, y)
    ensures Inv(truth, After(truth, y, acts))
    ensures y.ever <= After(truth, y, acts).ever && y.refused <= After(truth, y, acts).refused
    decreases |acts|
  {
    if acts != [] {
      StepInv(truth, y, acts[0]);
      RunInv(truth, Do(truth, y, acts[0]), acts[1..]);
    }
  }

  /** A system at rest: nobody is synchronising and history starts now. */
  ghost predicate Start(truth: Truth, y: Sys) {
    && WorldOk(truth, World(y.folder, seq(|y.devs|, i requires 0 <= i < |y.devs| => y.devs[i].store)))
    && y.ever == y.folder.Keys && y.gone == {} && y.refused == {}
    && forall d :: 0 <= d < |y.devs| ==> y.devs[d].proc.Idle? && y.devs[d].file == PagesOf(y.devs[d].store)
  }

  lemma {:induction false} StartInv(truth: Truth, y: Sys)
    requires Start(truth, y)
    ensures Inv(truth, y)
  {
    var v := World(y.folder, seq(|y.devs|, i requires 0 <= i < |y.devs| => y.devs[i].store));
    forall f | f in y.ever ensures Named(truth, f) && Covered(y, f) {
      assert FileOk(truth, f, y.folder[f]);
    }
    forall d | 0 <= d < |y.devs| ensures ProcOk(truth, y, y.devs[d]) {
      assert v.stores[d] == y.devs[d].store;
      assert StoreOk(truth, v.stores[d]);
      PagesOfOk(truth, v.stores[d]);
    }
  }

  /** Safety of the folder. In every run of any number of devices, whatever the interleaving of
      their requests, wherever they stop and whatever is edited meanwhile: if a file is in the
      folder at one moment then at every later moment the folder has a file for the same key that
      is at least as new, unless a deletion marker at least as new was removed after it had
      expired, or the server refused a PUT for that key. */
  lemma {:induction false} NeverLost(truth: Truth, y: Sys, a: seq<Act>, b: seq<Act>, f: RemoteFile)
    requires Start(truth, y) && CanDo(truth, y, a) && CanDo(truth, After(truth, y, a), b)
    requires f in After(truth, y, a).folder
    ensures var end := After(truth, After(truth, y, a), b);
            || f.key in end.refused
            || exists g <- end.ever ::
                 g.key == f.key && g.ts >= f.ts && (g in end.folder || (g in end.gone && Expired(g, end.clock)))
  {
    StartInv(truth, y);
    RunInv(truth, y, a);
    RunInv(truth, After(truth, y, a), b);
    var end := After(truth, After(truth, y, a), b);
    if f.key !in end.refused {
      assert Covered(end, f);
      var g :| (g in end.folder || g in end.gone) && g.key == f.key && g.ts >= f.ts;
      assert g in end.ever;
    }
  }
}
