/** One device synchronising undisturbed, one request at a time, on a server that may refuse some of its
    PUTs: a complete run has exactly the effect of `Synced` and `Applied`, save for the refused uploads,
    and a run that stops after any request, or that had uploads refused, can simply be run again, with
    the result the first run should have had. */
module CrashSafety {
  import opened Replication
  import opened Convergence
  import opened Interleaving

  function AllKeys(s: Store, w: Winners): set<Key> {
    Known(s) + w.Keys
  }

  function DocsOf(s: Store, w: Winners, done: set<Key>): Folder {
    map f | f in Uploads(s, w) && f.key in Known(s) && f.key in done :: UploadBody(s, f.key)
  }

  function ChangeOf(w: Winners, folder: Folder, k: Key): Change
    requires k in w && (w[k].deleted || w[k] in folder)
  {
    if w[k].deleted then Erase(w[k].ts) else Replace(Item(w[k].ts, folder[w[k]]))
  }

  function ChangesOf(s: Store, w: Winners, folder: Folder, done: set<Key>): map<Key, Change> {
    map k | k in w && w[k] in folder && k in done && Pulls(s, w, k) :: ChangeOf(w, folder, k)
  }

  function TombsOf(s: Store, w: Winners, done: set<Key>): map<Key, nat> {
    map k | k in w && k in done && Pulls(s, w, k) && w[k].deleted :: w[k].ts
  }

  /** The store when all keys have been treated, and when the buttons have been written too. */
  function NotedStore(s: Store, w: Winners): Store {
    s.(tombs := s.tombs + TombsOf(s, w, AllKeys(s, w)))
  }

  function HalfStore(s: Store, w: Winners, folder: Folder): Store {
    ChangeAll(NotedStore(s, w), OfKind(ChangesOf(s, w, folder, AllKeys(s, w)), Button))
  }

  /** The file of the pages has what is in memory. */
  ghost predicate InStep(v: Device) {
    v.file == PagesOf(v.store)
  }

  /** The state of a run that a device started on `folder` with cleaned store `s`, somewhere before
      it stops: the folder is now `shared`, the device is now `v`, and the PUTs for the keys `lost` were
      refused. */
  ghost predicate UnderwayAt(folder: Folder, s: Store, w: Winners, lost: set<Key>, shared: Folder, v: Device)
    requires forall k <- w :: w[k] in folder
  {
    var all := AllKeys(s, w);
    match v.proc
    case Idle => false
    case Syncing(snap, w', todo, got, dels) =>
      && snap == s && w' == w && todo <= all && lost !! todo && dels == Deletes(folder.Keys, s, w)
      && shared == folder + DocsOf(s, w, all - todo - lost)
      && v.store == s.(tombs := s.tombs + TombsOf(s, w, all - todo))
      && got == ChangesOf(s, w, folder, all - todo)
    case Halfway(got, dels) =>
      && dels == Deletes(folder.Keys, s, w)
      && shared == folder + DocsOf(s, w, all - lost)
      && v.store == HalfStore(s, w, folder)
      && got == OfKind(ChangesOf(s, w, folder, all), Page)
    case Stored(dels) =>
      && dels == Deletes(folder.Keys, s, w) && shared == folder + DocsOf(s, w, all - lost) &&
        v.store == Applied(s, w, folder)
      && InStep(v)
    case Reading(pages, dels) =>
      && dels == Deletes(folder.Keys, s, w) && shared == folder + DocsOf(s, w, all - lost) &&
        v.store == Applied(s, w, folder)
      && (pages == map[] || pages == PagesOf(v.store))
    case Deleting(dels) =>
      && dels <= Deletes(folder.Keys, s, w)
      && shared == (folder + DocsOf(s, w, all - lost)) - (Deletes(folder.Keys, s, w) - dels)
      && v.store == Applied(s, w, folder)
  }

  ghost predicate Underway(folder: Folder, s: Store, w: Winners, lost: set<Key>, d: nat, y: Sys) {
    && d < |y.devs| && (forall k <- w :: w[k] in folder) && (forall k <- lost :: k in Known(s) && Pushes(s, w, k))
    && UnderwayAt(folder, s, w, lost, y.folder, y.devs[d])
  }

  /** The folder after all PUTs, but for the refused ones, and all DELETEs. */
  function SyncedBut(folder: Folder, s: Store, w: Winners, lost: set<Key>): Folder {
    (folder + DocsOf(s, w, AllKeys(s, w) - lost)) - Deletes(folder.Keys, s, w)
  }

  lemma {:induction false} DocsStep(files: set<RemoteFile>, s: Store, w: Winners, now: int, done: set<Key>, k: Key)
    requires Picks(w, files, now)
    ensures DocsOf(s, w, done + {k}) ==
            if Pushes(s, w, k) && k in Known(s) then DocsOf(s, w, done)[UploadName(s, k) := UploadBody(s, k)]
            else DocsOf(s, w, done)
  {
    forall g | g in Uploads(s, w) && g.key == k
      ensures Pushes(s, w, k) && k in Known(s) && g == UploadName(s, k)
    {
      KeptOfKey(s, w, files, now, g);
    }
    if Pushes(s, w, k) && k in Known(s) {
      assert UploadName(s, k) in Uploads(s, w);
    }
  }

  lemma {:induction false} TombsStep(s: Store, w: Winners, done: set<Key>, k: Key)
    ensures s.tombs + TombsOf(s, w, done + {k}) ==
            if Pulls(s, w, k) && k in w && w[k].deleted then (s.tombs + TombsOf(s, w, done))[k := w[k].ts]
            else s.tombs + TombsOf(s, w, done)
  {
  }

  lemma {:induction false} ChangesStep(s: Store, w: Winners, folder: Folder, done: set<Key>, k: Key)
    requires forall x <- w :: w[x] in folder
    ensures ChangesOf(s, w, folder, done + {k}) ==
            if Pulls(s, w, k) && k in w then ChangesOf(s, w, folder, done)[k := ChangeOf(w, folder, k)]
            else ChangesOf(s, w, folder, done)
  {
  }

  lemma {:induction false} TreatEffect(y: Sys, d: nat, k: Key)
    requires d < |y.devs| && y.devs[d].proc.Syncing? && CanPull(y, y.devs[d].proc, k)
    ensures var y' := TreatKey(y, d, k);
            var v := y.devs[d];
            var v' := y'.devs[d];
            var s := v.proc.snap;
            var w := v.proc.w;
            && |y'.devs| == |y.devs|
            && y'.folder == (if Pushes(s, w, k) && k in Known(s) then y.folder[UploadName(s, k) := UploadBody(s, k)]
                             else y.folder)
            && v'.store == (if Pulls(s, w, k) && k in w && w[k].deleted then
                              v.store.(tombs := v.store.tombs[k := w[k].ts])
                            else v.store)
            && v'.proc == Syncing(s, w, v.proc.todo - {k},
                                  if Pulls(s, w, k) && k in w then v.proc.got[k := ChangeOf(w, y.folder, k)]
                                  else v.proc.got,
                                  v.proc.dels)
  {
  }

  lemma {:induction false} TreatFolder(folder: Folder, s: Store, w: Winners, now: int, done: set<Key>, k: Key)
    requires Picks(w, folder.Keys, now)
    ensures folder + DocsOf(s, w, done + {k}) ==
            if Pushes(s, w, k) && k in Known(s) then (folder + DocsOf(s, w, done))[UploadName(s, k) := UploadBody(s, k)]
            else folder + DocsOf(s, w, done)
  {
    DocsStep(folder.Keys, s, w, now, done, k);
  }

  lemma {:induction false} TreatChanges(folder: Folder, s: Store, w: Winners, now: int, done: set<Key>, k: Key,
                                        shared: Folder, stored: set<Key>)
    requires Picks(w, folder.Keys, now) && s == Cleaned(s, now)
    requires shared == folder + DocsOf(s, w, stored)
    ensures k in w ==> w[k] in folder && w[k] in shared
    ensures ChangesOf(s, w, folder, done + {k}) ==
            if Pulls(s, w, k) && k in w then ChangesOf(s, w, folder, done)[k := ChangeOf(w, shared, k)]
            else ChangesOf(s, w, folder, done)
  {
    ChangesStep(s, w, folder, done, k);
    if k in w {
      KeptBody(folder, s, w, now, stored, k);
    }
  }

  lemma {:induction false} TreatUnderway(folder: Folder, s: Store, w: Winners, now: int, lost: set<Key>, d: nat, y: Sys,
                                         k: Key)
    requires Picks(w, folder.Keys, now) && s == Cleaned(s, now)
    requires Underway(folder, s, w, lost, d, y) && y.devs[d].proc.Syncing? && k in y.devs[d].proc.todo
    requires CanPull(y, y.devs[d].proc, k)
    ensures Underway(folder, s, w, lost, d, TreatKey(y, d, k))
  {
    TreatEffect(y, d, k);
    var done := AllKeys(s, w) - y.devs[d].proc.todo;
    var y' := TreatKey(y, d, k);
    var v' := y'.devs[d];
    assert AllKeys(s, w) - v'.proc.todo == done + {k};
    assert AllKeys(s, w) - v'.proc.todo - lost == (done - lost) + {k};
    TreatFolder(folder, s, w, now, done - lost, k);
    TombsStep(s, w, done, k);
    TreatChanges(folder, s, w, now, done, k, y.folder, done - lost);
    assert UnderwayAt(folder, s, w, lost, y'.folder, v');
  }

  lemma {:induction false} RefuseUnderway(truth: Truth, folder: Folder, s: Store, w: Winners, lost: set<Key>, d: nat,
                                          y: Sys, k: Key)
    requires Underway(folder, s, w, lost, d, y) && Enabled(truth, y, Refuse(d, k))
    ensures Underway(folder, s, w, lost + {k}, d, Do(truth, y, Refuse(d, k)))
  {
    var p := y.devs[d].proc;
    var p' := Do(truth, y, Refuse(d, k)).devs[d].proc;
    var all := AllKeys(s, w);
    assert all - p'.todo == (all - p.todo) + {k};
    assert all - p'.todo - (lost + {k}) == all - p.todo - lost;
    TombsStep(s, w, all - p.todo, k);
    ChangesStep(s, w, folder, all - p.todo, k);
  }

  /** Uploads do not touch the files that are still to be downloaded. */
  lemma {:induction false} KeptBody(folder: Folder, s: Store, w: Winners, now: int, done: set<Key>, k: Key)
    requires Picks(w, folder.Keys, now) && s == Cleaned(s, now)
    requires k in w
    ensures w[k] in folder && (folder + DocsOf(s, w, done))[w[k]] == folder[w[k]]
  {
    if w[k] in DocsOf(s, w, done) {
      KeptOfKey(s, w, folder.Keys, now, w[k]);
    }
  }

  lemma {:induction false} AllChangesActive(s: Store, w: Winners, folder: Folder, tombs: map<Key, nat>)
    requires forall x <- w :: w[x] in folder
    ensures ChangeAll(s.(tombs := tombs), ChangesOf(s, w, folder, AllKeys(s, w))).active == Applied(s, w, folder).active
  {
    var got := ChangesOf(s, w, folder, AllKeys(s, w));
    var a, b := ChangeAll(s.(tombs := tombs), got).active, Applied(s, w, folder).active;
    forall k
      ensures k in a <==> k in b
      ensures k in a ==> a[k] == b[k]
    {
      assert k in got <==> k in w && Pulls(s, w, k);
      assert k in got ==> got[k] == ChangeOf(w, folder, k);
    }
  }

  lemma {:induction false} AllChangesTombs(s: Store, w: Winners, folder: Folder)
    requires forall x <- w :: w[x] in folder
    ensures var all := AllKeys(s, w);
            ChangeAll(s.(tombs := s.tombs + TombsOf(s, w, all)), ChangesOf(s, w, folder, all)).tombs ==
              Applied(s, w, folder).tombs
  {
    var all := AllKeys(s, w);
    var got := ChangesOf(s, w, folder, all);
    var a, b := ChangeAll(s.(tombs := s.tombs + TombsOf(s, w, all)), got).tombs, Applied(s, w, folder).tombs;
    forall k
      ensures k in a <==> k in b
      ensures k in a ==> a[k] == b[k]
    {
      assert k in got <==> k in w && Pulls(s, w, k);
      assert k in got ==> got[k] == ChangeOf(w, folder, k);
    }
  }

  /** Applying all recorded changes is `Applied`. */
  lemma {:induction false} AllChanges(s: Store, w: Winners, folder: Folder)
    requires forall x <- w :: w[x] in folder
    ensures ChangeAll(NotedStore(s, w), ChangesOf(s, w, folder, AllKeys(s, w))) == Applied(s, w, folder)
  {
    AllChangesActive(s, w, folder, s.tombs + TombsOf(s, w, AllKeys(s, w)));
    AllChangesTombs(s, w, folder);
  }

  /** What the local change makes of one key. */
  lemma {:induction false} ChangeAllAt(t: Store, got: map<Key, Change>, k: Key)
    ensures var a := ChangeAll(t, got);
      && (k in a.active <==> if k in got then got[k].Replace? else k in t.active)
      && (k in a.active ==> a.active[k] == if k in got then got[k].item else t.active[k])
      && (k in a.tombs <==> k in t.tombs || Erases(t, got, k))
      && (k in a.tombs ==> a.tombs[k] == if Erases(t, got, k) then got[k].ts else t.tombs[k])
  {
  }

  ghost predicate SameAt(a: Store, b: Store, k: Key) {
    && (k in a.active <==> k in b.active) && (k in a.tombs <==> k in b.tombs)
    && (k in a.active ==> a.active[k] == b.active[k]) && (k in a.tombs ==> a.tombs[k] == b.tombs[k])
  }

  lemma {:induction false} SameEverywhere(a: Store, b: Store)
    requires forall k :: SameAt(a, b, k)
    ensures a == b
  {
    forall k
      ensures (k in a.active <==> k in b.active) && (k in a.tombs <==> k in b.tombs)
      ensures (k in a.active ==> a.active[k] == b.active[k]) && (k in a.tombs ==> a.tombs[k] == b.tombs[k])
    {
      assert SameAt(a, b, k);
    }
    assert a.active == b.active;
    assert a.tombs == b.tombs;
  }

  lemma {:induction false} TwoKindsAt(t: Store, got: map<Key, Change>, k: Key)
    ensures SameAt(ChangeAll(ChangeAll(t, OfKind(got, Button)), OfKind(got, Page)), ChangeAll(t, got), k)
  {
    ChangeAllAt(t, got, k);
    ChangeAllAt(t, OfKind(got, Button), k);
    ChangeAllAt(ChangeAll(t, OfKind(got, Button)), OfKind(got, Page), k);
    assert k.kind == Button || k.kind == Page;
  }

  /** The buttons first and the pages then is all at once. */
  lemma {:induction false} TwoKinds(t: Store, got: map<Key, Change>)
    ensures ChangeAll(ChangeAll(t, OfKind(got, Button)), OfKind(got, Page)) == ChangeAll(t, got)
  {
    forall k: Key ensures SameAt(ChangeAll(ChangeAll(t, OfKind(got, Button)), OfKind(got, Page)), ChangeAll(t, got), k) {
      TwoKindsAt(t, got, k);
    }
    SameEverywhere(ChangeAll(ChangeAll(t, OfKind(got, Button)), OfKind(got, Page)), ChangeAll(t, got));
  }

  lemma {:induction false} HalfThenAll(s: Store, w: Winners, folder: Folder)
    requires forall x <- w :: w[x] in folder
    ensures ChangeAll(HalfStore(s, w, folder), OfKind(ChangesOf(s, w, folder, AllKeys(s, w)), Page)) ==
        Applied(s, w, folder)
  {
    TwoKinds(NotedStore(s, w), ChangesOf(s, w, folder, AllKeys(s, w)));
    AllChanges(s, w, folder);
  }

  lemma {:induction false} ButtonsUnderway(truth: Truth, folder: Folder, s: Store, w: Winners, lost: set<Key>, d: nat,
                                           y: Sys)
    requires Underway(folder, s, w, lost, d, y) && Enabled(truth, y, ApplyButtons(d))
    ensures Underway(folder, s, w, lost, d, Do(truth, y, ApplyButtons(d)))
  {
    var all := AllKeys(s, w);
    assert all - {} == all;
  }

  lemma {:induction false} NoChange(t: Store)
    ensures ChangeAll(t, map[]) == t
  {
    forall k: Key ensures SameAt(ChangeAll(t, map[]), t, k) {
      ChangeAllAt(t, map[], k);
    }
    SameEverywhere(ChangeAll(t, map[]), t);
  }

  lemma {:induction false} SamePages(t: Store)
    ensures WithPages(t, PagesOf(t)) == t
  {
    assert WithPages(t, PagesOf(t)).active == t.active;
  }

  lemma {:induction false} WrittenPages(s: Store, w: Winners, folder: Folder, v: Device)
    requires (forall x <- w :: w[x] in folder) && v.proc.Halfway? && v.store == HalfStore(s, w, folder)
    requires v.proc.got == OfKind(ChangesOf(s, w, folder, AllKeys(s, w)), Page)
    ensures PagesApplied(v).store == Applied(s, w, folder)
  {
    HalfThenAll(s, w, folder);
    NoChange(v.store);
  }

  lemma {:induction false} PagesUnderway(truth: Truth, folder: Folder, s: Store, w: Winners, lost: set<Key>, d: nat,
                                         y: Sys)
    requires Underway(folder, s, w, lost, d, y) && Enabled(truth, y, ApplyPages(d))
    ensures Underway(folder, s, w, lost, d, Do(truth, y, ApplyPages(d)))
  {
    var v := y.devs[d];
    WrittenPages(s, w, folder, v);
    assert v.proc.dels - v.proc.dels == {};
    assert y.folder - {} == y.folder;
    assert UnderwayAt(folder, s, w, lost, y.folder, PagesApplied(v));
  }

  lemma {:induction false} ReadUnderway(truth: Truth, folder: Folder, s: Store, w: Winners, lost: set<Key>, d: nat,
                                        y: Sys, ok: bool)
    requires Underway(folder, s, w, lost, d, y) && Enabled(truth, y, ReadBack(d, ok))
    ensures Underway(folder, s, w, lost, d, Do(truth, y, ReadBack(d, ok)))
  {
  }

  lemma {:induction false} PutUnderway(truth: Truth, folder: Folder, s: Store, w: Winners, lost: set<Key>, d: nat,
                                       y: Sys)
    requires Underway(folder, s, w, lost, d, y) && Enabled(truth, y, PutBack(d))
    ensures Underway(folder, s, w, lost, d, Do(truth, y, PutBack(d)))
  {
    var v := y.devs[d];
    SamePages(v.store);
    assert PagesPut(v).store == v.store;
    assert v.proc.dels - v.proc.dels == {};
    assert y.folder - {} == y.folder;
  }

  lemma {:induction false} DeleteUnderway(truth: Truth, folder: Folder, s: Store, w: Winners, lost: set<Key>, d: nat,
                                          y: Sys, f: RemoteFile)
    requires Underway(folder, s, w, lost, d, y) && Enabled(truth, y, Delete(d, f))
    ensures Underway(folder, s, w, lost, d, Do(truth, y, Delete(d, f)))
  {
    var y' := Do(truth, y, Delete(d, f));
    var all := Deletes(folder.Keys, s, w);
    var dels := y.devs[d].proc.dels;
    assert all - y'.devs[d].proc.dels == (all - dels) + {f};
    assert y'.folder == (folder + DocsOf(s, w, AllKeys(s, w) - lost)) - (all - y'.devs[d].proc.dels);
  }

  /** Only device `d` acts, and it does not stop. */
  ghost predicate Solo(d: nat, acts: seq<Act>) {
    forall a <- acts :: a.d == d && !a.Begin? && !a.Stop? && !a.Restart? && !a.Save? && !a.Remove?
  }

  function RefusedIn(acts: seq<Act>): set<Key> {
    if acts == [] then {} else (if acts[0].Refuse? then {acts[0].k} else {}) + RefusedIn(acts[1..])
  }

  lemma {:induction false} StepUnderway(truth: Truth, folder: Folder, s: Store, w: Winners, now: int, lost: set<Key>,
                                        d: nat, y: Sys, a: Act)
    requires Picks(w, folder.Keys, now) && s == Cleaned(s, now)
    requires Underway(folder, s, w, lost, d, y) && Solo(d, [a]) && Enabled(truth, y, a)
    ensures Underway(folder, s, w, lost + (if a.Refuse? then {a.k} else {}), d, Do(truth, y, a))
  {
    assert a in [a];
    assert lost + {} == lost;
    match a {
      case Treat(_, k) => TreatUnderway(folder, s, w, now, lost, d, y, k);
      case Refuse(_, k) => RefuseUnderway(truth, folder, s, w, lost, d, y, k);
      case ApplyButtons(_) => ButtonsUnderway(truth, folder, s, w, lost, d, y);
      case ApplyPages(_) => PagesUnderway(truth, folder, s, w, lost, d, y);
      case ReadBack(_, ok) => ReadUnderway(truth, folder, s, w, lost, d, y, ok);
      case PutBack(_) => PutUnderway(truth, folder, s, w, lost, d, y);
      case Delete(_, f) => DeleteUnderway(truth, folder, s, w, lost, d, y, f);
    }
  }

  /** In step, and what was read back still is. */
  ghost predicate AllInStep(v: Device) {
    InStep(v) && (v.proc.Reading? ==> v.proc.pages == map[] || v.proc.pages == v.file)
  }

  /** Undisturbed, memory and file stay in step. */
  lemma {:induction false} StepInStep(truth: Truth, d: nat, y: Sys, a: Act)
    requires d < |y.devs| && AllInStep(y.devs[d]) && Solo(d, [a]) && Enabled(truth, y, a)
    ensures d < |Do(truth, y, a).devs| && AllInStep(Do(truth, y, a).devs[d])
  {
    assert a in [a];
    if a.Treat? {
      TreatInStep(y, d, a.k);
    } else if a.ApplyButtons? {
      var v := y.devs[d];
      ButtonsInStep(v.store, OfKind(v.proc.got, Button));
    } else if a.ApplyPages? {
      NoChange(y.devs[d].store);
    } else if a.PutBack? {
      SamePages(y.devs[d].store);
    }
  }

  lemma {:induction false} TreatInStep(y: Sys, d: nat, k: Key)
    requires d < |y.devs| && y.devs[d].proc.Syncing? && CanPull(y, y.devs[d].proc, k) && InStep(y.devs[d])
    ensures |TreatKey(y, d, k).devs| == |y.devs| && AllInStep(TreatKey(y, d, k).devs[d])
  {
    var v := y.devs[d];
    TreatEffect(y, d, k);
    SameActive(v.store, TreatKey(y, d, k).devs[d].store);
  }

  lemma {:induction false} SameActive(t: Store, t': Store)
    requires t.active == t'.active
    ensures PagesOf(t) == PagesOf(t')
  {
  }

  lemma {:induction false} ButtonsInStep(t: Store, got: map<Key, Change>)
    requires forall k <- got :: k.kind == Button
    ensures PagesOf(ChangeAll(t, got)) == PagesOf(t)
  {
    forall k: Key | k.kind == Page
      ensures k in ChangeAll(t, got).active <==> k in t.active
      ensures k in t.active ==> ChangeAll(t, got).active[k] == t.active[k]
    {
      ChangeAllAt(t, got, k);
    }
  }

  /** So a crash and a start during an undisturbed run change nothing in the store. */
  lemma {:induction false} RestartSame(truth: Truth, y: Sys, d: nat, acts: seq<Act>)
    requires d < |y.devs| && AllInStep(y.devs[d]) && Solo(d, acts) && CanDo(truth, y, acts)
    ensures var end := After(truth, y, acts);
      d < |end.devs| && AllInStep(end.devs[d]) && Do(truth, end, Restart(d)).devs[d].store == end.devs[d].store
    decreases |acts|
  {
    if acts == [] {
      SamePages(y.devs[d].store);
    } else {
      assert acts[0] in acts && Solo(d, [acts[0]]);
      StepInStep(truth, d, y, acts[0]);
      RestartSame(truth, Do(truth, y, acts[0]), d, acts[1..]);
    }
  }

  lemma {:induction false} SoloUnderway(truth: Truth, folder: Folder, s: Store, w: Winners, now: int, lost: set<Key>,
                                        d: nat, y: Sys, acts: seq<Act>)
    requires Picks(w, folder.Keys, now) && s == Cleaned(s, now)
    requires Underway(folder, s, w, lost, d, y) && Solo(d, acts) && CanDo(truth, y, acts)
    ensures Underway(folder, s, w, lost + RefusedIn(acts), d, After(truth, y, acts))
    decreases |acts|
  {
    if acts == [] {
      assert lost + {} == lost;
    } else {
      var first := if acts[0].Refuse? then {acts[0].k} else {};
      assert acts[0] in acts && Solo(d, [acts[0]]);
      StepUnderway(truth, folder, s, w, now, lost, d, y, acts[0]);
      SoloUnderway(truth, folder, s, w, now, lost + first, d, Do(truth, y, acts[0]), acts[1..]);
      assert lost + first + RefusedIn(acts[1..]) == lost + RefusedIn(acts);
    }
  }

  lemma {:induction false} BeginUnderway(truth: Truth, y: Sys, d: nat, now: int, w: Winners)
    requires Enabled(truth, y, Begin(d, now, y.folder.Keys, w))
    ensures Underway(y.folder, Cleaned(y.devs[d].store, now), w, {}, d, Do(truth, y, Begin(d, now, y.folder.Keys, w)))
    ensures InStep(y.devs[d]) ==> InStep(Do(truth, y, Begin(d, now, y.folder.Keys, w)).devs[d])
  {
    var s := Cleaned(y.devs[d].store, now);
    assert AllKeys(s, w) - AllKeys(s, w) - {} == AllKeys(s, w) - AllKeys(s, w) == {};
    assert y.folder + DocsOf(s, w, {}) == y.folder;
    assert s.tombs + TombsOf(s, w, {}) == s.tombs;
    assert ChangesOf(s, w, y.folder, {}) == map[];
    SameActive(y.devs[d].store, s);
  }

  lemma {:induction false} Finished(folder: Folder, s: Store, w: Winners, lost: set<Key>, d: nat, y: Sys)
    requires Underway(folder, s, w, lost, d, y) && y.devs[d].proc == Deleting({})
    ensures y.folder == SyncedBut(folder, s, w, lost) && y.devs[d].store == Applied(s, w, folder)
  {
    assert Deletes(folder.Keys, s, w) - {} == Deletes(folder.Keys, s, w);
  }

  lemma {:induction false} NothingRefused(folder: Folder, s: Store, w: Winners)
    ensures SyncedBut(folder, s, w, {}) == Synced(folder, s, w)
  {
    assert AllKeys(s, w) - {} == AllKeys(s, w);
    assert DocsOf(s, w, AllKeys(s, w)) == UploadDocs(s, w);
  }

  /** A device that runs undisturbed, treating the keys and deleting the files in whatever order,
      until nothing is left to do, has done exactly `Synced`, save for the refused uploads, and
      `Applied`. */
  lemma {:induction false} CompleteRun(truth: Truth, y: Sys, d: nat, now: int, w: Winners, acts: seq<Act>)
    requires Enabled(truth, y, Begin(d, now, y.folder.Keys, w)) && Solo(d, acts)
    requires CanDo(truth, Do(truth, y, Begin(d, now, y.folder.Keys, w)), acts)
    requires d < |After(truth, Do(truth, y, Begin(d, now, y.folder.Keys, w)), acts).devs|
    requires After(truth, Do(truth, y, Begin(d, now, y.folder.Keys, w)), acts).devs[d].proc == Deleting({})
    ensures var s := Cleaned(y.devs[d].store, now);
            var end := After(truth, Do(truth, y, Begin(d, now, y.folder.Keys, w)), acts);
            && (forall k <- RefusedIn(acts) :: k in Known(s) && Pushes(s, w, k))
            && end.folder == SyncedBut(y.folder, s, w, RefusedIn(acts))
            && (RefusedIn(acts) == {} ==> end.folder == Synced(y.folder, s, w))
            && end.devs[d].store == Applied(s, w, y.folder)
  {
    var s := Cleaned(y.devs[d].store, now);
    var first := Do(truth, y, Begin(d, now, y.folder.Keys, w));
    CleanedTwice(y.devs[d].store, now);
    BeginUnderway(truth, y, d, now, w);
    SoloUnderway(truth, y.folder, s, w, now, {}, d, first, acts);
    assert {} + RefusedIn(acts) == RefusedIn(acts);
    Finished(y.folder, s, w, RefusedIn(acts), d, After(truth, first, acts));
    NothingRefused(y.folder, s, w);
  }

  // ---- Stopping anywhere and running again ----

  /** While all keys are treated, and once the buttons are written, the device's time for a key is the
      old one or the winner's. */
  lemma {:induction false} NotedTS(s: Store, w: Winners, done: set<Key>, k: Key)
    requires forall x <- w :: w[x].key == x
    ensures var t := LocalTS(s.(tombs := s.tombs + TombsOf(s, w, done)), k);
      t == LocalTS(s, k) || (Pulls(s, w, k) && t == RemoteTS(w, k))
  {
  }

  lemma {:induction false} HalfTS(s: Store, w: Winners, folder: Folder, k: Key)
    requires (forall x <- w :: w[x] in folder && w[x].key == x) && forall x <- s.tombs :: x !in s.active
    ensures var t := LocalTS(HalfStore(s, w, folder), k);
      t == LocalTS(s, k) || (Pulls(s, w, k) && t == RemoteTS(w, k))
  {
    var all := AllKeys(s, w);
    var got := OfKind(ChangesOf(s, w, folder, all), Button);
    NotedTS(s, w, all, k);
    if k in got {
      assert got[k] == ChangeOf(w, folder, k);
    } else {
      assert k in HalfStore(s, w, folder).active <==> k in s.active;
    }
  }

  lemma {:induction false} StoppedTS(folder: Folder, s: Store, w: Winners, now: int, lost: set<Key>, d: nat, y: Sys,
                                     k: Key)
    requires Picks(w, folder.Keys, now) && s == Cleaned(s, now)
    requires Underway(folder, s, w, lost, d, y)
    ensures var t := LocalTS(y.devs[d].store, k);
      t == LocalTS(s, k) || (Pulls(s, w, k) && t == RemoteTS(w, k))
  {
    CleanedTwice(s, now);
    match y.devs[d].proc {
      case Syncing(_, _, todo, _, _) => NotedTS(s, w, AllKeys(s, w) - todo, k);
      case Halfway(_, _) => HalfTS(s, w, folder, k);
      case Deleting(_) => AppliedTS(s, w, folder, k);
      case Stored(_) => AppliedTS(s, w, folder, k);
      case Reading(_, _) => AppliedTS(s, w, folder, k);
    }
  }

  /** Old files, uploads, and the winners to keep. */
  ghost predicate Left(folder: Folder, s: Store, w: Winners, shared: Folder) {
    && (forall f <- shared :: f in folder || f in Uploads(s, w))
    && (forall f <- shared :: f in Uploads(s, w) && f !in folder ==> f.key in Known(s) && shared[f] == UploadBody(s, f.key))
    && (forall f <- shared :: f !in Uploads(s, w) ==> shared[f] == folder[f])
    && (forall f <- Kept(s, w) :: f in shared)
  }

  lemma {:induction false} LeftBy(folder: Folder, s: Store, w: Winners, stored: set<Key>, gone: set<RemoteFile>)
    requires (forall k <- w :: w[k] in folder) && gone <= Deletes(folder.Keys, s, w)
    ensures Left(folder, s, w, (folder + DocsOf(s, w, stored)) - gone)
  {
    forall f | f in Kept(s, w) ensures f in folder && f !in gone {
      var k :| k in w && !Pushes(s, w, k) && f == w[k];
    }
  }

  /** The folder during a run: some uploads more, some files less. */
  lemma {:induction false} SharedIs(folder: Folder, s: Store, w: Winners, lost: set<Key>, shared: Folder, v: Device)
    returns (stored: set<Key>, gone: set<RemoteFile>)
    requires (forall k <- w :: w[k] in folder) && UnderwayAt(folder, s, w, lost, shared, v)
    ensures shared == (folder + DocsOf(s, w, stored)) - gone && gone <= Deletes(folder.Keys, s, w)
  {
    stored, gone := AllKeys(s, w) - lost, {};
    if v.proc.Syncing? {
      stored := AllKeys(s, w) - v.proc.todo - lost;
    } else if v.proc.Deleting? {
      gone := Deletes(folder.Keys, s, w) - v.proc.dels;
    }
    assert shared - {} == shared;
  }

  lemma {:induction false} StoppedFiles(folder: Folder, s: Store, w: Winners, lost: set<Key>, d: nat, y: Sys)
    requires Underway(folder, s, w, lost, d, y)
    ensures Left(folder, s, w, y.folder)
  {
    var stored, gone := SharedIs(folder, s, w, lost, y.folder, y.devs[d]);
    LeftBy(folder, s, w, stored, gone);
  }

  /** `StoppedNewest` below, for a folder without expired files. */
  lemma {:induction false} RecentNewest(folder: Folder, s: Store, w: Winners, now: int, lost: set<Key>, d: nat, y: Sys,
                                         k: Key, m: int)
    requires Picks(w, folder.Keys, now) && s == Cleaned(s, now) && FolderRecent(folder.Keys, now)
    requires Underway(folder, s, w, lost, d, y)
    requires Newest(World(folder, [s]), k, m)
    ensures Newest(World(y.folder, [y.devs[d].store]), k, m)
  {
    var before := World(folder, [s]);
    var after := World(y.folder, [y.devs[d].store]);
    assert LocalTS(before.stores[0], k) <= m;
    StoppedTS(folder, s, w, now, lost, d, y, k);
    StoppedFiles(folder, s, w, lost, d, y);
    NewestWinner(folder, s, w, now, k, m);
    forall f | f in y.folder.Keys && f.key == k ensures f.ts <= m {
      if f !in folder {
        KeptOfKey(s, w, folder.Keys, now, f);
      }
    }
    assert LocalTS(after.stores[0], k) <= m;
    if m >= 0 {
      if Pushes(s, w, k) {
        assert OnDevice(after, k, m) by {
          assert LocalTS(after.stores[0], k) == m;
        }
      } else {
        assert w[k] in y.folder && InFolder(after, k, m);
      }
    }
  }

  /** The newest copy is the one the device will upload, or else the winner that is kept. */
  lemma {:induction false} NewestWinner(folder: Folder, s: Store, w: Winners, now: int, k: Key, m: int)
    requires Picks(w, folder.Keys, now) && FolderRecent(folder.Keys, now)
    requires Newest(World(folder, [s]), k, m)
    ensures RemoteTS(w, k) <= m
    ensures m >= 0 && Pushes(s, w, k) ==> LocalTS(s, k) == m
    ensures m >= 0 && !Pushes(s, w, k) ==> k in w && w[k].ts == m && w[k].key == k && w[k] in Kept(s, w)
  {
    var v := World(folder, [s]);
    assert LocalTS(v.stores[0], k) <= m;
    if m >= 0 && InFolder(v, k, m) {
      var f :| f in folder.Keys && f.key == k && f.ts == m;
      assert !Expired(f, now);
    } else if m >= 0 {
      var i :| 0 <= i < |v.stores| && LocalTS(v.stores[i], k) == m;
      assert i == 0;
    }
  }

  /** One complete run of the only device: folder and device both show the newest copy. */
  lemma {:induction false} SingleRun(truth: Truth, folder: Folder, s0: Store, now: int, w: Winners, k: Key, m: int)
    requires StoreOk(truth, s0) && FolderOk(truth, folder)
    requires StoreRecent(s0, now) && FolderRecent(folder.Keys, now)
    requires Picks(w, folder.Keys, now) && Newest(World(folder, [s0]), k, m)
    ensures var s := Cleaned(s0, now);
            && FolderShows(truth, Synced(folder, s, w), k, m)
            && Shows(truth, Cleaned(Applied(s, w, folder), now), k, m)
            && StoreOk(truth, Cleaned(Applied(s, w, folder), now))
  {
    var s := Cleaned(s0, now);
    var v := World(folder, [s0]);
    var e := Event(0, now, w);
    CleanedTwice(s0, now);
    StepOk(truth, v, e);
    StepKey(v, e, k, m, now);
    var v' := Step(v, e);
    assert v'.stores[0] == Applied(s, w, folder) && LocalTS(v.stores[0], k) <= m && LocalTS(v'.stores[0], k) <= m;
    CleanedApplied(s, w, folder, now, k);
    CleanedRecent(s0, now, now, k);
    AppliedTS(s, w, folder, k);
    SyncedKey(folder, s, w, now, k);
    TSDetermines(truth, Cleaned(Applied(s, w, folder), now), k, m);
    if m >= 0 {
      var f := Survivor(s, w, k);
      assert FileOk(truth, f, Synced(folder, s, w)[f]);
    }
  }

  /** The copies a stopped run leaves are genuine, and its tombstones recent. */
  lemma {:induction false} StoppedFolderOk(truth: Truth, folder: Folder, s: Store, w: Winners, now: int, horizon: int,
                                           lost: set<Key>, d: nat, y: Sys)
    requires Picks(w, folder.Keys, now) && s == Cleaned(s, now)
    requires StoreOk(truth, s) && FolderOk(truth, folder)
    requires StoreRecent(s, horizon) && FolderRecent(folder.Keys, horizon)
    requires Underway(folder, s, w, lost, d, y)
    ensures FolderOk(truth, y.folder) && FolderRecent(y.folder.Keys, horizon)
  {
    StoppedFiles(folder, s, w, lost, d, y);
    forall f | f in y.folder
      ensures FileOk(truth, f, y.folder[f]) && !Expired(f, horizon)
    {
      if f in Uploads(s, w) {
        KeptOfKey(s, w, folder.Keys, now, f);
        UploadIsNew(folder.Keys, s, w, now, f.key);
        assert y.folder[f] == UploadBody(s, f.key);
      } else {
        assert FileOk(truth, f, folder[f]);
      }
    }
  }

  /** Genuine copies in the folder make genuine changes. */
  lemma {:induction false} ChangesOk(truth: Truth, folder: Folder, s: Store, w: Winners, horizon: int, done: set<Key>)
    requires forall k <- w :: w[k] in folder && w[k].key == k
    requires FolderOk(truth, folder) && FolderRecent(folder.Keys, horizon)
    ensures forall k <- ChangesOf(s, w, folder, done) :: ChangeOk(truth, k, ChangesOf(s, w, folder, done)[k])
    ensures forall k <- TombsOf(s, w, done) :: truth(k, w[k].ts) == Dead && horizon - w[k].ts <= MAX_AGE
  {
    forall k | k in w ensures FileOk(truth, w[k], folder[w[k]]) && !Expired(w[k], horizon) {
    }
  }

  lemma {:induction false} NotedOk(truth: Truth, folder: Folder, s: Store, w: Winners, horizon: int, done: set<Key>)
    requires forall k <- w :: w[k] in folder && w[k].key == k
    requires FolderOk(truth, folder) && FolderRecent(folder.Keys, horizon)
    requires StoreOk(truth, s) && StoreRecent(s, horizon)
    ensures var t := s.(tombs := s.tombs + TombsOf(s, w, done)); StoreOk(truth, t) && StoreRecent(t, horizon)
  {
    ChangesOk(truth, folder, s, w, horizon, done);
  }

  lemma {:induction false} HalfOk(truth: Truth, folder: Folder, s: Store, w: Winners, horizon: int)
    requires forall k <- w :: w[k] in folder && w[k].key == k
    requires FolderOk(truth, folder) && FolderRecent(folder.Keys, horizon)
    requires StoreOk(truth, s) && StoreRecent(s, horizon)
    ensures StoreOk(truth, HalfStore(s, w, folder)) && StoreRecent(HalfStore(s, w, folder), horizon)
  {
    var all := AllKeys(s, w);
    var got := OfKind(ChangesOf(s, w, folder, all), Button);
    ChangesOk(truth, folder, s, w, horizon, all);
    NotedOk(truth, folder, s, w, horizon, all);
    ChangeAllOk(truth, NotedStore(s, w), got);
    forall k | k in got && got[k].Erase? ensures horizon - got[k].ts <= MAX_AGE {
      assert k in TombsOf(s, w, all);
    }
  }

  lemma {:induction false} DoneOk(truth: Truth, folder: Folder, s: Store, w: Winners, horizon: int)
    requires forall k <- w :: w[k] in folder && w[k].key == k
    requires FolderOk(truth, folder) && FolderRecent(folder.Keys, horizon)
    requires StoreOk(truth, s) && StoreRecent(s, horizon)
    ensures StoreOk(truth, Applied(s, w, folder)) && StoreRecent(Applied(s, w, folder), horizon)
  {
    AppliedOk(truth, s, w, folder);
    AppliedRecent(s, w, folder, horizon);
  }

  lemma {:induction false} StoppedStoreOk(truth: Truth, folder: Folder, s: Store, w: Winners, now: int, horizon: int,
                                          lost: set<Key>, d: nat, y: Sys)
    requires Picks(w, folder.Keys, now)
    requires StoreOk(truth, s) && FolderOk(truth, folder)
    requires StoreRecent(s, horizon) && FolderRecent(folder.Keys, horizon)
    requires Underway(folder, s, w, lost, d, y)
    ensures StoreOk(truth, y.devs[d].store) && StoreRecent(y.devs[d].store, horizon)
  {
    match y.devs[d].proc {
      case Syncing(_, _, todo, _, _) => NotedOk(truth, folder, s, w, horizon, AllKeys(s, w) - todo);
      case Halfway(_, _) => HalfOk(truth, folder, s, w, horizon);
      case Stored(_) => DoneOk(truth, folder, s, w, horizon);
      case Reading(_, _) => DoneOk(truth, folder, s, w, horizon);
      case Deleting(_) => DoneOk(truth, folder, s, w, horizon);
    }
  }

  ghost predicate SameFiles(truth: Truth, a: Folder, b: Folder, k: Key) {
    exists m :: FolderShows(truth, a, k, m) && FolderShows(truth, b, k, m)
  }

  ghost predicate SameItem(truth: Truth, a: Store, b: Store, k: Key) {
    exists m :: Shows(truth, a, k, m) && Shows(truth, b, k, m)
  }

  lemma {:induction false} SameFolder(truth: Truth, a: Folder, b: Folder)
    requires FolderOk(truth, a) && FolderOk(truth, b)
    requires forall k :: SameFiles(truth, a, b, k)
    ensures a == b
  {
    forall f
      ensures f in a <==> f in b
      ensures f in a ==> a[f] == b[f]
    {
      if f in a || f in b {
        assert SameFiles(truth, a, b, f.key);
        var m :| FolderShows(truth, a, f.key, m) && FolderShows(truth, b, f.key, m);
        if m >= 0 {
          var fa :| OnlyFile(a.Keys, f.key, fa) && fa.ts == m && FileOk(truth, fa, a[fa]);
          var fb :| OnlyFile(b.Keys, f.key, fb) && fb.ts == m && FileOk(truth, fb, b[fb]);
          assert fa == fb;
        }
      }
    }
  }

  lemma {:induction false} SameStore(truth: Truth, a: Store, b: Store)
    requires forall k <- a.tombs :: k !in a.active
    requires forall k <- b.tombs :: k !in b.active
    requires forall k :: SameItem(truth, a, b, k)
    ensures a == b
  {
    forall k
      ensures k in a.active <==> k in b.active
      ensures k in a.tombs <==> k in b.tombs
      ensures k in a.active ==> a.active[k] == b.active[k]
      ensures k in a.tombs ==> a.tombs[k] == b.tombs[k]
    {
      assert SameItem(truth, a, b, k);
      var m :| Shows(truth, a, k, m) && Shows(truth, b, k, m);
    }
    assert a.active == b.active;
    assert a.tombs == b.tombs;
  }

  /** `ResumeAfterStop` below, for a folder and a device without expired deletions. */
  lemma {:induction false} ResumeRecent(truth: Truth, folder: Folder, s0: Store, now: int, w: Winners, lost: set<Key>,
                                           d: nat, y: Sys, now2: int, w2: Winners)
    requires StoreOk(truth, s0) && FolderOk(truth, folder)
    requires now <= now2 && StoreRecent(s0, now2) && FolderRecent(folder.Keys, now2)
    requires Picks(w, folder.Keys, now)
    requires Underway(folder, Cleaned(s0, now), w, lost, d, y)
    requires Picks(w2, y.folder.Keys, now2)
    ensures var once := Cleaned(s0, now);
            var again := Cleaned(y.devs[d].store, now2);
            && Synced(y.folder, again, w2) == Synced(folder, once, w)
            && Cleaned(Applied(again, w2, y.folder), now2) == Cleaned(Applied(once, w, folder), now2)
  {
    var once := Cleaned(s0, now);
    var again := Cleaned(y.devs[d].store, now2);
    CleanedTwice(s0, now);
    CleanedTwice(y.devs[d].store, now2);
    StoppedFolderOk(truth, folder, once, w, now, now2, lost, d, y);
    StoppedStoreOk(truth, folder, once, w, now, now2, lost, d, y);
    var a, b := Synced(folder, once, w), Synced(y.folder, again, w2);
    var sa, sb := Cleaned(Applied(once, w, folder), now2), Cleaned(Applied(again, w2, y.folder), now2);
    forall k
      ensures SameFiles(truth, a, b, k) && SameItem(truth, sa, sb, k)
    {
      var m := SameNewest(truth, folder, s0, now, w, lost, d, y, now2, w2, k);
    }
    SyncedOk(truth, once, w, folder, now);
    SyncedOk(truth, again, w2, y.folder, now2);
    SameFolder(truth, a, b);
    SameStore(truth, sa, sb);
  }

  lemma {:induction false} RunAt(truth: Truth, folder: Folder, s0: Store, now: int, horizon: int, w: Winners, k: Key,
                                 m: int)
    requires StoreOk(truth, s0) && FolderOk(truth, folder)
    requires now <= horizon && StoreRecent(s0, horizon) && FolderRecent(folder.Keys, horizon)
    requires Picks(w, folder.Keys, now) && Newest(World(folder, [s0]), k, m)
    ensures var s := Cleaned(s0, now);
            && FolderShows(truth, Synced(folder, s, w), k, m)
            && Shows(truth, Cleaned(Applied(s, w, folder), horizon), k, m)
  {
    var s := Cleaned(s0, now);
    CleanedTwice(s0, now);
    RecentEarlier(folder, s0, now, horizon);
    SingleRun(truth, folder, s0, now, w, k, m);
    AppliedRecent(s, w, folder, horizon);
    CleanedLater(Applied(s, w, folder), now, horizon);
  }

  lemma {:induction false} CleanedLater(a: Store, now: int, horizon: int)
    requires now <= horizon && StoreRecent(a, horizon)
    ensures Cleaned(a, horizon) == Cleaned(a, now)
  {
  }

  lemma {:induction false} RecentEarlier(folder: Folder, s0: Store, now: int, horizon: int)
    requires now <= horizon && StoreRecent(s0, horizon) && FolderRecent(folder.Keys, horizon)
    ensures StoreRecent(s0, now) && FolderRecent(folder.Keys, now)
  {
    forall f | f in folder.Keys ensures !Expired(f, now) {
      assert !Expired(f, horizon);
    }
  }

  lemma {:induction false} ResumeNewest(folder: Folder, s0: Store, now: int, w: Winners, lost: set<Key>, d: nat, y: Sys,
                                        k: Key) returns (m: int)
    requires StoreRecent(s0, now) && FolderRecent(folder.Keys, now)
    requires Picks(w, folder.Keys, now)
    requires Underway(folder, Cleaned(s0, now), w, lost, d, y)
    ensures Newest(World(folder, [s0]), k, m) && Newest(World(y.folder, [y.devs[d].store]), k, m)
  {
    var once := Cleaned(s0, now);
    CleanedTwice(s0, now);
    m := NewestExists(World(folder, [s0]), k);
    CleanedRecent(s0, now, now, k);
    assert LocalTS(World(folder, [s0]).stores[0], k) <= m;
    assert LocalTS(World(folder, [once]).stores[0], k) == LocalTS(s0, k);
    RecentNewest(folder, once, w, now, lost, d, y, k, m);
  }

  lemma {:induction false} SameNewest(truth: Truth, folder: Folder, s0: Store, now: int, w: Winners, lost: set<Key>,
                                      d: nat, y: Sys, now2: int, w2: Winners, k: Key)
    returns (m: int)
    requires StoreOk(truth, s0) && FolderOk(truth, folder)
    requires now <= now2 && StoreRecent(s0, now2) && FolderRecent(folder.Keys, now2)
    requires Picks(w, folder.Keys, now)
    requires Underway(folder, Cleaned(s0, now), w, lost, d, y)
    requires Picks(w2, y.folder.Keys, now2)
    ensures var once := Cleaned(s0, now);
            var again := Cleaned(y.devs[d].store, now2);
            && FolderShows(truth, Synced(folder, once, w), k, m)
            && FolderShows(truth, Synced(y.folder, again, w2), k, m)
            && Shows(truth, Cleaned(Applied(once, w, folder), now2), k, m)
            && Shows(truth, Cleaned(Applied(again, w2, y.folder), now2), k, m)
  {
    var once := Cleaned(s0, now);
    CleanedTwice(s0, now);
    RecentEarlier(folder, s0, now, now2);
    m := ResumeNewest(folder, s0, now, w, lost, d, y, k);
    StoppedFolderOk(truth, folder, once, w, now, now2, lost, d, y);
    StoppedStoreOk(truth, folder, once, w, now, now2, lost, d, y);
    RunAt(truth, folder, s0, now, now2, w, k, m);
    RunAt(truth, y.folder, y.devs[d].store, now2, now2, w2, k, m);
  }

  // ---- Expired deletions ----

  /** The folder without expired deletion markers. */
  function Fresh(folder: Folder, now: int): Folder {
    map f | f in folder && !Expired(f, now) :: folder[f]
  }

  function FreshFiles(files: set<RemoteFile>, now: int): set<RemoteFile> {
    set f | f in files && !Expired(f, now)
  }

  function FreshProc(p: Proc, now: int): Proc {
    match p
    case Idle => p
    case Syncing(snap, w, todo, got, dels) => Syncing(snap, w, todo, got, FreshFiles(dels, now))
    case Halfway(got, dels) => Halfway(got, FreshFiles(dels, now))
    case Stored(dels) => Stored(FreshFiles(dels, now))
    case Reading(pages, dels) => Reading(pages, FreshFiles(dels, now))
    case Deleting(dels) => Deleting(FreshFiles(dels, now))
  }

  /** The same state without the expired files. */
  function Pruned(y: Sys, d: nat, now: int): Sys
    requires d < |y.devs|
  {
    y.(folder := Fresh(y.folder, now), devs := y.devs[d := y.devs[d].(proc := FreshProc(y.devs[d].proc, now))])
  }

  lemma {:induction false} FreshPicks(w: Winners, folder: Folder, now: int, later: int)
    requires Picks(w, folder.Keys, later) && now <= later
    ensures Picks(w, Fresh(folder, now).Keys, later)
  {
  }

  lemma {:induction false} FreshDeletes(folder: Folder, s: Store, w: Winners, now: int)
    ensures Deletes(Fresh(folder, now).Keys, s, w) == FreshFiles(Deletes(folder.Keys, s, w), now)
  {
  }

  lemma {:induction false} FreshDocs(folder: Folder, s: Store, w: Winners, now: int, done: set<Key>)
    requires Picks(w, folder.Keys, now) && s == Cleaned(s, now)
    ensures Fresh(folder + DocsOf(s, w, done), now) == Fresh(folder, now) + DocsOf(s, w, done)
  {
    forall f | f in DocsOf(s, w, done) ensures !Expired(f, now) {
      KeptOfKey(s, w, folder.Keys, now, f);
      UploadIsNew(folder.Keys, s, w, now, f.key);
    }
  }

  lemma {:induction false} FreshWithout(shared: Folder, gone: set<RemoteFile>, now: int)
    ensures Fresh(shared - gone, now) == Fresh(shared, now) - FreshFiles(gone, now)
  {
  }

  lemma {:induction false} FreshChanges(folder: Folder, s: Store, w: Winners, now: int)
    requires Picks(w, folder.Keys, now)
    ensures forall done :: ChangesOf(s, w, Fresh(folder, now), done) == ChangesOf(s, w, folder, done)
    ensures Applied(s, w, Fresh(folder, now)) == Applied(s, w, folder)
  {
    forall done ensures ChangesOf(s, w, Fresh(folder, now), done) == ChangesOf(s, w, folder, done) {
    }
    FreshApplied(folder, s, w, now, now);
  }

  lemma {:induction false} FreshSyncing(folder: Folder, s: Store, w: Winners, now: int, lost: set<Key>,
                                        shared: Folder, v: Device)
    requires Picks(w, folder.Keys, now) && s == Cleaned(s, now) && UnderwayAt(folder, s, w, lost, shared, v)
    requires v.proc.Syncing?
    ensures forall k <- w :: w[k] in Fresh(folder, now)
    ensures UnderwayAt(Fresh(folder, now), s, w, lost, Fresh(shared, now), v.(proc := FreshProc(v.proc, now)))
  {
    FreshChanges(folder, s, w, now);
    FreshDeletes(folder, s, w, now);
    FreshDocs(folder, s, w, now, AllKeys(s, w) - v.proc.todo - lost);
  }

  lemma {:induction false} FreshDeleting(folder: Folder, s: Store, w: Winners, now: int, lost: set<Key>,
                                         shared: Folder, v: Device)
    requires Picks(w, folder.Keys, now) && s == Cleaned(s, now) && UnderwayAt(folder, s, w, lost, shared, v)
    requires v.proc.Deleting?
    ensures forall k <- w :: w[k] in Fresh(folder, now)
    ensures UnderwayAt(Fresh(folder, now), s, w, lost, Fresh(shared, now), v.(proc := FreshProc(v.proc, now)))
  {
    var all, gone := AllKeys(s, w), Deletes(folder.Keys, s, w) - v.proc.dels;
    FreshChanges(folder, s, w, now);
    FreshDeletes(folder, s, w, now);
    FreshDocs(folder, s, w, now, all - lost);
    FreshWithout(folder + DocsOf(s, w, all - lost), gone, now);
    assert FreshFiles(gone, now) == FreshFiles(Deletes(folder.Keys, s, w), now) - FreshFiles(v.proc.dels, now);
  }

  lemma {:induction false} FreshUnderwayAt(folder: Folder, s: Store, w: Winners, now: int, lost: set<Key>,
                                           shared: Folder, v: Device)
    requires Picks(w, folder.Keys, now) && s == Cleaned(s, now) && UnderwayAt(folder, s, w, lost, shared, v)
    ensures forall k <- w :: w[k] in Fresh(folder, now)
    ensures UnderwayAt(Fresh(folder, now), s, w, lost, Fresh(shared, now), v.(proc := FreshProc(v.proc, now)))
  {
    if v.proc.Syncing? {
      FreshSyncing(folder, s, w, now, lost, shared, v);
    } else if v.proc.Deleting? {
      FreshDeleting(folder, s, w, now, lost, shared, v);
    } else {
      FreshChanges(folder, s, w, now);
      FreshDeletes(folder, s, w, now);
      FreshDocs(folder, s, w, now, AllKeys(s, w) - lost);
    }
  }

  lemma {:induction false} FreshUnderway(folder: Folder, s: Store, w: Winners, now: int, lost: set<Key>, d: nat, y: Sys)
    requires Picks(w, folder.Keys, now) && s == Cleaned(s, now) && Underway(folder, s, w, lost, d, y)
    ensures Underway(Fresh(folder, now), s, w, lost, d, Pruned(y, d, now))
  {
    FreshUnderwayAt(folder, s, w, now, lost, y.folder, y.devs[d]);
  }

  /** Expired files have no part in what a run leaves. */
  lemma {:induction false} FreshSynced(folder: Folder, s: Store, w: Winners, now: int, later: int)
    requires Picks(w, folder.Keys, later) && s == Cleaned(s, later) && now <= later
    ensures Synced(Fresh(folder, now), s, w) == Synced(folder, s, w)
  {
    FreshPicks(w, folder, now, later);
    SyncedFiles(folder, s, w, later);
    SyncedFiles(Fresh(folder, now), s, w, later);
    var a, b := Synced(Fresh(folder, now), s, w), Synced(folder, s, w);
    assert a.Keys == b.Keys;
    forall f | f in a ensures a[f] == b[f] {
      assert f in Uploads(s, w) || f in Kept(s, w);
    }
  }

  /** What a stopped run leaves: still the same newest copy of every key, expired deletions aside, in the
      folder or on the device, even where an upload was refused. */
  lemma {:induction false} StoppedNewest(folder: Folder, s: Store, w: Winners, now: int, lost: set<Key>, d: nat, y: Sys,
                                         k: Key, m: int)
    requires Picks(w, folder.Keys, now) && s == Cleaned(s, now)
    requires Underway(folder, s, w, lost, d, y)
    requires Newest(World(Fresh(folder, now), [s]), k, m)
    ensures Newest(World(Fresh(y.folder, now), [y.devs[d].store]), k, m)
  {
    FreshPicks(w, folder, now, now);
    FreshUnderway(folder, s, w, now, lost, d, y);
    RecentNewest(Fresh(folder, now), s, w, now, lost, d, Pruned(y, d, now), k, m);
  }

  /** Crash safety. A device that stopped after any of its requests or local writes, or that had any of
      its uploads refused, runs again, later, without edits in between. The folder and the device end
      up exactly as if it had run once, without stopping and with every upload accepted. Both may hold
      expired deletions; none may expire between the two runs, at `now` and `now2`. */
  lemma {:induction false} ResumeAfterStop(truth: Truth, folder: Folder, s0: Store, now: int, w: Winners,
                                           lost: set<Key>, d: nat, y: Sys, now2: int, w2: Winners)
    requires StoreOk(truth, s0) && FolderOk(truth, folder)
    requires now <= now2 && StoreRecent(Cleaned(s0, now), now2)
    requires forall f <- folder.Keys :: !Expired(f, now) ==> !Expired(f, now2)
    requires Picks(w, folder.Keys, now)
    requires Underway(folder, Cleaned(s0, now), w, lost, d, y)
    requires Picks(w2, y.folder.Keys, now2)
    ensures var once := Cleaned(s0, now);
            var again := Cleaned(y.devs[d].store, now2);
            && Synced(y.folder, again, w2) == Synced(folder, once, w)
            && Cleaned(Applied(again, w2, y.folder), now2) == Cleaned(Applied(once, w, folder), now2)
  {
    var once := Cleaned(s0, now);
    var again := Cleaned(y.devs[d].store, now2);
    CleanedTwice(s0, now);
    CleanedTwice(y.devs[d].store, now2);
    FreshPicks(w, folder, now, now);
    FreshPicks(w2, y.folder, now, now2);
    FreshUnderway(folder, once, w, now, lost, d, y);
    ResumeRecent(truth, Fresh(folder, now), once, now, w, lost, d, Pruned(y, d, now), now2, w2);
    FreshSynced(folder, once, w, now, now);
    FreshSynced(y.folder, again, w2, now, now2);
    FreshApplied(folder, once, w, now, now);
    FreshApplied(y.folder, again, w2, now, now2);
  }

  lemma {:induction false} FreshApplied(folder: Folder, s: Store, w: Winners, now: int, later: int)
    requires Picks(w, folder.Keys, later) && now <= later
    ensures forall k <- w :: w[k] in Fresh(folder, now)
    ensures Applied(s, w, Fresh(folder, now)) == Applied(s, w, folder)
  {
    assert Applied(s, w, Fresh(folder, now)).active == Applied(s, w, folder).active;
  }
}
