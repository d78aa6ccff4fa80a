/** Any number of devices that synchronise through one folder end up with the newest copy of
    every button and page. */
module Convergence {
  import opened Replication

  /** What a copy with a given key and timestamp is: deleted, or live with this body. */
  datatype State = Dead | Live(body: string)

  /** Equal key and timestamp mean equal state: one function says what every copy holds. */
  type Truth = (Key, nat) -> State

  datatype World = World(folder: Folder, stores: seq<Store>)

  /** Device `d` runs a synchronisation when its clock shows `now`; `w` are the winners it finds. */
  datatype Event = Event(d: nat, now: int, w: Winners)

  ghost predicate StoreOk(truth: Truth, s: Store) {
    && (forall k <- s.active :: truth(k, s.active[k].ts) == Live(s.active[k].body))
    && (forall k <- s.tombs :: truth(k, s.tombs[k]) == Dead)
  }

  ghost predicate FileOk(truth: Truth, f: RemoteFile, body: string) {
    if f.deleted then truth(f.key, f.ts) == Dead && body == "{}" else truth(f.key, f.ts) == Live(body)
  }

  ghost predicate FolderOk(truth: Truth, folder: Folder) {
    forall f <- folder :: FileOk(truth, f, folder[f])
  }

  ghost predicate WorldOk(truth: Truth, v: World) {
    FolderOk(truth, v.folder) && forall d :: 0 <= d < |v.stores| ==> StoreOk(truth, v.stores[d])
  }

  // ---- Tombstones that have not expired by the time `horizon` ----

  ghost predicate StoreRecent(s: Store, horizon: int) {
    forall k <- s.tombs :: horizon - s.tombs[k] <= MAX_AGE
  }

  ghost predicate FolderRecent(files: set<RemoteFile>, horizon: int) {
    forall f <- files :: !Expired(f, horizon)
  }

  ghost predicate Recent(v: World, horizon: int) {
    && FolderRecent(v.folder.Keys, horizon)
    && forall d :: 0 <= d < |v.stores| ==> StoreRecent(v.stores[d], horizon)
  }

  // ---- Runs ----

  ghost predicate CanStep(v: World, e: Event) {
    e.d < |v.stores| && Picks(e.w, v.folder.Keys, e.now)
  }

  function Step(v: World, e: Event): World
    requires CanStep(v, e)
  {
    var s := Cleaned(v.stores[e.d], e.now);
    World(Synced(v.folder, s, e.w), v.stores[e.d := Applied(s, e.w, v.folder)])
  }

  ghost predicate CanRun(v: World, es: seq<Event>)
    decreases |es|
  {
    es == [] || (CanStep(v, es[0]) && CanRun(Step(v, es[0]), es[1..]))
  }

  ghost function Run(v: World, es: seq<Event>): World
    requires CanRun(v, es)
    decreases |es|
  {
    if es == [] then v else Run(Step(v, es[0]), es[1..])
  }

  ghost predicate Before(es: seq<Event>, horizon: int) {
    forall e <- es :: e.now <= horizon
  }

  ghost predicate RunsIn(es: seq<Event>, d: nat) {
    exists e <- es :: e.d == d
  }

  /** Every one of the `n` devices runs at least once in `es`. */
  ghost predicate Covers(es: seq<Event>, n: nat) {
    forall d: nat :: d < n ==> RunsIn(es, d)
  }

  // ---- The newest copy ----

  ghost predicate InFolder(v: World, k: Key, m: int) {
    exists f <- v.folder.Keys :: f.key == k && f.ts == m
  }

  ghost predicate OnDevice(v: World, k: Key, m: int) {
    exists d :: 0 <= d < |v.stores| && LocalTS(v.stores[d], k) == m
  }

  ghost predicate AtMost(v: World, k: Key, m: int) {
    && (forall f <- v.folder.Keys :: f.key == k ==> f.ts <= m)
    && forall d :: 0 <= d < |v.stores| ==> LocalTS(v.stores[d], k) <= m
  }

  /** `m` is the greatest timestamp of any copy of `k`, -1 when there is none. */
  ghost predicate Newest(v: World, k: Key, m: int) {
    m >= -1 && AtMost(v, k, m) && (m >= 0 ==> InFolder(v, k, m) || OnDevice(v, k, m))
  }

  /** The device shows exactly the copy of `k` with timestamp `m`. */
  ghost predicate Shows(truth: Truth, s: Store, k: Key, m: int) {
    if m < 0 then k !in s.active && k !in s.tombs
    else match truth(k, m)
      case Dead => k !in s.active && k in s.tombs && s.tombs[k] == m
      case Live(body) => k in s.active && s.active[k] == Item(m, body)
  }

  /** The folder holds one file for `k`, the one with timestamp `m`, and nothing else. */
  ghost predicate FolderShows(truth: Truth, folder: Folder, k: Key, m: int) {
    if m < 0 then NoFile(folder.Keys, k)
    else exists f :: OnlyFile(folder.Keys, k, f) && f.ts == m && FileOk(truth, f, folder[f])
  }

  lemma {:induction false} NewestFile(files: set<RemoteFile>, k: Key) returns (m: int)
    ensures m >= -1 && forall f <- files :: f.key == k ==> f.ts <= m
    ensures m >= 0 ==> exists f <- files :: f.key == k && f.ts == m
    decreases files
  {
    if files == {} {
      m := -1;
    } else {
      var f :| f in files;
      m := NewestFile(files - {f}, k);
      if f.key == k && f.ts > m {
        m := f.ts;
      }
      forall g | g in files && g.key == k ensures g.ts <= m {
        assert g == f || g in files - {f};
      }
    }
  }

  /** Every key has a newest copy, or none at all. */
  lemma {:induction false} NewestExists(v: World, k: Key) returns (m: int)
    ensures Newest(v, k, m)
    decreases |v.stores|
  {
    if v.stores == [] {
      m := NewestFile(v.folder.Keys, k);
    } else {
      var last := |v.stores| - 1;
      var u := World(v.folder, v.stores[..last]);
      m := NewestExists(u, k);
      forall d | 0 <= d < last ensures LocalTS(v.stores[d], k) == LocalTS(u.stores[d], k) {}
      if LocalTS(v.stores[last], k) > m {
        m := LocalTS(v.stores[last], k);
      } else if m >= 0 && !InFolder(v, k, m) {
        var d :| 0 <= d < |u.stores| && LocalTS(u.stores[d], k) == m;
        assert LocalTS(v.stores[d], k) == m;
      }
    }
  }

  // ---- One step ----

  lemma {:induction false} AppliedOk(truth: Truth, s: Store, w: Winners, folder: Folder)
    requires StoreOk(truth, s) && FolderOk(truth, folder)
    requires forall k <- w :: w[k] in folder && w[k].key == k
    ensures StoreOk(truth, Applied(s, w, folder))
  {
    var a := Applied(s, w, folder);
    forall k | k in a.active ensures truth(k, a.active[k].ts) == Live(a.active[k].body) {
      if Pulls(s, w, k) {
        assert FileOk(truth, w[k], folder[w[k]]);
      }
    }
    forall k | k in a.tombs ensures truth(k, a.tombs[k]) == Dead {
      if Pulls(s, w, k) && k in w && w[k].deleted {
        assert FileOk(truth, w[k], folder[w[k]]);
      }
    }
  }

  lemma {:induction false} SyncedOk(truth: Truth, s: Store, w: Winners, folder: Folder, now: int)
    requires s == Cleaned(s, now) && Picks(w, folder.Keys, now)
    requires StoreOk(truth, s) && FolderOk(truth, folder)
    ensures FolderOk(truth, Synced(folder, s, w))
  {
    SyncedFiles(folder, s, w, now);
    var after := Synced(folder, s, w);
    forall f | f in after ensures FileOk(truth, f, after[f]) {
      KeptOfKey(s, w, folder.Keys, now, f);
      if f !in Uploads(s, w) {
        assert f in Kept(s, w);
        assert FileOk(truth, f, folder[f]);
      }
    }
  }

  lemma {:induction false} StepOk(truth: Truth, v: World, e: Event)
    requires WorldOk(truth, v) && CanStep(v, e)
    ensures WorldOk(truth, Step(v, e))
  {
    CleanedTwice(v.stores[e.d], e.now);
    AppliedOk(truth, Cleaned(v.stores[e.d], e.now), e.w, v.folder);
    SyncedOk(truth, Cleaned(v.stores[e.d], e.now), e.w, v.folder, e.now);
  }

  lemma {:induction false} AppliedRecent(s: Store, w: Winners, folder: Folder, horizon: int)
    requires StoreRecent(s, horizon) && FolderRecent(folder.Keys, horizon)
    requires forall k <- w :: w[k] in folder
    ensures StoreRecent(Applied(s, w, folder), horizon)
  {
    forall k | k in Applied(s, w, folder).tombs
      ensures horizon - Applied(s, w, folder).tombs[k] <= MAX_AGE
    {
      if Pulls(s, w, k) && k in w {
        assert !Expired(w[k], horizon);
      }
    }
  }

  lemma {:induction false} StepRecent(v: World, e: Event, horizon: int)
    requires Recent(v, horizon) && CanStep(v, e)
    ensures Recent(Step(v, e), horizon)
  {
    var s := Cleaned(v.stores[e.d], e.now);
    CleanedTwice(v.stores[e.d], e.now);
    AppliedRecent(s, e.w, v.folder, horizon);
    SyncedFiles(v.folder, s, e.w, e.now);
    forall f | f in Synced(v.folder, s, e.w).Keys ensures !Expired(f, horizon) {
      KeptOfKey(s, e.w, v.folder.Keys, e.now, f);
    }
  }

  /** Cleaning forgets nothing recent. */
  lemma {:induction false} CleanedRecent(s: Store, now: int, horizon: int, k: Key)
    requires StoreRecent(s, horizon) && now <= horizon
    ensures LocalTS(Cleaned(s, now), k) == LocalTS(s, k)
  {
    if k in s.tombs {
      assert horizon - s.tombs[k] <= MAX_AGE;
    }
  }

  /** One run by one device, seen from one key: the folder and the device both end up with the
      greater of their timestamps, and everybody else is unaffected. */
  lemma {:induction false} StepKey(v: World, e: Event, k: Key, m: int, horizon: int)
    requires CanStep(v, e) && Recent(v, horizon) && e.now <= horizon
    requires m >= -1 && AtMost(v, k, m)
    ensures var v' := Step(v, e);
            && AtMost(v', k, m)
            && (InFolder(v, k, m) || LocalTS(v.stores[e.d], k) == m >= 0 ==> InFolder(v', k, m))
            && (InFolder(v, k, m) ==> LocalTS(v'.stores[e.d], k) == m)
            && (NoFile(v'.folder.Keys, k) || exists f :: OnlyFile(v'.folder.Keys, k, f))
  {
    var s := Cleaned(v.stores[e.d], e.now);
    CleanedTwice(v.stores[e.d], e.now);
    CleanedRecent(v.stores[e.d], e.now, horizon, k);
    SyncedKey(v.folder, s, e.w, e.now, k);
    AppliedTS(s, e.w, v.folder, k);
    if InFolder(v, k, m) {
      var f :| f in v.folder.Keys && f.key == k && f.ts == m;
      assert !Expired(f, horizon) && !Expired(f, e.now);
      assert RemoteTS(e.w, k) == m;
    }
  }

  // ---- Whole runs ----

  lemma {:induction false} RunOk(truth: Truth, v: World, es: seq<Event>)
    requires WorldOk(truth, v) && CanRun(v, es)
    ensures WorldOk(truth, Run(v, es))
    decreases |es|
  {
    if es != [] {
      StepOk(truth, v, es[0]);
      RunOk(truth, Step(v, es[0]), es[1..]);
    }
  }

  lemma {:induction false} RunRecent(v: World, es: seq<Event>, horizon: int)
    requires Recent(v, horizon) && CanRun(v, es)
    ensures Recent(Run(v, es), horizon) && |Run(v, es).stores| == |v.stores|
    decreases |es|
  {
    if es != [] {
      StepRecent(v, es[0], horizon);
      RunRecent(Step(v, es[0]), es[1..], horizon);
    }
  }

  lemma {:induction false} RunSplit(v: World, a: seq<Event>, b: seq<Event>)
    requires CanRun(v, a + b)
    ensures CanRun(v, a) && CanRun(Run(v, a), b) && Run(Run(v, a), b) == Run(v, a + b)
    decreases |a|
  {
    if a == [] {
      assert a + b == b;
    } else {
      assert (a + b)[0] == a[0] && (a + b)[1..] == a[1..] + b;
      RunSplit(Step(v, a[0]), a[1..], b);
    }
  }

  lemma {:induction false} RestCovers(es: seq<Event>, done: set<nat>, n: nat)
    requires es != [] && forall d: nat :: d < n ==> d in done || RunsIn(es, d)
    ensures forall d: nat :: d < n ==> d in done + {es[0].d} || RunsIn(es[1..], d)
  {
    forall d: nat | d < n && d !in done + {es[0].d} ensures RunsIn(es[1..], d) {
      var x :| x in es && x.d == d;
      assert x in es[1..];
    }
  }

  /** Round one: once every device has run, the folder has the newest copy. `done` are the devices
      that have run already. */
  lemma {:induction false} FirstRound(v: World, es: seq<Event>, done: set<nat>, k: Key, m: int, horizon: int)
    requires CanRun(v, es) && Recent(v, horizon) && Before(es, horizon)
    requires m >= 0 && AtMost(v, k, m)
    requires forall d: nat :: d < |v.stores| ==> d in done || RunsIn(es, d)
    requires InFolder(v, k, m) || exists d: nat :: d < |v.stores| && d !in done && LocalTS(v.stores[d], k) == m
    ensures InFolder(Run(v, es), k, m) && AtMost(Run(v, es), k, m)
    decreases |es|
  {
    if es != [] {
      var e := es[0];
      StepKey(v, e, k, m, horizon);
      StepRecent(v, e, horizon);
      RestCovers(es, done, |v.stores|);
      if !InFolder(Step(v, e), k, m) {
        var d: nat :| d < |v.stores| && d !in done && LocalTS(v.stores[d], k) == m;
        assert d != e.d && Step(v, e).stores[d] == v.stores[d];
      }
      FirstRound(Step(v, e), es[1..], done + {e.d}, k, m, horizon);
    }
  }

  /** Nothing newer ever appears. */
  lemma {:induction false} StaysAtMost(v: World, es: seq<Event>, k: Key, m: int, horizon: int)
    requires CanRun(v, es) && Recent(v, horizon) && Before(es, horizon)
    requires m >= -1 && AtMost(v, k, m)
    ensures AtMost(Run(v, es), k, m)
    decreases |es|
  {
    if es != [] {
      StepKey(v, es[0], k, m, horizon);
      StepRecent(v, es[0], horizon);
      StaysAtMost(Step(v, es[0]), es[1..], k, m, horizon);
    }
  }

  ghost predicate SingleFile(v: World, k: Key) {
    exists f :: OnlyFile(v.folder.Keys, k, f)
  }

  ghost predicate HaveIt(v: World, done: set<nat>, k: Key, m: int) {
    forall d <- done :: d < |v.stores| ==> LocalTS(v.stores[d], k) == m
  }

  lemma {:induction false} SecondStep(v: World, e: Event, done: set<nat>, k: Key, m: int, horizon: int)
    requires CanStep(v, e) && Recent(v, horizon) && e.now <= horizon
    requires m >= 0 && AtMost(v, k, m) && InFolder(v, k, m) && HaveIt(v, done, k, m)
    ensures var v' := Step(v, e);
            AtMost(v', k, m) && InFolder(v', k, m) && HaveIt(v', done + {e.d}, k, m) && SingleFile(v', k)
  {
    StepKey(v, e, k, m, horizon);
    var v' := Step(v, e);
    forall d | d in done + {e.d} && d < |v'.stores| ensures LocalTS(v'.stores[d], k) == m {
      if d != e.d {
        assert v'.stores[d] == v.stores[d];
      }
    }
  }

  /** Round two: with the newest copy in the folder, every device that runs gets it. */
  lemma {:induction false} SecondRound(v: World, es: seq<Event>, done: set<nat>, k: Key, m: int, horizon: int)
    requires CanRun(v, es) && Recent(v, horizon) && Before(es, horizon)
    requires m >= 0 && AtMost(v, k, m) && InFolder(v, k, m) && HaveIt(v, done, k, m)
    requires forall d: nat :: d < |v.stores| ==> d in done || RunsIn(es, d)
    requires es == [] ==> SingleFile(v, k)
    ensures var v' := Run(v, es);
            InFolder(v', k, m) && SingleFile(v', k) && forall d: nat :: d < |v'.stores| ==> LocalTS(v'.stores[d], k) == m
    decreases |es|
  {
    if es == [] {
      forall d: nat | d < |v.stores| ensures LocalTS(v.stores[d], k) == m {
        assert d in done;
      }
    } else {
      SecondStep(v, es[0], done, k, m, horizon);
      StepRecent(v, es[0], horizon);
      RestCovers(es, done, |v.stores|);
      SecondRound(Step(v, es[0]), es[1..], done + {es[0].d}, k, m, horizon);
    }
  }

  lemma {:induction false} TSDetermines(truth: Truth, s: Store, k: Key, m: int)
    requires StoreOk(truth, s) && LocalTS(s, k) == m && m >= -1
    ensures Shows(truth, s, k, m)
  {
  }

  /** The two rounds, for one key. */
  lemma {:induction false} TwoRounds(truth: Truth, v: World, r1: seq<Event>, r2: seq<Event>, horizon: int, k: Key,
                                     m: int)
    requires |v.stores| > 0
    requires WorldOk(truth, v) && Recent(v, horizon)
    requires CanRun(v, r1 + r2) && Before(r1 + r2, horizon)
    requires Covers(r1, |v.stores|) && Covers(r2, |v.stores|)
    requires m >= 0 && Newest(v, k, m)
    ensures var end := Run(v, r1 + r2);
            && FolderShows(truth, end.folder, k, m)
            && forall d: nat :: d < |end.stores| ==> LocalTS(end.stores[d], k) == m
  {
    RunSplit(v, r1, r2);
    RunOk(truth, v, r1 + r2);
    RunRecent(v, r1, horizon);
    forall e | e in r1 ensures e in r1 + r2 {}
    forall e | e in r2 ensures e in r1 + r2 {}
    if !InFolder(v, k, m) {
      var d :| 0 <= d < |v.stores| && LocalTS(v.stores[d], k) == m;
      assert d !in {};
    }
    FirstRound(v, r1, {}, k, m, horizon);
    assert RunsIn(r2, 0);
    SecondRound(Run(v, r1), r2, {}, k, m, horizon);
    var end := Run(v, r1 + r2);
    var f :| OnlyFile(end.folder.Keys, k, f);
    assert f.ts == m && FileOk(truth, f, end.folder[f]);
  }

  /** Convergence. Take any number of devices and any folder, with tombstones that have not
      expired. Let every device synchronise at least once (`r1`), then every device again (`r2`),
      in any order and any number of times. Then all devices and the folder hold, for each key,
      the copy that had the greatest timestamp at the start. */
  lemma {:induction false} Convergence(truth: Truth, v: World, r1: seq<Event>, r2: seq<Event>, horizon: int, k: Key,
                                       m: int)
    requires |v.stores| > 0
    requires WorldOk(truth, v) && Recent(v, horizon)
    requires CanRun(v, r1 + r2) && Before(r1 + r2, horizon)
    requires Covers(r1, |v.stores|) && Covers(r2, |v.stores|)
    requires Newest(v, k, m)
    ensures var end := Run(v, r1 + r2);
            && |end.stores| == |v.stores|
            && FolderShows(truth, end.folder, k, m)
            && forall d: nat :: d < |end.stores| ==> Shows(truth, end.stores[d], k, m)
  {
    RunRecent(v, r1 + r2, horizon);
    RunOk(truth, v, r1 + r2);
    var end := Run(v, r1 + r2);
    StaysAtMost(v, r1 + r2, k, m, horizon);
    if m >= 0 {
      TwoRounds(truth, v, r1, r2, horizon, k, m);
    }
    forall d: nat | d < |end.stores| ensures Shows(truth, end.stores[d], k, m) {
      TSDetermines(truth, end.stores[d], k, m);
    }
  }
}
