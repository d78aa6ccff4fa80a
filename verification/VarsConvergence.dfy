/** Any number of devices that synchronise their variables through one folder. Whatever variables files
    it holds and whatever happened before, they all end up with the newest value of every variable
    once there were two rounds in which no upload took the name of a listed file. */
module VarsConvergence {
  import opened Basics
  import opened Replication
  import opened VarsMerge
  import opened VarsSync

  /** What an entry with a given name and time holds: equal names and times mean equal values. */
  type Truth = (string, int) -> Option<string>

  datatype World = World(folder: VarsFolder, docs: seq<VarsDoc>)

  /** Device `d` runs when its clock shows `now` and finds `w`. */
  datatype Event = Event(d: nat, now: nat, w: Option<VarsFile>)

  ghost predicate DocOk(truth: Truth, horizon: int, d: VarsDoc) {
    && Timed(d) && Positive(d)
    && forall k <- d.mtime :: At(d, k).value == truth(k, d.mtime[k]) && (k !in d.vars ==> horizon - d.mtime[k] <= MAX_AGE)
  }

  /** The folder holds one file at most, and it is one that is read. */
  ghost predicate Single(folder: VarsFolder) {
    forall f, g :: f in folder && g in folder ==> f == g && f.ts > 0 && !f.marked
  }

  /** The document in the folder. */
  ghost function Shared(folder: VarsFolder): VarsDoc {
    if f :| f in folder then folder[f] else EMPTY
  }

  ghost predicate WorldOk(truth: Truth, horizon: int, v: World) {
    && Single(v.folder) && DocOk(truth, horizon, Shared(v.folder))
    && forall d :: 0 <= d < |v.docs| ==> DocOk(truth, horizon, v.docs[d])
  }

  ghost predicate CanStep(v: World, e: Event) {
    e.d < |v.docs| && e.now > 0 && IsBest(e.w, v.folder, e.now)
  }

  ghost function Step(v: World, e: Event): World
    requires CanStep(v, e)
  {
    World(SyncedVars(v.docs[e.d], e.w, v.folder, e.now),
          v.docs[e.d := Merged(v.docs[e.d], RemoteDoc(e.w, v.folder), e.now)])
  }

  ghost predicate CanRun(v: World, es: seq<Event>)
    decreases |es|
  {
    es == [] || (CanStep(v, es[0]) && CanRun(Step(v, es[0]), es[1..]))
  }

  ghost function Run(v: World, es: seq<Event>): World
    requires CanRun(v, es)
    decreases |es|
  {
    if es == [] then v else Run(Step(v, es[0]), es[1..])
  }

  /** No run of `es` uploads under a name that was listed. */
  ghost predicate NoClash(v: World, es: seq<Event>)
    requires CanRun(v, es)
    decreases |es|
  {
    es == [] || (!Clashes(v.docs[es[0].d], es[0].w, v.folder, es[0].now) && NoClash(Step(v, es[0]), es[1..]))
  }

  ghost predicate Before(es: seq<Event>, horizon: int) {
    forall e <- es :: e.now <= horizon
  }

  ghost predicate RunsIn(es: seq<Event>, d: nat) {
    exists e <- es :: e.d == d
  }

  ghost predicate Covers(es: seq<Event>, n: nat) {
    forall d: nat :: d < n ==> RunsIn(es, d)
  }

  // ---- One run ----

  lemma {:induction false} RemoteIsShared(folder: VarsFolder, w: Option<VarsFile>, now: int)
    requires Single(folder) && IsBest(w, folder, now)
    ensures RemoteDoc(w, folder) == Shared(folder)
  {
  }

  /** Nothing is stale before the horizon. */
  lemma {:induction false} NothingStale(truth: Truth, horizon: int, a: VarsDoc, b: VarsDoc, now: int)
    requires DocOk(truth, horizon, a) && DocOk(truth, horizon, b) && now <= horizon
    ensures Merged(a, b, now) == Merge(a, b) && DocOk(truth, horizon, Merge(a, b))
  {
    var m := Merge(a, b);
    forall k | k in m.mtime
      ensures At(m, k).value == truth(k, m.mtime[k]) && m.mtime[k] > 0 &&
          (k !in m.vars ==> horizon - m.mtime[k] <= MAX_AGE)
    {
      MergeAt(a, b, k);
      assert k in Newer(a, b, k).mtime;
    }
    MergeTimed(a, b, now);
    assert Purge(m, now).mtime == m.mtime;
  }

  /** What a run needs to know of the world before it: genuine documents on the devices and in the file
      that it reads, if any, and that one under a name that some version writes. */
  ghost predicate SeenOk(truth: Truth, horizon: int, v: World, e: Event) {
    && CanStep(v, e) && e.now <= horizon && DocOk(truth, horizon, RemoteDoc(e.w, v.folder)) &&
      (e.w.Some? ==> !e.w.value.marked)
    && forall d :: 0 <= d < |v.docs| ==> DocOk(truth, horizon, v.docs[d])
  }

  lemma {:induction false} SeenWorld(truth: Truth, horizon: int, v: World, e: Event)
    requires WorldOk(truth, horizon, v) && CanStep(v, e) && e.now <= horizon
    ensures SeenOk(truth, horizon, v, e) && RemoteDoc(e.w, v.folder) == Shared(v.folder)
  {
    RemoteIsShared(v.folder, e.w, e.now);
  }

  /** After a run on any folder this holds one file at most. With a clash there is none, otherwise it is
      what the device holds: the merge of its document and of the file it read. */
  lemma {:induction false} SharedAfter(truth: Truth, horizon: int, v: World, e: Event)
    requires SeenOk(truth, horizon, v, e)
    ensures var v' := Step(v, e);
      && Single(v'.folder) && v'.docs[e.d] == Merge(v.docs[e.d], RemoteDoc(e.w, v.folder))
      && Shared(v'.folder) == if Clashes(v.docs[e.d], e.w, v.folder, e.now) then EMPTY else v'.docs[e.d]
  {
    var local := v.docs[e.d];
    NothingStale(truth, horizon, local, RemoteDoc(e.w, v.folder), e.now);
    AfterRun(local, e.w, v.folder, e.now);
    var merged := Merged(local, RemoteDoc(e.w, v.folder), e.now);
    if RemoteDiffers(e.w, v.folder, merged) {
      OneFile(UploadFile(merged.mtime, e.now), merged);
    } else if Loaded(e.w) {
      OneFile(e.w.value, merged);
    } else {
      assert merged.mtime == map[] && merged.vars == map[];
    }
  }

  lemma {:induction false} OneFile(f: VarsFile, d: VarsDoc)
    requires f.ts > 0 && !f.marked
    ensures Single(map[f := d]) && Shared(map[f := d]) == d
  {
    assert f in map[f := d];
  }

  lemma {:induction false} StepOk(truth: Truth, horizon: int, v: World, e: Event)
    requires SeenOk(truth, horizon, v, e)
    ensures WorldOk(truth, horizon, Step(v, e))
  {
    SharedAfter(truth, horizon, v, e);
    NothingStale(truth, horizon, v.docs[e.d], RemoteDoc(e.w, v.folder), e.now);
  }

  /** What a file that the run does not read loses: it goes, and an entry of it is matched by one in the
      folder afterwards exactly if the device or the file that is read had one at least as new. */
  lemma {:induction false} OthersLost(truth: Truth, horizon: int, v: World, e: Event, f: VarsFile, k: string)
    requires SeenOk(truth, horizon, v, e) && !Clashes(v.docs[e.d], e.w, v.folder, e.now)
    requires f in v.folder && k in v.folder[f].mtime
    ensures var t := v.folder[f].mtime[k];
      TimeOf(Shared(Step(v, e).folder), k) >= t
      <==> TimeOf(v.docs[e.d], k) >= t || TimeOf(RemoteDoc(e.w, v.folder), k) >= t
  {
    SharedAfter(truth, horizon, v, e);
    MergeAt(v.docs[e.d], RemoteDoc(e.w, v.folder), k);
  }

  /** `m` is the greatest time of any copy of `k`, 0 when there is none. */
  ghost predicate AtMost(v: World, k: string, m: int) {
    TimeOf(Shared(v.folder), k) <= m && forall d :: 0 <= d < |v.docs| ==> TimeOf(v.docs[d], k) <= m
  }

  ghost predicate Newest(v: World, k: string, m: int) {
    && m >= 0 && AtMost(v, k, m)
    && (m > 0 ==> TimeOf(Shared(v.folder), k) == m || exists d :: 0 <= d < |v.docs| && TimeOf(v.docs[d], k) == m)
  }

  /** The same, with the file that the next run reads in place of the folder. */
  ghost predicate AtMostSeen(v: World, e: Event, k: string, m: int)
    requires CanStep(v, e)
  {
    TimeOf(RemoteDoc(e.w, v.folder), k) <= m && forall d :: 0 <= d < |v.docs| ==> TimeOf(v.docs[d], k) <= m
  }

  ghost predicate NewestSeen(v: World, e: Event, k: string, m: int)
    requires CanStep(v, e)
  {
    && m >= 0 && AtMostSeen(v, e, k, m)
    && (m > 0 ==> TimeOf(RemoteDoc(e.w, v.folder), k) == m || exists d :: 0 <= d < |v.docs| && TimeOf(v.docs[d], k) == m)
  }

  /** One run seen from one name: the device gets the later of its time and that of the file it read, and
      so does the folder unless there was a clash. */
  lemma {:induction false} StepName(truth: Truth, horizon: int, v: World, e: Event, k: string, m: int)
    requires SeenOk(truth, horizon, v, e) && AtMostSeen(v, e, k, m) && m >= 0
    ensures var v' := Step(v, e);
      && AtMost(v', k, m)
      && TimeOf(v'.docs[e.d], k) == Max(TimeOf(v.docs[e.d], k), TimeOf(RemoteDoc(e.w, v.folder), k))
      && (!Clashes(v.docs[e.d], e.w, v.folder, e.now) ==> TimeOf(Shared(v'.folder), k) == TimeOf(v'.docs[e.d], k))
  {
    SharedAfter(truth, horizon, v, e);
    MergeAt(v.docs[e.d], RemoteDoc(e.w, v.folder), k);
    assert TimeOf(v.docs[e.d], k) <= m;
  }

  // ---- Before the two rounds ----

  /** A run, with or without a clash, does not lose the newest entry. */
  lemma {:induction false} StepNewest(truth: Truth, horizon: int, v: World, e: Event, k: string, m: int)
    requires SeenOk(truth, horizon, v, e) && NewestSeen(v, e, k, m)
    ensures Newest(Step(v, e), k, m)
  {
    var v' := Step(v, e);
    StepName(truth, horizon, v, e, k, m);
    assert TimeOf(v.docs[e.d], k) <= m;
    if m > 0 {
      if TimeOf(RemoteDoc(e.w, v.folder), k) == m {
        assert TimeOf(v'.docs[e.d], k) == m;
      } else {
        var d :| 0 <= d < |v.docs| && TimeOf(v.docs[d], k) == m;
        assert TimeOf(v'.docs[d], k) == m;
      }
    }
  }

  lemma {:induction false} RunNewest(truth: Truth, horizon: int, v: World, es: seq<Event>, k: string, m: int)
    requires WorldOk(truth, horizon, v) && CanRun(v, es) && Before(es, horizon) && Newest(v, k, m)
    ensures var v' := Run(v, es); WorldOk(truth, horizon, v') && |v'.docs| == |v.docs| && Newest(v', k, m)
    decreases |es|
  {
    if es != [] {
      assert es[0] in es && forall e <- es[1..] :: e in es;
      SeenWorld(truth, horizon, v, es[0]);
      StepOk(truth, horizon, v, es[0]);
      StepNewest(truth, horizon, v, es[0], k, m);
      RunNewest(truth, horizon, Step(v, es[0]), es[1..], k, m);
    }
  }

  // ---- Two rounds ----

  /** The newest entry is in the folder, or on a device that has not run yet. */
  ghost predicate Coming(v: World, done: set<nat>, k: string, m: int) {
    TimeOf(Shared(v.folder), k) == m || exists d: nat :: d < |v.docs| && d !in done && TimeOf(v.docs[d], k) == m
  }

  lemma {:induction false} StepOfRound(truth: Truth, horizon: int, v: World, e: Event, done: set<nat>, k: string, m: int)
    requires WorldOk(truth, horizon, v) && CanStep(v, e) && e.now <= horizon
    requires !Clashes(v.docs[e.d], e.w, v.folder, e.now) && AtMost(v, k, m) && Coming(v, done, k, m)
    ensures var v' := Step(v, e);
      WorldOk(truth, horizon, v') && AtMost(v', k, m) && |v'.docs| == |v.docs| && Coming(v', done + {e.d}, k, m)
  {
    var v' := Step(v, e);
    SeenWorld(truth, horizon, v, e);
    StepOk(truth, horizon, v, e);
    assert TimeOf(Shared(v.folder), k) >= 0;
    StepName(truth, horizon, v, e, k, m);
    assert TimeOf(v.docs[e.d], k) <= m;
    if TimeOf(Shared(v.folder), k) != m {
      var d: nat :| d < |v.docs| && d !in done && TimeOf(v.docs[d], k) == m;
      assert d != e.d ==> v'.docs[d] == v.docs[d];
      assert d == e.d ==> TimeOf(Shared(v'.folder), k) == m;
    }
  }

  /** Round one: the newest entry reaches the folder and stays. `done` have run already. */
  lemma {:induction false} FirstRound(truth: Truth, horizon: int, v: World, es: seq<Event>, done: set<nat>, k: string,
                                      m: int)
    requires WorldOk(truth, horizon, v) && CanRun(v, es) && NoClash(v, es) && Before(es, horizon) && AtMost(v, k, m)
    requires forall d: nat :: d < |v.docs| ==> d in done || RunsIn(es, d)
    requires Coming(v, done, k, m)
    ensures var v' := Run(v, es);
      WorldOk(truth, horizon, v') && AtMost(v', k, m) && |v'.docs| == |v.docs| && TimeOf(Shared(v'.folder), k) == m
    decreases |es|
  {
    if es != [] {
      RestCovers(es, |v.docs|, done);
      StepOfRound(truth, horizon, v, es[0], done, k, m);
      FirstRound(truth, horizon, Step(v, es[0]), es[1..], done + {es[0].d}, k, m);
    }
  }

  lemma {:induction false} RestCovers(es: seq<Event>, n: nat, done: set<nat>)
    requires es != [] && forall d: nat :: d < n ==> d in done || RunsIn(es, d)
    ensures forall d: nat :: d < n ==> d in done + {es[0].d} || RunsIn(es[1..], d)
  {
    forall d: nat | d < n && d !in done + {es[0].d} ensures RunsIn(es[1..], d) {
      var e :| e in es && e.d == d;
      assert e in es[1..];
    }
  }

  /** Round two: every device that runs gets it. */
  lemma {:induction false} SecondRound(truth: Truth, horizon: int, v: World, es: seq<Event>, done: set<nat>, k: string,
                                       m: int)
    requires WorldOk(truth, horizon, v) && CanRun(v, es) && NoClash(v, es) && Before(es, horizon) && AtMost(v, k, m)
    requires TimeOf(Shared(v.folder), k) == m
    requires forall d: nat :: d < |v.docs| ==> d in done || RunsIn(es, d)
    requires forall d: nat :: d < |v.docs| && d in done ==> TimeOf(v.docs[d], k) == m
    ensures var v' := Run(v, es);
      && WorldOk(truth, horizon, v') && |v'.docs| == |v.docs| && TimeOf(Shared(v'.folder), k) == m
      && forall d: nat :: d < |v'.docs| ==> TimeOf(v'.docs[d], k) == m
    decreases |es|
  {
    if es != [] {
      var e := es[0];
      SeenWorld(truth, horizon, v, e);
      StepOk(truth, horizon, v, e);
      assert TimeOf(Shared(v.folder), k) >= 0;
      StepName(truth, horizon, v, e, k, m);
      RestCovers(es, |v.docs|, done);
      assert TimeOf(v.docs[e.d], k) <= m;
      SecondRound(truth, horizon, Step(v, e), es[1..], done + {e.d}, k, m);
    }
  }

  lemma {:induction false} RunSplit(v: World, r1: seq<Event>, r2: seq<Event>)
    requires CanRun(v, r1 + r2)
    ensures CanRun(v, r1) && CanRun(Run(v, r1), r2) && Run(v, r1 + r2) == Run(Run(v, r1), r2)
    ensures NoClash(v, r1 + r2) ==> NoClash(v, r1) && NoClash(Run(v, r1), r2)
    decreases |r1|
  {
    if r1 == [] {
      assert r1 + r2 == r2;
    } else {
      assert (r1 + r2)[1..] == r1[1..] + r2 && (r1 + r2)[0] == r1[0];
      RunSplit(Step(v, r1[0]), r1[1..], r2);
    }
  }

  lemma {:induction false} EntryOfTime(truth: Truth, horizon: int, d: VarsDoc, k: string, m: int)
    requires DocOk(truth, horizon, d) && TimeOf(d, k) == m
    ensures At(d, k) == if m > 0 then Entry(Some(m), truth(k, m)) else Entry(None, None)
  {
  }

  /** Everybody and the folder hold the entry. */
  ghost predicate Agreed(truth: Truth, v: World, k: string, m: int) {
    var newest := if m > 0 then Entry(Some(m), truth(k, m)) else Entry(None, None);
    At(Shared(v.folder), k) == newest && forall d: nat :: d < |v.docs| ==> At(v.docs[d], k) == newest
  }

  lemma {:induction false} AllAgree(truth: Truth, horizon: int, v: World, k: string, m: int)
    requires WorldOk(truth, horizon, v) && TimeOf(Shared(v.folder), k) == m
    requires forall d: nat :: d < |v.docs| ==> TimeOf(v.docs[d], k) == m
    ensures Agreed(truth, v, k, m)
  {
    EntryOfTime(truth, horizon, Shared(v.folder), k, m);
    forall d: nat | d < |v.docs|
      ensures At(v.docs[d], k) == if m > 0 then Entry(Some(m), truth(k, m)) else Entry(None, None)
    {
      EntryOfTime(truth, horizon, v.docs[d], k, m);
    }
  }

  /** The rounds start in the middle of things. */
  lemma {:induction false} LaterRounds(truth: Truth, horizon: int, v: World, r1: seq<Event>, r2: seq<Event>,
                                       done: set<nat>, k: string, m: int)
    requires WorldOk(truth, horizon, v) && CanRun(v, r1 + r2) && NoClash(v, r1 + r2) && Before(r1 + r2, horizon)
    requires AtMost(v, k, m) && Covers(r2, |v.docs|) && forall d: nat :: d < |v.docs| ==> d in done || RunsIn(r1, d)
    requires Coming(v, done, k, m)
    ensures |Run(v, r1 + r2).docs| == |v.docs| && Agreed(truth, Run(v, r1 + r2), k, m)
  {
    RunSplit(v, r1, r2);
    assert forall e <- r1 :: e in r1 + r2;
    assert forall e <- r2 :: e in r1 + r2;
    FirstRound(truth, horizon, v, r1, done, k, m);
    SecondRound(truth, horizon, Run(v, r1), r2, {}, k, m);
    AllAgree(truth, horizon, Run(v, r1 + r2), k, m);
  }

  /** The rounds start at once, on any folder. */
  lemma {:induction false} RoundsAtOnce(truth: Truth, horizon: int, v: World, r1: seq<Event>, r2: seq<Event>,
                                        k: string, m: int)
    requires CanRun(v, r1 + r2) && NoClash(v, r1 + r2) && Before(r1 + r2, horizon) && r1 != []
    requires Covers(r1, |v.docs|) && Covers(r2, |v.docs|) && SeenOk(truth, horizon, v, r1[0]) &&
        NewestSeen(v, r1[0], k, m)
    ensures |Run(v, r1 + r2).docs| == |v.docs| && Agreed(truth, Run(v, r1 + r2), k, m)
  {
    var e, rest := r1[0], r1[1..];
    assert (r1 + r2)[0] == e && (r1 + r2)[1..] == rest + r2;
    assert forall x <- rest + r2 :: x in r1 + r2;
    StepOk(truth, horizon, v, e);
    FirstStep(truth, horizon, v, e, k, m);
    RestCovers(r1, |v.docs|, {});
    assert {} + {e.d} == {e.d};
    LaterRounds(truth, horizon, Step(v, e), rest, r2, {e.d}, k, m);
  }

  /** After a first run without a clash the newest entry is in the folder, or still on another device. */
  lemma {:induction false} FirstStep(truth: Truth, horizon: int, v: World, e: Event, k: string, m: int)
    requires SeenOk(truth, horizon, v, e) && NewestSeen(v, e, k, m) && !Clashes(v.docs[e.d], e.w, v.folder, e.now)
    ensures var v' := Step(v, e);
      |v'.docs| == |v.docs| && AtMost(v', k, m) && Coming(v', {e.d}, k, m)
  {
    var v' := Step(v, e);
    StepName(truth, horizon, v, e, k, m);
    assert TimeOf(v.docs[e.d], k) <= m;
    if TimeOf(Shared(v'.folder), k) != m {
      var d :| 0 <= d < |v.docs| && TimeOf(v.docs[d], k) == m;
      assert d != e.d && v'.docs[d] == v.docs[d];
    }
  }

  /** The rounds start after some runs. */
  lemma {:induction false} RoundsLater(truth: Truth, horizon: int, v: World, p: seq<Event>, r1: seq<Event>,
                                       r2: seq<Event>, k: string, m: int)
    requires p != [] && CanRun(v, p) && CanRun(Run(v, p), r1 + r2) && NoClash(Run(v, p), r1 + r2)
    requires Before(p, horizon) && Before(r1 + r2, horizon) && Covers(r1, |v.docs|) && Covers(r2, |v.docs|)
    requires SeenOk(truth, horizon, v, p[0]) && NewestSeen(v, p[0], k, m)
    ensures var end := Run(Run(v, p), r1 + r2); |end.docs| == |v.docs| && Agreed(truth, end, k, m)
  {
    assert forall e <- p[1..] :: e in p;
    StepOk(truth, horizon, v, p[0]);
    StepNewest(truth, horizon, v, p[0], k, m);
    RunNewest(truth, horizon, Step(v, p[0]), p[1..], k, m);
    LaterRounds(truth, horizon, Run(v, p), r1, r2, {}, k, m);
  }

  /** Convergence of the variables. Take any number of devices and a folder with any variables files, no
      deletion being stale. Let any runs come first (`p`), clashes or not; let then every device run at
      least once (`r1`) and every device again (`r2`), in any order, no run of these two rounds
      uploading under a listed name. Then all devices and the folder hold, for each name, the entry that
      was the newest at the start on any device or in the file that the very first run read. */
  lemma {:induction false} Convergence(truth: Truth, horizon: int, v: World, p: seq<Event>, r1: seq<Event>,
                                       r2: seq<Event>, first: Event, k: string, m: int)
    requires CanRun(v, p) && CanRun(Run(v, p), r1 + r2) && NoClash(Run(v, p), r1 + r2)
    requires Before(p, horizon) && Before(r1 + r2, horizon) && Covers(r1, |v.docs|) && Covers(r2, |v.docs|)
    requires r1 != [] && first == (if p == [] then r1[0] else p[0])
    requires SeenOk(truth, horizon, v, first) && NewestSeen(v, first, k, m)
    ensures var end := Run(Run(v, p), r1 + r2); |end.docs| == |v.docs| && Agreed(truth, end, k, m)
  {
    if p == [] {
      RoundsAtOnce(truth, horizon, v, r1, r2, k, m);
    } else {
      RoundsLater(truth, horizon, v, p, r1, r2, k, m);
    }
  }

  // ---- With a clash ----

  /** One device holds `x` at 5 and `y` at 10, the other one and the folder hold `y` at 10. */
  function First(): VarsDoc {
    VarsDoc(map["x" := "1", "y" := "2"], map["x" := 5, "y" := 10])
  }

  function Second(): VarsDoc {
    VarsDoc(map["y" := "2"], map["y" := 10])
  }

  const FILE := VarsFile(false, 10)

  function Stuck(): World {
    World(map[FILE := Second()], [First(), Second()])
  }

  lemma {:induction false} Times()
    ensures MaxTime(First().mtime) == 10 && MaxTime(Second().mtime) == 10
  {
    assert "x" in First().mtime && "y" in First().mtime && "y" in Second().mtime;
    assert First().mtime["y"] == 10 && Second().mtime["y"] == 10;
  }

  /** A document that has everything of another one at least as new takes nothing from it. */
  lemma {:induction false} AheadStays(l: VarsDoc, r: VarsDoc, now: nat)
    requires r.mtime.Keys <= l.mtime.Keys && l.vars.Keys == l.mtime.Keys
    requires forall k <- r.mtime :: r.mtime[k] <= l.mtime[k]
    requires forall k <- l.mtime :: l.mtime[k] > 0
    ensures Merged(l, r, now) == l
  {
    var m := Merged(l, r, now);
    assert m.mtime == l.mtime;
    assert m.vars == l.vars;
  }

  lemma {:induction false} FirstMerge()
    ensures Merged(First(), Second(), 20) == First() && First() != Second()
  {
    AheadStays(First(), Second(), 20);
    assert "x" !in Second().mtime && "x" in First().mtime;
  }

  lemma {:induction false} UploadUnder(local: VarsDoc, doc: VarsDoc, f: VarsFile, now: nat)
    requires f.ts > 0 && Merged(local, doc, now) == local && local != doc && f == UploadFile(local.mtime, now)
    ensures IsBest(Some(f), map[f := doc], now) && SyncedVars(local, Some(f), map[f := doc], now) == map[]
  {
    assert f in map[f := doc];
    UploadSurvives(local, Some(f), map[f := doc], now);
  }

  lemma {:induction false} FirstRuns()
    ensures Merged(First(), Second(), 20) == First() && IsBest(Some(FILE), map[FILE := Second()], 20)
    ensures SyncedVars(First(), Some(FILE), map[FILE := Second()], 20) == map[]
  {
    FirstMerge();
    Times();
    UploadUnder(First(), Second(), FILE, 20);
  }

  lemma {:induction false} SecondRuns()
    ensures Merged(Second(), EMPTY, 20) == Second() && IsBest(None, map[], 20)
    ensures SyncedVars(Second(), None, map[], 20) == map[FILE := Second()]
  {
    var m := Merged(Second(), EMPTY, 20);
    assert m.mtime == Second().mtime && m.vars == Second().vars;
    assert "y" in m.mtime;
    Times();
    UploadSurvives(Second(), None, map[], 20);
  }

  /** One round of both devices. */
  const ROUND := [Event(0, 20, Some(FILE)), Event(1, 20, None)]

  function Repeated(es: seq<Event>, n: nat): seq<Event> {
    if n == 0 then [] else es + Repeated(es, n - 1)
  }

  lemma {:induction false} RoundBack()
    ensures CanRun(Stuck(), ROUND) && Run(Stuck(), ROUND) == Stuck()
  {
    FirstRuns();
    SecondRuns();
    var a, b := ROUND[0], ROUND[1];
    var v1 := Step(Stuck(), a);
    assert v1 == World(map[], [First(), Second()]);
    assert ROUND[1..] == [b] && [b][1..] == [];
    assert Step(v1, b) == Stuck();
    assert CanRun(v1, [b]) && Run(v1, [b]) == Stuck();
  }

  lemma {:induction false} Again(v: World, es: seq<Event>, n: nat)
    requires CanRun(v, es) && Run(v, es) == v
    ensures CanRun(v, Repeated(es, n)) && Run(v, Repeated(es, n)) == v
  {
    if n > 0 {
      Again(v, es, n - 1);
      RunJoin(v, es, Repeated(es, n - 1));
    }
  }

  /** It goes round for ever: the first run deletes its own upload, the second one restores the file,
      and the second device never learns of `x`. */
  lemma {:induction false} NeverConverges(n: nat)
    ensures CanRun(Stuck(), Repeated(ROUND, n)) && Run(Stuck(), Repeated(ROUND, n)) == Stuck()
    ensures "x" in Stuck().docs[0].mtime && "x" !in Stuck().docs[1].mtime
  {
    RoundBack();
    Again(Stuck(), ROUND, n);
  }

  lemma {:induction false} RunJoin(v: World, r1: seq<Event>, r2: seq<Event>)
    requires CanRun(v, r1) && CanRun(Run(v, r1), r2)
    ensures CanRun(v, r1 + r2) && Run(v, r1 + r2) == Run(Run(v, r1), r2)
    decreases |r1|
  {
    if r1 == [] {
      assert r1 + r2 == r2;
    } else {
      assert (r1 + r2)[1..] == r1[1..] + r2 && (r1 + r2)[0] == r1[0];
      RunJoin(Step(v, r1[0]), r1[1..], r2);
    }
  }
}
