/** A run that downloaded a page reads the file of the pages back and puts what it had in place of the
    pages in memory. An edit in between is undone, although the run has nothing to do with its page. */
module ReloadRace {
  import opened Basics
  import opened Replication
  import opened Convergence
  import opened Interleaving
  import opened CrashSafety
  import opened SyncLimits

  lemma {:induction false} Then(truth: Truth, y: Sys, a: Act, rest: seq<Act>)
    requires Enabled(truth, y, a) && CanDo(truth, Do(truth, y, a), rest)
    ensures CanDo(truth, y, [a] + rest) && After(truth, y, [a] + rest) == After(truth, Do(truth, y, a), rest)
  {
    assert ([a] + rest)[1..] == rest;
  }

  /** The file is read, the user saves a page, and what was read takes its place. */
  function Race(d: nat, k: Key, item: Item): seq<Act> {
    [ReadBack(d, true)] + ([Save(d, k, item)] + ([PutBack(d)] + []))
  }

  lemma {:induction false} RaceRuns(truth: Truth, y: Sys, d: nat, k: Key, item: Item)
    requires d < |y.devs| && y.devs[d].proc.Stored? && truth(k, item.ts) == Live(item.body)
    ensures CanDo(truth, y, Race(d, k, item))
    ensures var end := After(truth, y, Race(d, k, item));
      d < |end.devs| && end.devs[d] == PagesPut(Edited(FileRead(y.devs[d], true), k, Replace(item)))
  {
    var y1 := Do(truth, y, ReadBack(d, true));
    var y2 := Do(truth, y1, Save(d, k, item));
    Then(truth, y2, PutBack(d), []);
    Then(truth, y1, Save(d, k, item), [PutBack(d)] + []);
    Then(truth, y, ReadBack(d, true), [Save(d, k, item)] + ([PutBack(d)] + []));
  }

  /** The run was not going to pull the page, and yet the older copy is back in memory. Only the file has
      the edit, so that a crash and a start would bring it back. */
  lemma {:induction false} ReloadLoses(truth: Truth, y: Sys, d: nat, k: Key, item: Item)
    requires d < |y.devs| && y.devs[d].proc.Stored? && InStep(y.devs[d])
    requires k.kind == Page && k in y.devs[d].store.active && truth(k, item.ts) == Live(item.body)
    ensures CanDo(truth, y, Race(d, k, item))
    ensures var end := After(truth, y, Race(d, k, item));
      && d < |end.devs| && end.devs[d].proc.Deleting? && Pulled(y.devs[d].proc, k) == Stays
      && k in end.devs[d].store.active && end.devs[d].store.active[k] == y.devs[d].store.active[k]
      && k in end.devs[d].file && end.devs[d].file[k] == item
      && var again := Do(truth, end, Restart(d)).devs[d].store; k in again.active && again.active[k] == item
  {
    RaceRuns(truth, y, d, k, item);
    assert k in y.devs[d].file;
  }

  // ---- A run that comes to that point ----

  /** A device with page `b`, and a folder with another page `a`. */
  function Rest(a: RemoteFile, body: string, b: Key, item: Item): Sys {
    var s := Store(map[b := item], map[]);
    Sys(map[a := body], [Device(s, PagesOf(s), Idle)], {a}, {}, {}, 0)
  }

  function Approach(a: RemoteFile, b: Key, now: int): seq<Act> {
    [Begin(0, now, {a}, map[a.key := a])]
    + ([Treat(0, a.key)] + ([Treat(0, b)] + ([ApplyButtons(0)] + ([ApplyPages(0)] + []))))
  }

  predicate Case(truth: Truth, a: RemoteFile, body: string, b: Key, item: Item) {
    && a.key.kind == Page && b.kind == Page && a.key != b && !a.deleted
    && truth(a.key, a.ts) == Live(body) && truth(b, item.ts) == Live(item.body)
  }

  lemma {:induction false} RestStarts(truth: Truth, a: RemoteFile, body: string, b: Key, item: Item)
    requires Case(truth, a, body, b, item)
    ensures Start(truth, Rest(a, body, b, item))
  {
    var y := Rest(a, body, b, item);
    var v := World(y.folder, seq(|y.devs|, i requires 0 <= i < |y.devs| => y.devs[i].store));
    assert v.stores == [y.devs[0].store];
    assert WorldOk(truth, v);
  }

  lemma {:induction false} BegunAt(truth: Truth, a: RemoteFile, body: string, b: Key, item: Item, now: int)
    requires Case(truth, a, body, b, item)
    ensures var y := Rest(a, body, b, item);
      var act := Begin(0, now, {a}, map[a.key := a]);
      && Enabled(truth, y, act)
      && var y1 := Do(truth, y, act);
         && y1.folder == y.folder && |y1.devs| == 1 && y1.devs[0].store == y.devs[0].store &&
           y1.devs[0].file == y.devs[0].file
         && y1.devs[0].proc.Syncing? && y1.devs[0].proc.snap == y.devs[0].store && y1.devs[0].proc.w == map[a.key := a]
         && y1.devs[0].proc.todo == {a.key, b} && y1.devs[0].proc.got == map[]
  {
    var y := Rest(a, body, b, item);
    assert Cleaned(y.devs[0].store, now) == y.devs[0].store;
    assert Known(y.devs[0].store) + map[a.key := a].Keys == {a.key, b};
  }

  lemma {:induction false} BothTreated(truth: Truth, y: Sys, a: RemoteFile, body: string, b: Key, item: Item)
    requires Case(truth, a, body, b, item) && |y.devs| == 1 && y.devs[0].proc.Syncing? && y.folder == map[a := body]
    requires var p := y.devs[0].proc;
      p.snap == Store(map[b := item], map[]) && p.w == map[a.key := a] && p.todo == {a.key, b} && p.got == map[]
    ensures Enabled(truth, y, Treat(0, a.key)) && Enabled(truth, Do(truth, y, Treat(0, a.key)), Treat(0, b))
    ensures var y2 := Do(truth, Do(truth, y, Treat(0, a.key)), Treat(0, b));
      && |y2.devs| == 1 && y2.devs[0].store == y.devs[0].store && y2.devs[0].proc.Syncing? && y2.devs[0].proc.todo == {}
      && y2.devs[0].proc.got == map[a.key := Replace(Item(a.ts, body))]
  {
    TreatEffect(y, 0, a.key);
    var y1 := TreatKey(y, 0, a.key);
    assert y1.devs[0].proc.todo == {b};
    TreatEffect(y1, 0, b);
  }

  lemma {:induction false} BothWritten(truth: Truth, y: Sys, a: RemoteFile, body: string, b: Key, item: Item)
    requires Case(truth, a, body, b, item) && |y.devs| == 1 && y.devs[0].proc.Syncing? && y.devs[0].proc.todo == {}
    requires y.devs[0].store == Store(map[b := item], map[])
    requires y.devs[0].proc.got == map[a.key := Replace(Item(a.ts, body))]
    ensures Enabled(truth, y, ApplyButtons(0)) && Enabled(truth, Do(truth, y, ApplyButtons(0)), ApplyPages(0))
    ensures var v := Do(truth, Do(truth, y, ApplyButtons(0)), ApplyPages(0)).devs[0];
      v.proc.Stored? && InStep(v) && b in v.store.active && v.store.active[b] == item
  {
    var got := y.devs[0].proc.got;
    assert OfKind(got, Page) == got && a.key in got;
  }

  /** It does happen: from a system at rest a run comes to the point where the race can begin. */
  lemma {:induction false} RaceReached(truth: Truth, a: RemoteFile, body: string, b: Key, item: Item, now: int)
    requires Case(truth, a, body, b, item)
    ensures CanDo(truth, Rest(a, body, b, item), Approach(a, b, now))
    ensures var y := After(truth, Rest(a, body, b, item), Approach(a, b, now));
      && Reached(truth, Rest(a, body, b, item), Approach(a, b, now), y)
      && |y.devs| > 0 && y.devs[0].proc.Stored? && InStep(y.devs[0]) && b in y.devs[0].store.active
  {
    var y0 := Rest(a, body, b, item);
    var begin := Begin(0, now, {a}, map[a.key := a]);
    RestStarts(truth, a, body, b, item);
    BegunAt(truth, a, body, b, item, now);
    var y1 := Do(truth, y0, begin);
    BothTreated(truth, y1, a, body, b, item);
    var y2 := Do(truth, y1, Treat(0, a.key));
    var y3 := Do(truth, y2, Treat(0, b));
    BothWritten(truth, y3, a, body, b, item);
    var y4 := Do(truth, y3, ApplyButtons(0));
    Then(truth, y4, ApplyPages(0), []);
    Then(truth, y3, ApplyButtons(0), [ApplyPages(0)] + []);
    Then(truth, y2, Treat(0, b), [ApplyButtons(0)] + ([ApplyPages(0)] + []));
    Then(truth, y1, Treat(0, a.key), [Treat(0, b)] + ([ApplyButtons(0)] + ([ApplyPages(0)] + [])));
    Then(truth, y0, begin, [Treat(0, a.key)] + ([Treat(0, b)] + ([ApplyButtons(0)] + ([ApplyPages(0)] + []))));
  }
}
