/** `performSync` and its dry run `DetectChanges`, as the loops they are, proved against the
    functions of `Replication` and `VarsSync`. */
module SyncRun {
  import opened Basics
  import opened Replication
  import opened VarsMerge
  import opened VarsSync
  import opened Interleaving
  import opened CrashSafety

  datatype Name = ItemName(item: RemoteFile) | VarsName(vars: VarsFile)

  datatype Op = Put(name: Name) | Del(name: Name)

  // ---- What the listing says ----

  ghost predicate Lists(listing: seq<Name>, items: Folder, vars: VarsFolder) {
    && NoDup(listing)
    && (forall f :: ItemName(f) in listing <==> f in items)
    && (forall f :: VarsName(f) in listing <==> f in vars)
  }

  predicate IsFresh(n: Name, k: Key, now: int) {
    n.ItemName? && n.item.key == k && !Expired(n.item, now)
  }

  /** The unexpired files of one key, in the order listed. */
  function Group(listing: seq<Name>, k: Key, now: int): (g: seq<RemoteFile>)
    ensures forall f :: f in g <==> ItemName(f) in listing && f.key == k && !Expired(f, now)
    ensures NoDup(listing) ==> NoDup(g)
  {
    if listing == [] then []
    else
      var front, last := listing[..|listing| - 1], listing[|listing| - 1];
      assert listing == front + [last];
      if IsFresh(last, k, now) then Group(front, k, now) + [last.item] else Group(front, k, now)
  }

  /** The variables files that have not lapsed, in the order listed. */
  function VarsOf(listing: seq<Name>, now: int): (g: seq<VarsFile>)
    ensures forall f :: f in g <==> VarsName(f) in listing && !Lapsed(f, now)
    ensures NoDup(listing) ==> NoDup(g)
  {
    if listing == [] then []
    else
      var front, last := listing[..|listing| - 1], listing[|listing| - 1];
      assert listing == front + [last];
      if last.VarsName? && !Lapsed(last.vars, now) then VarsOf(front, now) + [last.vars] else VarsOf(front, now)
  }

  /** A deletion marker that is too old. */
  predicate Outdated(n: Name, now: int) {
    if n.ItemName? then Expired(n.item, now) else Lapsed(n.vars, now)
  }

  /** The file the scan of one key picks: the first one with the greatest timestamp. */
  function Best(files: seq<RemoteFile>): (w: Option<RemoteFile>)
    ensures w.Some? ==> w.value in files
    ensures w.None? <==> files == []
    ensures forall f <- files :: w.Some? && f.ts <= w.value.ts
  {
    if files == [] then None
    else
      var last := files[|files| - 1];
      var b := Best(files[..|files| - 1]);
      if b.None? || last.ts > b.value.ts then Some(last) else b
  }

  /** Of several files with the greatest timestamp the one listed first is taken. */
  lemma {:induction false} FirstNewest(files: seq<RemoteFile>) returns (i: nat)
    requires files != []
    ensures i < |files| && Best(files) == Some(files[i])
    ensures forall j :: 0 <= j < |files| ==> if j < i then files[j].ts < files[i].ts else files[j].ts <= files[i].ts
    decreases |files|
  {
    var n := |files| - 1;
    var front, last := files[..n], files[n];
    if front == [] {
      i := 0;
    } else {
      var k := FirstNewest(front);
      assert forall j :: 0 <= j < n ==> front[j] == files[j];
      i := if last.ts > front[k].ts then n else k;
    }
  }

  function FreshKeys(listing: seq<Name>, now: int): set<Key> {
    set n | n in listing && n.ItemName? && !Expired(n.item, now) :: n.item.key
  }

  function WinnersOf(listing: seq<Name>, now: int): (w: Winners)
    ensures w.Keys == FreshKeys(listing, now)
    ensures forall k <- w :: Best(Group(listing, k, now)) == Some(w[k])
  {
    map k | k in FreshKeys(listing, now) ::
      var n :| n in listing && n.ItemName? && !Expired(n.item, now) && n.item.key == k;
      assert n.item in Group(listing, k, now);
      Best(Group(listing, k, now)).value
  }

  lemma {:induction false} WinnersPick(listing: seq<Name>, items: Folder, vars: VarsFolder, now: int)
    requires Lists(listing, items, vars)
    ensures Picks(WinnersOf(listing, now), items.Keys, now)
    ensures forall k :: Group(listing, k, now) != [] ==> k in WinnersOf(listing, now)
  {
    var w := WinnersOf(listing, now);
    forall f | f in items.Keys && !Expired(f, now)
      ensures f.key in w && f.ts <= w[f.key].ts
    {
      assert ItemName(f) in listing;
      assert f in Group(listing, f.key, now);
    }
    forall k | Group(listing, k, now) != [] ensures k in w {
      var f := Group(listing, k, now)[0];
      assert f in Group(listing, k, now);
      assert ItemName(f) in listing;
      assert f.key in FreshKeys(listing, now);
    }
  }

  // ---- Sorting the listing into groups, as both operations do first ----

  ghost predicate Grouped(remote: map<Key, seq<RemoteFile>>, listing: seq<Name>, now: int) {
    forall k :: (k in remote <==> Group(listing, k, now) != []) && (k in remote ==> remote[k] == Group(listing, k, now))
  }

  lemma {:induction false} GroupedSame(remote: map<Key, seq<RemoteFile>>, upTo: seq<Name>, now: int)
    requires upTo != [] && Grouped(remote, upTo[..|upTo| - 1], now)
    requires var n := upTo[|upTo| - 1]; n.VarsName? || Expired(n.item, now)
    ensures Grouped(remote, upTo, now)
  {
  }

  lemma {:induction false} GroupedMore(remote: map<Key, seq<RemoteFile>>, upTo: seq<Name>, f: RemoteFile, now: int)
    requires upTo != [] && Grouped(remote, upTo[..|upTo| - 1], now)
    requires upTo[|upTo| - 1] == ItemName(f) && !Expired(f, now)
    ensures Grouped(remote[f.key := (if f.key in remote then remote[f.key] else []) + [f]], upTo, now)
  {
  }

  /** `dels` are the names of the listing that are too old. */
  ghost predicate OldNames(dels: seq<Name>, listing: seq<Name>, now: int) {
    NoDup(dels) && forall n :: n in dels <==> n in listing && Outdated(n, now)
  }

  lemma {:induction false} OldNamesMore(dels: seq<Name>, upTo: seq<Name>, n: Name, now: int)
    requires upTo != [] && upTo[|upTo| - 1] == n && n !in upTo[..|upTo| - 1] && OldNames(dels, upTo[..|upTo| - 1], now)
    ensures OldNames(if Outdated(n, now) then dels + [n] else dels, upTo, now)
  {
    assert upTo == upTo[..|upTo| - 1] + [n];
    if Outdated(n, now) {
      NoDupAppend(dels, n);
    }
  }

  /** One name of the listing. */
  method ClassifyName(remote: map<Key, seq<RemoteFile>>, varsFiles: seq<VarsFile>, dels: seq<Name>, n: Name, now: int,
                      ghost front: seq<Name>)
    returns (remote': map<Key, seq<RemoteFile>>, varsFiles': seq<VarsFile>, dels': seq<Name>)
    requires n !in front && Grouped(remote, front, now) && varsFiles == VarsOf(front, now) && OldNames(dels, front, now)
    ensures Grouped(remote', front + [n], now) && varsFiles' == VarsOf(front + [n], now)
    ensures OldNames(dels', front + [n], now)
  {
    remote', varsFiles', dels' := remote, varsFiles, dels;
    ghost var upTo := front + [n];
    assert upTo[..|upTo| - 1] == front && upTo[|upTo| - 1] == n;
    OldNamesMore(dels, upTo, n, now);
    if Outdated(n, now) {
      GroupedSame(remote, upTo, now);
      dels' := dels + [n];
    } else {
      match n {
        case ItemName(f) =>
          GroupedMore(remote, upTo, f, now);
          remote' := remote[f.key := (if f.key in remote then remote[f.key] else []) + [f]];
        case VarsName(f) =>
          GroupedSame(remote, upTo, now);
          varsFiles' := varsFiles + [f];
      }
    }
  }

  method Classify(listing: seq<Name>, now: int)
    returns (remote: map<Key, seq<RemoteFile>>, varsFiles: seq<VarsFile>, dels: seq<Name>)
    requires NoDup(listing)
    ensures Grouped(remote, listing, now)
    ensures varsFiles == VarsOf(listing, now)
    ensures OldNames(dels, listing, now)
  {
    remote, varsFiles, dels := map[], [], [];
    var i := 0;
    assert listing[..0] == [];
    while i < |listing|
      invariant 0 <= i <= |listing|
      invariant Grouped(remote, listing[..i], now)
      invariant varsFiles == VarsOf(listing[..i], now)
      invariant OldNames(dels, listing[..i], now)
    {
      assert listing[..i + 1] == listing[..i] + [listing[i]] && listing[i] !in listing[..i];
      remote, varsFiles, dels := ClassifyName(remote, varsFiles, dels, listing[i], now, listing[..i]);
      i := i + 1;
    }
    assert listing[..|listing|] == listing;
  }

  // ---- What a run knows when it starts ----

  /** `listing` is the answer of the server, `items` and `vars` its contents at that moment, `snap` the
      store of the device, which a run has cleaned, `w` the winners. */
  datatype Plan = Plan(listing: seq<Name>, items: Folder, vars: VarsFolder, snap: Store, w: Winners, now: nat)
  {
    ghost predicate Ok() {
      && Lists(listing, items, vars) && Picks(w, items.Keys, now)
      && forall k :: if k in w then Best(Group(listing, k, now)) == Some(w[k]) else Group(listing, k, now) == []
    }

    ghost predicate Clean() {
      snap == Cleaned(snap, now)
    }

    ghost predicate Starts(listing: seq<Name>, items: Folder, vars: VarsFolder, snap: Store, now: nat) {
      this.listing == listing && this.items == items && this.vars == vars && this.snap == snap && this.now == now
    }

    function All(): set<Key> {
      AllKeys(snap, w)
    }
  }

  function PlanOf(listing: seq<Name>, items: Folder, vars: VarsFolder, snap: Store, now: nat): Plan {
    Plan(listing, items, vars, snap, WinnersOf(listing, now), now)
  }

  lemma {:induction false} PlanOfOk(listing: seq<Name>, items: Folder, vars: VarsFolder, snap: Store, now: nat)
    requires Lists(listing, items, vars)
    ensures PlanOf(listing, items, vars, snap, now).Ok()
  {
    WinnersPick(listing, items, vars, now);
  }

  /** The scan of one key: it picks the winner and puts every file on the delete list. */
  method ScanKey(files: seq<RemoteFile>, dels: seq<Name>) returns (w: Option<RemoteFile>, dels': seq<Name>)
    requires NoDup(files) && NoDup(dels) && forall f <- files :: ItemName(f) !in dels
    ensures w == Best(files)
    ensures NoDup(dels')
    ensures forall n :: n in dels' <==> n in dels || (n.ItemName? && n.item in files)
  {
    w, dels' := ScanFiles(files, dels);
    NamesAdded(files, dels);
  }

  method ScanFiles(files: seq<RemoteFile>, dels: seq<Name>) returns (w: Option<RemoteFile>, dels': seq<Name>)
    ensures w == Best(files) && dels' == dels + Names(files)
  {
    w, dels' := None, dels;
    var i := 0;
    assert files[..0] == [] && dels + Names([]) == dels;
    while i < |files|
      invariant 0 <= i <= |files|
      invariant w == Best(files[..i])
      invariant dels' == dels + Names(files[..i])
    {
      var rf := files[i];
      BestMore(files, i);
      if w.None? || rf.ts > w.value.ts {
        w := Some(rf);
      }
      NamesMore(files, i);
      ConcatAssoc(dels, Names(files[..i]), [ItemName(rf)]);
      dels' := dels' + [ItemName(rf)];
      i := i + 1;
    }
    assert files[..|files|] == files;
  }

  lemma {:induction false} BestMore(files: seq<RemoteFile>, i: nat)
    requires i < |files|
    ensures Best(files[..i + 1]) ==
      var b := Best(files[..i]); if b.None? || files[i].ts > b.value.ts then Some(files[i]) else b
  {
    assert files[..i + 1][..i] == files[..i];
  }

  function Names(files: seq<RemoteFile>): (ns: seq<Name>)
    ensures |ns| == |files| && forall i :: 0 <= i < |ns| ==> ns[i] == ItemName(files[i])
  {
    seq(|files|, i requires 0 <= i < |files| => ItemName(files[i]))
  }

  lemma {:induction false} NamesMore(files: seq<RemoteFile>, i: nat)
    requires i < |files|
    ensures Names(files[..i + 1]) == Names(files[..i]) + [ItemName(files[i])]
  {
  }

  lemma {:induction false} NamesAdded(files: seq<RemoteFile>, dels: seq<Name>)
    requires NoDup(files) && NoDup(dels) && forall f <- files :: ItemName(f) !in dels
    ensures NoDup(dels + Names(files))
    ensures forall n :: n in dels + Names(files) <==> n in dels || (n.ItemName? && n.item in files)
  {
    var ns := Names(files);
    forall n ensures n in ns <==> n.ItemName? && n.item in files {
      if n.ItemName? && n.item in files {
        var i :| 0 <= i < |files| && files[i] == n.item;
        assert ns[i] == n;
      }
    }
  }

  /** `removeFromStringSlice`. */
  method RemoveFromSlice(slice: seq<Name>, val: Name) returns (result: seq<Name>)
    requires NoDup(slice)
    ensures NoDup(result)
    ensures forall n :: n in result <==> n in slice && n != val
  {
    result := [];
    var i := 0;
    while i < |slice|
      invariant 0 <= i <= |slice|
      invariant NoDup(result)
      invariant forall n :: n in result <==> n in slice[..i] && n != val
    {
      assert slice[i] !in slice[..i];
      if slice[i] != val {
        result := result + [slice[i]];
      }
      i := i + 1;
    }
    assert slice[..|slice|] == slice;
  }

  // ---- The delete list ----

  ghost predicate Doomed(p: Plan, done: set<Key>, n: Name) {
    match n
    case ItemName(f) => f in p.items && (Expired(f, p.now) || (f.key in done && f !in Kept(p.snap, p.w)))
    case VarsName(f) => f in p.vars && Lapsed(f, p.now)
  }

  ghost predicate DelSet(p: Plan, done: set<Key>, dels: seq<Name>) {
    NoDup(dels) && forall n :: n in dels <==> Doomed(p, done, n)
  }

  lemma {:induction false} KeptIsWinner(p: Plan, f: RemoteFile)
    requires p.Ok()
    ensures f in Kept(p.snap, p.w) <==> f.key in p.w && f == p.w[f.key] && !Pushes(p.snap, p.w, f.key)
  {
    if f in Kept(p.snap, p.w) {
      var k :| k in p.w && !Pushes(p.snap, p.w, k) && f == p.w[k];
    }
  }

  /** Scanning a key and taking its winner off the list again unless something newer was uploaded. */
  lemma {:induction false} DelStep(p: Plan, done: set<Key>, k: Key, dels: seq<Name>, dels': seq<Name>)
    requires p.Ok() && k !in done && DelSet(p, done, dels) && NoDup(dels')
    requires forall n :: n in dels' <==>
               (n in dels || (n.ItemName? && n.item in Group(p.listing, k, p.now)))
               && !(k in p.w && !Pushes(p.snap, p.w, k) && n == ItemName(p.w[k]))
    ensures DelSet(p, done + {k}, dels')
  {
    forall n ensures n in dels' <==> Doomed(p, done + {k}, n) {
      DoomedStep(p, done, k, n);
    }
  }

  lemma {:induction false} InGroup(p: Plan, k: Key, f: RemoteFile)
    requires p.Ok()
    ensures f in Group(p.listing, k, p.now) <==> f in p.items && f.key == k && !Expired(f, p.now)
  {
    assert ItemName(f) in p.listing <==> f in p.items;
  }

  lemma {:induction false} DoomedStep(p: Plan, done: set<Key>, k: Key, n: Name)
    requires p.Ok() && k !in done
    ensures Doomed(p, done + {k}, n) <==>
            (Doomed(p, done, n) || (n.ItemName? && n.item in Group(p.listing, k, p.now)))
            && !(k in p.w && !Pushes(p.snap, p.w, k) && n == ItemName(p.w[k]))
  {
    if n.ItemName? {
      KeptIsWinner(p, n.item);
      InGroup(p, k, n.item);
    }
  }

  /** At the end the list is exactly what `Deletes` says. */
  lemma {:induction false} DelAll(p: Plan, dels: seq<Name>)
    requires p.Ok() && DelSet(p, p.All(), dels)
    ensures forall n :: n in dels <==>
      if n.ItemName? then n.item in Deletes(p.items.Keys, p.snap, p.w) else n.vars in p.vars && Lapsed(n.vars, p.now)
  {
    forall n: Name | n.ItemName? && n.item in p.items
      ensures Doomed(p, p.All(), n) <==> n.item !in Kept(p.snap, p.w)
    {
      KeptIsWinner(p, n.item);
    }
  }

  // ---- Counting ----

  function Select(done: set<Key>, f: Key -> bool): set<Key> {
    set k | k in done && f(k)
  }

  lemma {:induction false} SelectStep(done: set<Key>, f: Key -> bool, k: Key)
    requires k !in done
    ensures |Select(done + {k}, f)| == |Select(done, f)| + if f(k) then 1 else 0
  {
    if f(k) {
      assert Select(done + {k}, f) == Select(done, f) + {k};
    } else {
      assert Select(done + {k}, f) == Select(done, f);
    }
  }

  predicate IsPush(p: Plan, k: Key) {
    k in Known(p.snap) && Pushes(p.snap, p.w, k)
  }

  predicate IsPull(p: Plan, k: Key, deleted: bool) {
    k in p.w && Pulls(p.snap, p.w, k) && p.w[k].deleted == deleted
  }

  /** The keys to upload, to replace locally, and to delete locally. */
  function PushKeys(p: Plan, done: set<Key>): set<Key> {
    Select(done, k => IsPush(p, k))
  }

  function PullKeys(p: Plan, done: set<Key>, deleted: bool): set<Key> {
    Select(done, k => IsPull(p, k, deleted))
  }

  lemma {:induction false} CountStep(p: Plan, done: set<Key>, k: Key)
    requires k !in done
    ensures |PushKeys(p, done + {k})| == |PushKeys(p, done)| + if IsPush(p, k) then 1 else 0
    ensures forall b :: |PullKeys(p, done + {k}, b)| == |PullKeys(p, done, b)| + if IsPull(p, k, b) then 1 else 0
  {
    SelectStep(done, x => IsPush(p, x), k);
    forall b ensures |PullKeys(p, done + {k}, b)| == |PullKeys(p, done, b)| + if IsPull(p, k, b) then 1 else 0 {
      SelectStep(done, x => IsPull(p, x, b), k);
    }
  }

  /** The changes to apply, in the order found. */
  type Changes = seq<(Key, Change)>

  function MapOf(cs: Changes): map<Key, Change> {
    if cs == [] then map[] else MapOf(cs[..|cs| - 1])[cs[|cs| - 1].0 := cs[|cs| - 1].1]
  }

  /** No key is changed twice. */
  predicate Distinct(cs: Changes) {
    cs == [] || (Distinct(cs[..|cs| - 1]) && cs[|cs| - 1].0 !in MapOf(cs[..|cs| - 1]))
  }

  /** The changes applied one after the other. */
  function Fold(s: Store, cs: Changes): Store {
    if cs == [] then s else Change1(Fold(s, cs[..|cs| - 1]), cs[|cs| - 1].0, cs[|cs| - 1].1)
  }

  lemma {:induction false} ChangeOneMoreActive(s: Store, got: map<Key, Change>, k: Key, c: Change, x: Key)
    requires k !in got
    ensures var a, b := Change1(ChangeAll(s, got), k, c).active, ChangeAll(s, got[k := c]).active;
      (x in a <==> x in b) && (x in a ==> a[x] == b[x])
  {
  }

  lemma {:induction false} ChangeOneMoreTombs(s: Store, got: map<Key, Change>, k: Key, c: Change, x: Key)
    requires k !in got
    ensures var a, b := Change1(ChangeAll(s, got), k, c).tombs, ChangeAll(s, got[k := c]).tombs;
      (x in a <==> x in b) && (x in a ==> a[x] == b[x])
  {
    assert k in ChangeAll(s, got).active <==> k in s.active;
  }

  lemma {:induction false} ChangeOneMore(s: Store, got: map<Key, Change>, k: Key, c: Change)
    requires k !in got
    ensures Change1(ChangeAll(s, got), k, c) == ChangeAll(s, got[k := c])
  {
    var a, b := Change1(ChangeAll(s, got), k, c), ChangeAll(s, got[k := c]);
    assert a.active == b.active by {
      forall x { ChangeOneMoreActive(s, got, k, c, x); }
    }
    assert a.tombs == b.tombs by {
      forall x { ChangeOneMoreTombs(s, got, k, c, x); }
    }
  }

  lemma {:induction false} FoldIsChangeAll(s: Store, cs: Changes)
    requires Distinct(cs)
    ensures Fold(s, cs) == ChangeAll(s, MapOf(cs))
  {
    if cs == [] {
      assert ChangeAll(s, map[]).active == s.active;
      assert ChangeAll(s, map[]).tombs == s.tombs;
    } else {
      var front, last := cs[..|cs| - 1], cs[|cs| - 1];
      FoldIsChangeAll(s, front);
      ChangeOneMore(s, MapOf(front), last.0, last.1);
    }
  }

  function Replaces(cs: Changes): (n: nat)
    ensures n <= |cs|
  {
    if cs == [] then 0 else Replaces(cs[..|cs| - 1]) + if cs[|cs| - 1].1.Replace? then 1 else 0
  }

  function Erasures(cs: Changes): nat {
    |cs| - Replaces(cs)
  }

  lemma {:induction false} AppendChange(cs: Changes, k: Key, c: Change)
    ensures MapOf(cs + [(k, c)]) == MapOf(cs)[k := c]
    ensures Replaces(cs + [(k, c)]) == Replaces(cs) + if c.Replace? then 1 else 0
    ensures Distinct(cs) && k !in MapOf(cs) ==> Distinct(cs + [(k, c)])
  {
    assert (cs + [(k, c)])[..|cs|] == cs;
  }

  // ---- The server ----

  class Server {
    var items: Folder
    var vars: VarsFolder
    ghost var log: seq<Op>

    constructor ()
    {
      items, vars, log := map[], map[], [];
    }

    method PutItem(f: RemoteFile, body: string)
      modifies this
      ensures items == old(items)[f := body] && vars == old(vars)
      ensures log == old(log) + [Put(ItemName(f))]
    {
      items := items[f := body];
      log := log + [Put(ItemName(f))];
    }

    method PutVars(f: VarsFile, doc: VarsDoc)
      modifies this
      ensures items == old(items) && vars == old(vars)[f := doc]
      ensures log == old(log) + [Put(VarsName(f))]
    {
      vars := vars[f := doc];
      log := log + [Put(VarsName(f))];
    }

    method Delete(n: Name)
      modifies this
      ensures items == if n.ItemName? then old(items) - {n.item} else old(items)
      ensures vars == if n.VarsName? then old(vars) - {n.vars} else old(vars)
      ensures log == old(log) + [Del(n)]
    {
      match n {
        case ItemName(f) => items := items - {f};
        case VarsName(f) => vars := vars - {f};
      }
      log := log + [Del(n)];
    }
  }

  // ---- Where the loop over the keys stands ----

  ghost predicate OnlyPuts(ops: seq<Op>) {
    forall o <- ops :: o.Put?
  }

  /** `items`, `store`, `dels` and `changes` after treating the keys `done`. */
  ghost predicate Progress(p: Plan, done: set<Key>, items: Folder, store: Store, dels: seq<Name>, changes: Changes) {
    && (forall k <- p.w :: p.w[k] in p.items)
    && items == p.items + DocsOf(p.snap, p.w, done)
    && store == p.snap.(tombs := p.snap.tombs + TombsOf(p.snap, p.w, done))
    && MapOf(changes) == ChangesOf(p.snap, p.w, p.items, done) && Distinct(changes)
    && DelSet(p, done, dels)
  }

  ghost predicate Tally(p: Plan, done: set<Key>, puts: seq<Op>, changes: Changes) {
    && OnlyPuts(puts) && |puts| == |PushKeys(p, done)|
    && Replaces(changes) == |PullKeys(p, done, false)| && Erasures(changes) == |PullKeys(p, done, true)|
  }

  /** What treating one more key does to the delete list. */
  ghost predicate KeyScanned(p: Plan, k: Key, dels: seq<Name>, dels': seq<Name>) {
    && NoDup(dels')
    && forall n :: n in dels' <==>
         (n in dels || (n.ItemName? && n.item in Group(p.listing, k, p.now)))
         && !(k in p.w && !Pushes(p.snap, p.w, k) && n == ItemName(p.w[k]))
  }

  lemma {:induction false} ProgressStart(p: Plan, dels: seq<Name>)
    requires p.Ok() && OldNames(dels, p.listing, p.now)
    ensures Progress(p, {}, p.items, p.snap, dels, [])
  {
    assert DocsOf(p.snap, p.w, {}) == map[];
    assert TombsOf(p.snap, p.w, {}) == map[];
    assert ChangesOf(p.snap, p.w, p.items, {}) == map[];
    assert p.items + map[] == p.items;
    assert p.snap.tombs + map[] == p.snap.tombs;
  }

  lemma {:induction false} TallyStart(p: Plan)
    ensures Tally(p, {}, [], [])
  {
    assert PushKeys(p, {}) == {} && PullKeys(p, {}, false) == {} && PullKeys(p, {}, true) == {};
  }

  lemma {:induction false} ProgressStep(p: Plan, done: set<Key>, k: Key, items: Folder, store: Store, dels: seq<Name>,
                                        changes: Changes, dels': seq<Name>)
    requires p.Ok() && p.Clean() && k !in done && Progress(p, done, items, store, dels, changes) &&
        KeyScanned(p, k, dels, dels')
    ensures k in p.w ==> p.w[k] in items
    ensures var items' := if IsPush(p, k) then items[UploadName(p.snap, k) := UploadBody(p.snap, k)] else items;
            var store' := if IsPull(p, k, true) then store.(tombs := store.tombs[k := p.w[k].ts]) else store;
            var changes' := changes + if k in p.w && Pulls(p.snap, p.w, k) then [(k, ChangeOf(p.w, items, k))] else [];
            Progress(p, done + {k}, items', store', dels', changes')
  {
    TreatFolder(p.items, p.snap, p.w, p.now, done, k);
    TombsStep(p.snap, p.w, done, k);
    TreatChanges(p.items, p.snap, p.w, p.now, done, k, items, done);
    DelStep(p, done, k, dels, dels');
    if k in p.w {
      AppendChange(changes, k, ChangeOf(p.w, items, k));
    }
    assert changes + [] == changes;
  }

  lemma {:induction false} TallyStep(p: Plan, done: set<Key>, k: Key, puts: seq<Op>, changes: Changes, items: Folder,
                                     n: Name)
    requires k !in done && Tally(p, done, puts, changes)
    requires k in p.w ==> p.w[k] in items
    ensures Tally(p, done + {k}, puts + if IsPush(p, k) then [Put(n)] else [],
                  changes + if k in p.w && Pulls(p.snap, p.w, k) then [(k, ChangeOf(p.w, items, k))] else [])
  {
    CountStep(p, done, k);
    assert changes + [] == changes;
    if k in p.w {
      AppendChange(changes, k, ChangeOf(p.w, items, k));
    }
  }

  lemma {:induction false} ScanFits(p: Plan, done: set<Key>, k: Key, dels: seq<Name>)
    requires p.Ok() && k !in done && DelSet(p, done, dels)
    ensures NoDup(dels) && forall f <- Group(p.listing, k, p.now) :: ItemName(f) !in dels
  {
  }

  // ---- The end of a run ----

  ghost predicate DelList(p: Plan, kept: set<VarsFile>, dels: seq<Name>) {
    && NoDup(dels)
    && forall n :: n in dels <==>
         if n.ItemName? then n.item in Deletes(p.items.Keys, p.snap, p.w) else n.vars in p.vars && n.vars !in kept
  }

  lemma {:induction false} DocsOfAll(p: Plan)
    ensures DocsOf(p.snap, p.w, p.All()) == UploadDocs(p.snap, p.w)
  {
  }

  lemma {:induction false} ItemsDeleted(p: Plan, items: Folder, kept: set<VarsFile>, dels: seq<Name>)
    requires items == p.items + DocsOf(p.snap, p.w, p.All()) && DelList(p, kept, dels)
    ensures items - ItemsIn(dels) == Synced(p.items, p.snap, p.w)
  {
    DocsOfAll(p);
    assert forall f :: f in ItemsIn(dels) <==> ItemName(f) in dels;
    assert ItemsIn(dels) == Deletes(p.items.Keys, p.snap, p.w);
  }

  lemma {:induction false} ItemsDone(p: Plan, items: Folder, store: Store, dels0: seq<Name>, changes: Changes,
                                     kept: set<VarsFile>, dels: seq<Name>)
    requires Progress(p, p.All(), items, store, dels0, changes) && DelList(p, kept, dels)
    ensures items - ItemsIn(dels) == Synced(p.items, p.snap, p.w)
    ensures ChangeAll(store, MapOf(changes)) == Applied(p.snap, p.w, p.items)
  {
    ItemsDeleted(p, items, kept, dels);
    AllChanges(p.snap, p.w, p.items);
  }

  lemma {:induction false} VarsDone(p: Plan, local: VarsDoc, w: Option<VarsFile>, put: VarsFolder, dels: seq<Name>)
    requires w.Some? ==> w.value in p.vars
    requires var merged := Merged(local, RemoteDoc(w, p.vars), p.now);
             && DelList(p, KeptFile(w, p.vars, merged), dels)
             && put == if RemoteDiffers(w, p.vars, merged) then p.vars[UploadFile(merged.mtime, p.now) := merged]
                       else p.vars
    ensures put - VarsIn(dels) == SyncedVars(local, w, p.vars, p.now)
  {
    var merged := Merged(local, RemoteDoc(w, p.vars), p.now);
    assert forall f :: f in VarsIn(dels) <==> VarsName(f) in dels;
    assert VarsIn(dels) == p.vars.Keys - KeptFile(w, p.vars, merged);
  }

  lemma {:induction false} DelListDone(p: Plan, kept: set<VarsFile>, dels0: seq<Name>, dels: seq<Name>)
    requires p.Ok() && DelSet(p, p.All(), dels0) && NoDup(dels)
    requires forall f <- kept :: !Lapsed(f, p.now)
    requires forall n :: n in dels <==> n in dels0 || (n.VarsName? && n.vars in VarsOf(p.listing, p.now) && n.vars !in kept)
    ensures DelList(p, kept, dels)
  {
    DelAll(p, dels0);
  }

  lemma {:induction false} KeysOfBothKinds(p: Plan, remote: map<Key, seq<RemoteFile>>)
    requires p.Ok() && Grouped(remote, p.listing, p.now)
    ensures KeysOf(p.snap, remote, Button) + KeysOf(p.snap, remote, Page) == p.All()
  {
    RemoteKeys(p, remote);
    TwoKindsOf(p.snap, remote);
  }

  lemma {:induction false} RemoteKeys(p: Plan, remote: map<Key, seq<RemoteFile>>)
    requires p.Ok() && Grouped(remote, p.listing, p.now)
    ensures remote.Keys == p.w.Keys
  {
    forall k ensures k in remote <==> k in p.w {
      assert k in remote <==> Group(p.listing, k, p.now) != [];
    }
  }

  lemma {:induction false} TwoKindsOf(s: Store, remote: map<Key, seq<RemoteFile>>)
    ensures KeysOf(s, remote, Button) + KeysOf(s, remote, Page) == s.active.Keys + s.tombs.Keys + remote.Keys
  {
    forall k: Key ensures k.kind == Button || k.kind == Page {}
  }

  /** `buttonIDs`, and `pageIDs`: what is known here, deleted here, or listed. */
  function KeysOf(s: Store, remote: map<Key, seq<RemoteFile>>, kind: Kind): set<Key> {
    set k | k in s.active.Keys + s.tombs.Keys + remote.Keys && k.kind == kind
  }

  /** The state after a run. `local` is the variables document before it. */
  ghost predicate Outcome(p: Plan, local: VarsDoc, w: Option<VarsFile>, items: Folder, vars: VarsFolder, store: Store,
                          doc: VarsDoc) {
    && Usable(w, p.vars, p.now)
    && (forall k <- p.w :: p.w[k] in p.items)
    && items == Synced(p.items, p.snap, p.w)
    && store == Applied(p.snap, p.w, p.items)
    && doc == Merged(local, RemoteDoc(w, p.vars), p.now)
    && vars == SyncedVars(local, w, p.vars, p.now)
  }

  lemma {:induction false} OutcomeReached(p: Plan, local: VarsDoc, w: Option<VarsFile>, items: Folder, store: Store,
                                          put: VarsFolder, dels0: seq<Name>, changes: Changes, dels: seq<Name>)
    requires p.Ok() && Usable(w, p.vars, p.now)
    requires Progress(p, p.All(), items, store, dels0, changes)
    requires var merged := Merged(local, RemoteDoc(w, p.vars), p.now);
             && DelList(p, KeptFile(w, p.vars, merged), dels)
             && put == if RemoteDiffers(w, p.vars, merged) then p.vars[UploadFile(merged.mtime, p.now) := merged]
                       else p.vars
    ensures Outcome(p, local, w, items - ItemsIn(dels), put - VarsIn(dels), ChangeAll(store, MapOf(changes)),
                    Merged(local, RemoteDoc(w, p.vars), p.now))
  {
    ItemsDone(p, items, store, dels0, changes, KeptFile(w, p.vars, Merged(local, RemoteDoc(w, p.vars), p.now)), dels);
    VarsDone(p, local, w, put, dels);
  }

  // ---- What a run reports, and what the dry run predicts ----

  datatype Counts = Counts(uploads: nat, downloads: nat, localDeletes: nat, remoteDeletes: nat)

  function One(b: bool): nat {
    if b then 1 else 0
  }

  /** The names to delete. */
  function DoomedNames(p: Plan, kept: set<VarsFile>): set<Name> {
    set n | n in p.listing && if n.ItemName? then n.item in Deletes(p.items.Keys, p.snap, p.w) else n.vars !in kept
  }

  function Expected(p: Plan, local: VarsDoc, w: Option<VarsFile>): Counts
    requires w.Some? ==> w.value in p.vars
  {
    var merged := Merged(local, RemoteDoc(w, p.vars), p.now);
    Counts(|PushKeys(p, p.All())| + One(RemoteDiffers(w, p.vars, merged)),
           |PullKeys(p, p.All(), false)| + One(local != merged),
           |PullKeys(p, p.All(), true)|,
           |DoomedNames(p, KeptFile(w, p.vars, merged))|)
  }

  lemma {:induction false} DelListSize(p: Plan, kept: set<VarsFile>, dels: seq<Name>)
    requires p.Ok() && DelList(p, kept, dels)
    ensures |dels| == |DoomedNames(p, kept)|
  {
    NoDupSize(dels);
    assert (set n | n in dels) == DoomedNames(p, kept);
  }

  // ---- The device ----

  class Device {
    var active: map<Key, Item>
    var tombs: map<Key, nat>
    const vars: VarsStore

    constructor (vars: VarsStore)
      ensures active == map[] && tombs == map[] && this.vars == vars
    {
      active, tombs := map[], map[];
      this.vars := vars;
    }

    function Local(): Store
      reads this
    {
      Store(active, tombs)
    }

    method CleanDeletedMaps(now: nat)
      modifies this
      ensures Local() == Cleaned(old(Local()), now)
    {
      var todo := tombs.Keys;
      while todo != {}
        invariant todo <= tombs.Keys <= old(tombs).Keys && active == old(active)
        invariant forall k <- tombs :: tombs[k] == old(tombs)[k]
        invariant forall k <- old(tombs) :: k !in tombs <==> k !in todo && (k in active || now - old(tombs)[k] > MAX_AGE)
        decreases todo
      {
        var k :| k in todo;
        todo := todo - {k};
        if k in active || now - tombs[k] > MAX_AGE {
          tombs := tombs - {k};
        }
      }
      assert tombs == Cleaned(old(Local()), now).tombs;
    }

    /** The PUT of one key. */
    method Upload(server: Server, snap: Store, k: Key, localTS: int)
      requires localTS == LocalTS(snap, k) >= 0
      modifies server
      ensures server.vars == old(server.vars)
      ensures server.items == old(server.items)[UploadName(snap, k) := UploadBody(snap, k)]
      ensures server.log == old(server.log) + [Put(ItemName(UploadName(snap, k)))]
    {
      if k in snap.active {
        server.PutItem(RemoteFile(k, localTS, false), snap.active[k].body);
      } else {
        server.PutItem(RemoteFile(k, localTS, true), "{}");
      }
    }

    /** One key: compare the local copy with the newest remote one, upload, or note what to apply. */
    method SyncKey(server: Server, snap: Store, remote: map<Key, seq<RemoteFile>>, k: Key, dels: seq<Name>,
                   changes: Changes,
                   ghost p: Plan)
      returns (dels': seq<Name>, changes': Changes)
      requires p.Ok() && p.snap == snap && Grouped(remote, p.listing, p.now)
      requires NoDup(dels) && forall f <- Group(p.listing, k, p.now) :: ItemName(f) !in dels
      requires k in p.w ==> p.w[k] in server.items
      modifies this, server
      ensures active == old(active) && server.vars == old(server.vars)
      ensures server.items == if IsPush(p, k) then old(server.items)[UploadName(snap, k) := UploadBody(snap, k)]
                              else old(server.items)
      ensures server.log == old(server.log) + if IsPush(p, k) then [Put(ItemName(UploadName(snap, k)))] else []
      ensures tombs == if IsPull(p, k, true) then old(tombs)[k := p.w[k].ts] else old(tombs)
      ensures changes' == changes + if k in p.w && Pulls(snap, p.w, k) then [(k, ChangeOf(p.w, old(server.items), k))]
                                    else []
      ensures KeyScanned(p, k, dels, dels')
    {
      assert k in p.w ==> Best(Group(p.listing, k, p.now)) == Some(p.w[k]);
      var w: Option<RemoteFile>;
      w, dels' := ScanKey(if k in remote then remote[k] else [], dels);
      changes' := changes;
      assert w == if k in p.w then Some(p.w[k]) else None;
      var localTS := LocalTS(snap, k);
      var remoteTS := if w.Some? then w.value.ts else -1;
      if localTS > remoteTS {
        Upload(server, snap, k, localTS);
      } else if remoteTS > localTS {
        if !w.value.deleted {
          changes' := changes + [(k, Replace(Item(remoteTS, server.items[w.value])))];
        } else {
          changes' := changes + [(k, Erase(remoteTS))];
          tombs := tombs[k := remoteTS];
        }
        dels' := RemoveFromSlice(dels', ItemName(w.value));
      } else if remoteTS >= 0 {
        dels' := RemoveFromSlice(dels', ItemName(w.value));
      }
    }

    method SyncNext(server: Server, snap: Store, remote: map<Key, seq<RemoteFile>>, k: Key, dels: seq<Name>,
                    changes: Changes, ghost p: Plan, ghost done: set<Key>, ghost log0: seq<Op>, ghost puts: seq<Op>)
      returns (dels': seq<Name>, changes': Changes, ghost puts': seq<Op>)
      requires p.Ok() && p.Clean() && p.snap == snap && Grouped(remote, p.listing, p.now) && k !in done
      requires Progress(p, done, server.items, Local(), dels, changes) && Tally(p, done, puts, changes)
      requires server.log == log0 + puts
      modifies this, server
      ensures Progress(p, done + {k}, server.items, Local(), dels', changes')
      ensures Tally(p, done + {k}, puts', changes')
      ensures server.vars == old(server.vars) && server.log == log0 + puts'
    {
      ghost var items, store := server.items, Local();
      ScanFits(p, done, k, dels);
      TreatChanges(p.items, snap, p.w, p.now, done, k, items, done);
      dels', changes' := SyncKey(server, snap, remote, k, dels, changes, p);
      ProgressStep(p, done, k, items, store, dels, changes, dels');
      ghost var name := if IsPush(p, k) then ItemName(UploadName(snap, k)) else ItemName(RemoteFile(k, 0, false));
      TallyStep(p, done, k, puts, changes, items, name);
      ghost var put := if IsPush(p, k) then [Put(name)] else [];
      puts' := puts + put;
      ConcatAssoc(log0, puts, put);
    }

    /** All keys of one kind, in any order. */
    method SyncKeys(server: Server, snap: Store, remote: map<Key, seq<RemoteFile>>, keys: set<Key>, dels: seq<Name>,
                    changes: Changes, ghost p: Plan, ghost done: set<Key>, ghost log0: seq<Op>, ghost puts: seq<Op>)
      returns (dels': seq<Name>, changes': Changes, ghost puts': seq<Op>)
      requires p.Ok() && p.Clean() && p.snap == snap && Grouped(remote, p.listing, p.now) && keys !! done
      requires Progress(p, done, server.items, Local(), dels, changes) && Tally(p, done, puts, changes)
      requires server.log == log0 + puts
      modifies this, server
      ensures Progress(p, done + keys, server.items, Local(), dels', changes') && Tally(p, done + keys, puts', changes')
      ensures server.vars == old(server.vars) && server.log == log0 + puts'
    {
      dels', changes', puts' := dels, changes, puts;
      var todo := keys;
      ghost var did := done;
      while todo != {}
        invariant Splits(done + keys, did, todo)
        invariant Progress(p, did, server.items, Local(), dels', changes')
        invariant Tally(p, did, puts', changes')
        invariant server.vars == old(server.vars) && server.log == log0 + puts'
        decreases todo
      {
        var k :| k in todo;
        MoveOver(done + keys, did, todo, k);
        dels', changes', puts' := SyncNext(server, snap, remote, k, dels', changes', p, did, log0, puts');
        todo, did := todo - {k}, did + {k};
      }
      AllMoved(done + keys, did);
    }

    /** `UpsertButtons` and `UpsertPages` with force, on the copies seen as maps. */
    method ApplyChanges(changes: Changes)
      requires Distinct(changes)
      modifies this
      ensures Local() == ChangeAll(old(Local()), MapOf(changes))
    {
      var i := 0;
      assert changes[..0] == [];
      while i < |changes|
        invariant 0 <= i <= |changes|
        invariant Local() == Fold(old(Local()), changes[..i])
      {
        var (k, c) := changes[i];
        assert changes[..i + 1][..i] == changes[..i];
        match c {
          case Replace(item) =>
            active := active[k := item];
          case Erase(ts) =>
            if k in active {
              active := active - {k};
              tombs := tombs[k := ts];
            }
        }
        i := i + 1;
      }
      assert changes[..|changes|] == changes;
      FoldIsChangeAll(old(Local()), changes);
    }

    /** Store and upload a merge, and list the files to delete; `keep` stays. */
    method WriteVars(server: Server, varsFiles: seq<VarsFile>, now: nat, dels: seq<Name>, keep: Option<VarsFile>,
                     merged: VarsDoc, localDiffers: bool, remoteDiffers: bool)
      returns (dels': seq<Name>, ghost more: seq<Op>)
      requires NoDup(varsFiles) && NoDup(dels) && forall f <- varsFiles :: VarsName(f) !in dels
      requires localDiffers <==> vars.Doc() != merged
      modifies server, vars
      ensures vars.Doc() == merged && server.items == old(server.items)
      ensures server.vars == if remoteDiffers then old(server.vars)[UploadFile(merged.mtime, now) := merged]
                             else old(server.vars)
      ensures OnlyPuts(more) && |more| == One(remoteDiffers) && server.log == old(server.log) + more
      ensures NoDup(dels')
      ensures forall n :: n in dels' <==>
                n in dels || (n.VarsName? && n.vars in varsFiles && (remoteDiffers || Some(n.vars) != keep))
    {
      if localDiffers {
        vars.SetVars(merged);
      }
      more := [];
      if remoteDiffers {
        var maxTS := LatestTime(merged.mtime);
        var file := VarsFile(false, if maxTS <= 0 then now else maxTS);
        server.PutVars(file, merged);
        more := [Put(VarsName(file))];
        dels' := AppendVars(dels, varsFiles, None);
      } else {
        dels' := AppendVars(dels, varsFiles, keep);
      }
    }

    /** The DELETE requests at the end. */
    method DeleteFiles(server: Server, dels: seq<Name>)
      modifies server
      ensures server.items == old(server.items) - ItemsIn(dels)
      ensures server.vars == old(server.vars) - VarsIn(dels)
      ensures server.log == old(server.log) + DelOps(dels)
    {
      var i := 0;
      assert dels[..0] == [];
      assert server.items - {} == server.items && server.vars - {} == server.vars;
      while i < |dels|
        invariant 0 <= i <= |dels|
        invariant server.items == old(server.items) - ItemsIn(dels[..i])
        invariant server.vars == old(server.vars) - VarsIn(dels[..i])
        invariant server.log == old(server.log) + DelOps(dels[..i])
      {
        assert dels[..i + 1] == dels[..i] + [dels[i]];
        assert ItemsIn(dels[..i + 1]) == ItemsIn(dels[..i]) + (if dels[i].ItemName? then {dels[i].item} else {});
        assert VarsIn(dels[..i + 1]) == VarsIn(dels[..i]) + (if dels[i].VarsName? then {dels[i].vars} else {});
        assert DelOps(dels[..i + 1]) == DelOps(dels[..i]) + [Del(dels[i])];
        server.Delete(dels[i]);
        i := i + 1;
      }
      assert dels[..|dels|] == dels;
    }

    /** The button loop and the page loop. */
    method SyncItems(server: Server, listing: seq<Name>, now: nat, ghost p: Plan)
      returns (varsFiles: seq<VarsFile>, dels: seq<Name>, changes: Changes, ghost puts: seq<Op>)
      requires p.Ok() && p.Clean() && p.Starts(listing, server.items, server.vars, Local(), now)
      modifies this, server
      ensures varsFiles == VarsOf(listing, now) && server.vars == old(server.vars)
      ensures Progress(p, p.All(), server.items, Local(), dels, changes) && Tally(p, p.All(), puts, changes)
      ensures server.log == old(server.log) + puts
    {
      var snap := Local();
      var remote;
      remote, varsFiles, dels := Classify(listing, now);
      ProgressStart(p, dels);
      TallyStart(p);
      dels, changes, puts := SyncKinds(server, snap, remote, dels, p);
    }

    /** The keys of the buttons, then those of the pages. */
    method SyncKinds(server: Server, snap: Store, remote: map<Key, seq<RemoteFile>>, dels: seq<Name>, ghost p: Plan)
      returns (dels': seq<Name>, changes: Changes, ghost puts: seq<Op>)
      requires p.Ok() && p.Clean() && p.snap == snap && Grouped(remote, p.listing, p.now)
      requires Progress(p, {}, server.items, Local(), dels, []) && Tally(p, {}, [], [])
      modifies this, server
      ensures Progress(p, p.All(), server.items, Local(), dels', changes) && Tally(p, p.All(), puts, changes)
      ensures server.vars == old(server.vars) && server.log == old(server.log) + puts
    {
      var buttonIDs, pageIDs := KeysOf(snap, remote, Button), KeysOf(snap, remote, Page);
      KeysOfBothKinds(p, remote);
      assert {} + buttonIDs == buttonIDs;
      assert server.log + [] == server.log;
      dels', changes, puts := SyncKeys(server, snap, remote, buttonIDs, dels, [], p, {}, server.log, []);
      dels', changes, puts := SyncKeys(server, snap, remote, pageIDs, dels', changes, p, buttonIDs, old(server.log), puts);
    }

    /** The variables: merge, store what differs, upload what differs, and complete the delete list. */
    method SyncVars(server: Server, varsFiles: seq<VarsFile>, now: nat, readable: bool, dels: seq<Name>, ghost p: Plan)
      returns (ghost w: Option<VarsFile>, ghost more: seq<Op>, dels': seq<Name>)
      requires p.Ok() && p.vars == server.vars && p.now == now && varsFiles == VarsOf(p.listing, p.now)
      requires DelSet(p, p.All(), dels)
      modifies server, vars
      ensures w == Fetched(BestVars(varsFiles), readable) && Usable(w, p.vars, p.now) &&
          server.items == old(server.items)
      ensures var merged := Merged(old(vars.Doc()), RemoteDoc(w, p.vars), now);
              && vars.Doc() == merged
              && server.vars == (if RemoteDiffers(w, p.vars, merged) then p.vars[UploadFile(merged.mtime, now) := merged]
                                 else p.vars)
              && DelList(p, KeptFile(w, p.vars, merged), dels')
              && |more| == One(RemoteDiffers(w, p.vars, merged))
      ensures OnlyPuts(more) && server.log == old(server.log) + more
    {
      var best, merged, localDiffers, remoteDiffers := CompareVars(vars.Doc(), server.vars, varsFiles, now, readable);
      w := best;
      var keep := if Loaded(best) then best else None;
      dels', more := WriteVars(server, varsFiles, now, dels, keep, merged, localDiffers, remoteDiffers);
      ghost var kept := KeptFile(w, p.vars, merged);
      assert forall f :: f in kept <==> !remoteDiffers && Some(f) == keep;
      DelListDone(p, kept, dels, dels');
    }

    /** The local changes, then the DELETEs. */
    method Finish(server: Server, changes: Changes, dels: seq<Name>)
      requires Distinct(changes)
      modifies this, server
      ensures Local() == ChangeAll(old(Local()), MapOf(changes))
      ensures server.items == old(server.items) - ItemsIn(dels) && server.vars == old(server.vars) - VarsIn(dels)
      ensures server.log == old(server.log) + DelOps(dels)
    {
      ApplyChanges(changes);
      DeleteFiles(server, dels);
    }

    /** The variables, after which what the local changes and the DELETEs will lead to is settled. */
    method TreatVars(server: Server, varsFiles: seq<VarsFile>, now: nat, readable: bool, dels: seq<Name>,
                     ghost changes: Changes, ghost p: Plan)
      returns (ghost w: Option<VarsFile>, ghost more: seq<Op>, dels': seq<Name>)
      requires p.Ok() && p.vars == server.vars && p.now == now && varsFiles == VarsOf(p.listing, p.now)
      requires Progress(p, p.All(), server.items, Local(), dels, changes)
      modifies server, vars
      ensures w == Fetched(BestVars(varsFiles), readable)
      ensures Outcome(p, old(vars.Doc()), w, server.items - ItemsIn(dels'), server.vars - VarsIn(dels'),
                      ChangeAll(Local(), MapOf(changes)), vars.Doc())
      ensures OnlyPuts(more) && server.log == old(server.log) + more
      ensures |more| == One(RemoteDiffers(w, p.vars, vars.Doc())) && DelList(p, KeptFile(w, p.vars, vars.Doc()), dels')
    {
      ghost var items, store, local := server.items, Local(), vars.Doc();
      w, more, dels' := SyncVars(server, varsFiles, now, readable, dels, p);
      assert Local() == store && server.items == items;
      OutcomeReached(p, local, w, items, store, server.vars, dels, changes, dels');
    }

    /** The rest of a run: the variables, then the local changes, then the DELETEs. */
    method SyncRest(server: Server, varsFiles: seq<VarsFile>, now: nat, readable: bool, dels: seq<Name>,
                    changes: Changes, ghost p: Plan, ghost log0: seq<Op>, ghost puts: seq<Op>)
      returns (ghost w: Option<VarsFile>, ghost puts': seq<Op>, dels': seq<Name>)
      requires p.Ok() && p.vars == server.vars && p.now == now && varsFiles == VarsOf(p.listing, p.now)
      requires Progress(p, p.All(), server.items, Local(), dels, changes) && Tally(p, p.All(), puts, changes)
      requires server.log == log0 + puts
      modifies this, server, vars
      ensures w == Fetched(BestVars(varsFiles), readable) &&
          Outcome(p, old(vars.Doc()), w, server.items, server.vars, Local(), vars.Doc())
      ensures OnlyPuts(puts') && server.log == log0 + puts' + DelOps(dels')
      ensures |puts'| == |puts| + One(RemoteDiffers(w, p.vars, vars.Doc())) &&
          DelList(p, KeptFile(w, p.vars, vars.Doc()), dels')
    {
      ghost var more;
      w, more, dels' := TreatVars(server, varsFiles, now, readable, dels, changes, p);
      puts' := puts + more;
      ConcatAssoc(log0, puts, more);
      Finish(server, changes, dels');
    }

    /** A run on a device whose deletion lists have just been cleaned. */
    method SyncCleaned(server: Server, listing: seq<Name>, now: nat, readable: bool, ghost p: Plan)
      returns (ghost w: Option<VarsFile>, ghost puts: seq<Op>, dels: seq<Name>, changes: Changes)
      requires p.Ok() && p.Clean() && p.Starts(listing, server.items, server.vars, Local(), now)
      modifies this, server, vars
      ensures w == Fetched(BestVars(VarsOf(listing, now)), readable) &&
          Outcome(p, old(vars.Doc()), w, server.items, server.vars, Local(), vars.Doc())
      ensures OnlyPuts(puts) && server.log == old(server.log) + puts + DelOps(dels)
      ensures Reported(p, old(vars.Doc()), w, |puts|, changes, vars.Doc(), dels)
    {
      var varsFiles;
      varsFiles, dels, changes, puts := SyncItems(server, listing, now, p);
      ghost var local, puts0 := vars.Doc(), puts;
      w, puts, dels := SyncRest(server, varsFiles, now, readable, dels, changes, p, old(server.log), puts);
      ReportedIs(p, local, w, puts0, |puts|, changes, vars.Doc(), dels);
    }

    /** One synchronisation. `listing` is the answer to PROPFIND, `now` the clock, and `readable` says
        whether the best variables file can be fetched, decrypted and decoded. The folder, the local items
        and the variables end up as `Replication` and `VarsSync` say (`Outcome`); all PUTs come before
        all DELETEs; and their numbers, and those of the local changes, are the `Expected` ones
        (`Reported`). */
    method PerformSync(server: Server, listing: seq<Name>, now: nat, readable: bool)
      returns (ghost p: Plan, ghost w: Option<VarsFile>, ghost puts: seq<Op>, ghost dels: seq<Name>,
               ghost changes: Changes)
      requires Lists(listing, server.items, server.vars)
      modifies this, server, vars
      ensures p == PlanOf(listing, old(server.items), old(server.vars), Cleaned(old(Local()), now), now) && p.Ok()
      ensures w == Fetched(BestVars(VarsOf(listing, now)), readable) &&
          Outcome(p, old(vars.Doc()), w, server.items, server.vars, Local(), vars.Doc())
      ensures OnlyPuts(puts) && server.log == old(server.log) + puts + DelOps(dels)
      ensures Reported(p, old(vars.Doc()), w, |puts|, changes, vars.Doc(), dels)
    {
      CleanDeletedMaps(now);
      CleanedTwice(old(Local()), now);
      PlanOfOk(listing, server.items, server.vars, Local(), now);
      p := PlanOf(listing, server.items, server.vars, Local(), now);
      var dels1, changes1;
      w, puts, dels1, changes1 := SyncCleaned(server, listing, now, readable, p);
      dels, changes := dels1, changes1;
    }
  }

  function ItemsIn(names: seq<Name>): set<RemoteFile> {
    set n | n in names && n.ItemName? :: n.item
  }

  function VarsIn(names: seq<Name>): set<VarsFile> {
    set n | n in names && n.VarsName? :: n.vars
  }

  function DelOps(names: seq<Name>): seq<Op> {
    seq(|names|, i requires 0 <= i < |names| => Del(names[i]))
  }

  /** Pick the newest variables file, download it (a failure counts as no file), merge, and compare the
      merge with both sides. */
  method CompareVars(local: VarsDoc, folder: VarsFolder, varsFiles: seq<VarsFile>, now: nat, readable: bool)
    returns (w: Option<VarsFile>, merged: VarsDoc, localDiffers: bool, remoteDiffers: bool)
    requires forall f :: f in varsFiles <==> f in folder && !Lapsed(f, now)
    ensures w == Fetched(BestVars(varsFiles), readable) && Usable(w, folder, now)
    ensures merged == Merged(local, RemoteDoc(w, folder), now)
    ensures localDiffers <==> local != merged
    ensures remoteDiffers <==> RemoteDiffers(w, folder, merged)
  {
    w := PickVars(varsFiles);
    assert varsFiles != [] ==> varsFiles[0] in varsFiles;
    if !readable {
      w := None;
    }
    var remote := if Loaded(w) then folder[w.value] else EMPTY;
    merged := MergeDocs(local, remote, now);
    localDiffers := Differs(local, merged);
    if Loaded(w) {
      remoteDiffers := Differs(remote, merged);
    } else {
      remoteDiffers := merged.mtime != map[];
    }
  }

  /** The scan over the listed variables files. */
  method PickVars(files: seq<VarsFile>) returns (w: Option<VarsFile>)
    ensures w == BestVars(files)
  {
    w := None;
    var i := 0;
    assert files[..0] == [];
    while i < |files|
      invariant 0 <= i <= |files| && w == BestVars(files[..i])
    {
      assert files[..i + 1][..i] == files[..i];
      if w.None? || files[i].ts > w.value.ts {
        w := Some(files[i]);
      }
      i := i + 1;
    }
    assert files[..|files|] == files;
  }

  /** The greatest modification time, -1 for none. */
  method LatestTime(m: map<string, int>) returns (t: int)
    ensures t == MaxTime(m)
  {
    t := -1;
    var todo := m.Keys;
    while todo != {}
      invariant todo <= m.Keys && t >= -1
      invariant forall k <- m :: k !in todo ==> m[k] <= t
      invariant t == -1 || exists k <- m :: m[k] == t
      decreases todo
    {
      var k :| k in todo;
      todo := todo - {k};
      if m[k] > t {
        t := m[k];
      }
    }
  }

  /** Put every listed variables file on the delete list, except the one to keep. */
  method AppendVars(dels: seq<Name>, files: seq<VarsFile>, keep: Option<VarsFile>) returns (dels': seq<Name>)
    requires NoDup(files) && NoDup(dels) && forall f <- files :: VarsName(f) !in dels
    ensures NoDup(dels')
    ensures forall n :: n in dels' <==> n in dels || (n.VarsName? && n.vars in files && Some(n.vars) != keep)
  {
    dels' := dels;
    var i := 0;
    while i < |files|
      invariant 0 <= i <= |files| && NoDup(dels')
      invariant forall n :: n in dels' <==> n in dels || (n.VarsName? && n.vars in files[..i] && Some(n.vars) != keep)
    {
      assert files[i] !in files[..i];
      if Some(files[i]) != keep {
        dels' := dels' + [VarsName(files[i])];
      }
      i := i + 1;
    }
    assert files[..|files|] == files;
  }

  // ---- The dry run ----

  /** The dry run of one key: scan it, count, and adjust the delete list. */
  method DetectKey(snap: Store, remote: map<Key, seq<RemoteFile>>, k: Key, dels: seq<Name>, ghost p: Plan)
    returns (up: nat, down: nat, del: nat, dels': seq<Name>)
    requires p.Ok() && p.snap == snap && Grouped(remote, p.listing, p.now)
    requires NoDup(dels) && forall f <- Group(p.listing, k, p.now) :: ItemName(f) !in dels
    ensures up == One(IsPush(p, k)) && down == One(IsPull(p, k, false)) && del == One(IsPull(p, k, true))
    ensures KeyScanned(p, k, dels, dels')
  {
    up, down, del := 0, 0, 0;
    assert k in p.w ==> Best(Group(p.listing, k, p.now)) == Some(p.w[k]);
    var w: Option<RemoteFile>;
    w, dels' := ScanKey(if k in remote then remote[k] else [], dels);
    assert w == if k in p.w then Some(p.w[k]) else None;
    var localTS := LocalTS(snap, k);
    var remoteTS := if w.Some? then w.value.ts else -1;
    if localTS > remoteTS {
      up := 1;
    } else if remoteTS > localTS {
      if !w.value.deleted {
        down := 1;
      } else {
        del := 1;
      }
      dels' := RemoveFromSlice(dels', ItemName(w.value));
    } else if remoteTS >= 0 {
      dels' := RemoveFromSlice(dels', ItemName(w.value));
    }
  }

  ghost predicate Counted(p: Plan, done: set<Key>, up: nat, down: nat, del: nat, dels: seq<Name>) {
    && up == |PushKeys(p, done)| && down == |PullKeys(p, done, false)| && del == |PullKeys(p, done, true)|
    && DelSet(p, done, dels)
  }

  method DetectKeys(snap: Store, remote: map<Key, seq<RemoteFile>>, keys: set<Key>, up: nat, down: nat, del: nat,
                    dels: seq<Name>, ghost p: Plan, ghost done: set<Key>)
    returns (up': nat, down': nat, del': nat, dels': seq<Name>)
    requires p.Ok() && p.snap == snap && Grouped(remote, p.listing, p.now) && keys !! done
    requires Counted(p, done, up, down, del, dels)
    ensures Counted(p, done + keys, up', down', del', dels')
  {
    up', down', del', dels' := up, down, del, dels;
    var todo := keys;
    ghost var did := done;
    while todo != {}
      invariant Splits(done + keys, did, todo)
      invariant Counted(p, did, up', down', del', dels')
      decreases todo
    {
      var k :| k in todo;
      MoveOver(done + keys, did, todo, k);
      ScanFits(p, did, k, dels');
      ghost var before := dels';
      var u, d, x;
      u, d, x, dels' := DetectKey(snap, remote, k, dels', p);
      DelStep(p, did, k, before, dels');
      CountStep(p, did, k);
      up', down', del' := up' + u, down' + d, del' + x;
      todo, did := todo - {k}, did + {k};
    }
    AllMoved(done + keys, did);
  }

  /** The two loops of the dry run. */
  method DetectItems(snap: Store, listing: seq<Name>, now: nat, ghost p: Plan)
    returns (up: nat, down: nat, del: nat, varsFiles: seq<VarsFile>, dels: seq<Name>)
    requires p.Ok() && p.listing == listing && p.snap == snap && p.now == now
    ensures Counted(p, p.All(), up, down, del, dels) && varsFiles == VarsOf(listing, now)
  {
    var remote;
    remote, varsFiles, dels := Classify(listing, now);
    var buttonIDs, pageIDs := KeysOf(snap, remote, Button), KeysOf(snap, remote, Page);
    KeysOfBothKinds(p, remote);
    assert {} + buttonIDs == buttonIDs;
    TallyStart(p);
    ProgressStart(p, dels);
    up, down, del, dels := DetectKeys(snap, remote, buttonIDs, 0, 0, 0, dels, p, {});
    up, down, del, dels := DetectKeys(snap, remote, pageIDs, up, down, del, dels, p, buttonIDs);
  }

  /** The variables part of the dry run. */
  method DetectVars(local: VarsDoc, folder: VarsFolder, varsFiles: seq<VarsFile>, now: nat, readable: bool,
                    dels: seq<Name>, ghost p: Plan)
    returns (up: nat, down: nat, ghost w: Option<VarsFile>, dels': seq<Name>)
    requires p.Ok() && p.vars == folder && p.now == now && DelSet(p, p.All(), dels) &&
        varsFiles == VarsOf(p.listing, p.now)
    ensures w == Fetched(BestVars(varsFiles), readable) && Usable(w, p.vars, p.now)
    ensures var merged := Merged(local, RemoteDoc(w, p.vars), p.now);
            && up == One(RemoteDiffers(w, p.vars, merged)) && down == One(local != merged)
            && DelList(p, KeptFile(w, p.vars, merged), dels')
  {
    var best, merged, localDiffers, remoteDiffers := CompareVars(local, folder, varsFiles, now, readable);
    w := best;
    up, down := 0, 0;
    if localDiffers {
      down := 1;
    }
    if remoteDiffers {
      up := 1;
      dels' := AppendVars(dels, varsFiles, None);
    } else {
      dels' := AppendVars(dels, varsFiles, if Loaded(best) then best else None);
    }
    DelListDone(p, KeptFile(best, p.vars, merged), dels, dels');
  }

  /** The numbers of PUTs, local replacements, local deletions and DELETEs are the expected ones. */
  ghost predicate Reported(p: Plan, local: VarsDoc, w: Option<VarsFile>, puts: nat, changes: Changes, doc: VarsDoc,
                           dels: seq<Name>)
    requires w.Some? ==> w.value in p.vars
  {
    Expected(p, local, w) == Counts(puts, Replaces(changes) + One(local != doc), Erasures(changes), |dels|)
  }

  lemma {:induction false} ReportedIs(p: Plan, local: VarsDoc, w: Option<VarsFile>, puts: seq<Op>, n: nat,
                                      changes: Changes, doc: VarsDoc, dels: seq<Name>)
    requires p.Ok() && (w.Some? ==> w.value in p.vars) && doc == Merged(local, RemoteDoc(w, p.vars), p.now)
    requires Tally(p, p.All(), puts, changes) && n == |puts| + One(RemoteDiffers(w, p.vars, doc))
    requires DelList(p, KeptFile(w, p.vars, doc), dels)
    ensures Reported(p, local, w, n, changes, doc, dels)
  {
    ExpectedIs(p, local, w, |puts|, Replaces(changes), Erasures(changes), One(RemoteDiffers(w, p.vars, doc)),
      One(local != doc), dels);
  }

  lemma {:induction false} ExpectedIs(p: Plan, local: VarsDoc, w: Option<VarsFile>, up: nat, down: nat, del: nat,
                                      upVars: nat, downVars: nat, dels: seq<Name>)
    requires p.Ok() && (w.Some? ==> w.value in p.vars)
    requires up == |PushKeys(p, p.All())| && down == |PullKeys(p, p.All(), false)| &&
        del == |PullKeys(p, p.All(), true)|
    requires var merged := Merged(local, RemoteDoc(w, p.vars), p.now);
             && upVars == One(RemoteDiffers(w, p.vars, merged)) && downVars == One(local != merged)
             && DelList(p, KeptFile(w, p.vars, merged), dels)
    ensures Expected(p, local, w) == Counts(up + upVars, down + downVars, del, |dels|)
  {
    DelListSize(p, KeptFile(w, p.vars, Merged(local, RemoteDoc(w, p.vars), p.now)), dels);
  }

  const NOTHING := Counts(0, 0, 0, 0)

  /** `DetectChanges` on an unencrypted folder. If no item and no variables file is listed, nor anything
      else that the application knows (`others`), the folder is taken for a new one and nothing is
      counted. Otherwise the four numbers are `Expected` for the device as it is: the dry run does not
      clean the deletion lists, as a run does first. */
  method DetectChanges(device: Device, server: Server, listing: seq<Name>, others: bool, now: nat, readable: bool)
    returns (brandNew: bool, counts: Counts)
    requires Lists(listing, server.items, server.vars)
    ensures IsBest(BestVars(VarsOf(listing, now)), server.vars, now)
    ensures brandNew <==> listing == [] && !others
    ensures brandNew ==> counts == NOTHING
    ensures !brandNew ==>
        counts == Expected(PlanOf(listing, server.items, server.vars, device.Local(), now), device.vars.Doc(),
                                             Fetched(BestVars(VarsOf(listing, now)), readable))
  {
    BestListed(listing, server.items, server.vars, now);
    brandNew, counts := listing == [] && !others, NOTHING;
    if !brandNew {
      counts := DetectCounts(device, server, listing, now, readable);
    }
  }

  lemma {:induction false} BestListed(listing: seq<Name>, items: Folder, vars: VarsFolder, now: int)
    requires Lists(listing, items, vars)
    ensures IsBest(BestVars(VarsOf(listing, now)), vars, now)
  {
    var g := VarsOf(listing, now);
    assert g != [] ==> g[0] in g;
    assert forall f :: f in g <==> f in vars && !Lapsed(f, now);
  }

  method DetectCounts(device: Device, server: Server, listing: seq<Name>, now: nat,
                      readable: bool) returns (counts: Counts)
    requires Lists(listing, server.items, server.vars)
    ensures Usable(Fetched(BestVars(VarsOf(listing, now)), readable), server.vars, now)
    ensures counts == Expected(PlanOf(listing, server.items, server.vars, device.Local(), now), device.vars.Doc(),
                               Fetched(BestVars(VarsOf(listing, now)), readable))
  {
    ghost var p := PlanOf(listing, server.items, server.vars, device.Local(), now);
    PlanOfOk(listing, server.items, server.vars, device.Local(), now);
    var up, down, del, varsFiles, dels := DetectItems(device.Local(), listing, now, p);
    var upVars, downVars;
    ghost var w;
    upVars, downVars, w, dels := DetectVars(device.vars.Doc(), server.vars, varsFiles, now, readable, dels, p);
    ExpectedIs(p, device.vars.Doc(), w, up, down, del, upVars, downVars, dels);
    counts := Counts(up + upVars, down + downVars, del, |dels|);
  }

  /** Nothing is expected of a run on an empty folder exactly when the device holds nothing. */
  lemma {:induction false} ExpectedEmpty(p: Plan, local: VarsDoc)
    requires p.Ok() && p.listing == []
    ensures Expected(p, local, None) == NOTHING <==> Known(p.snap) == {} && local == EMPTY
  {
    NothingListed(p);
    assert Known(p.snap) == {} <==> |Known(p.snap)| == 0;
    NothingMerged(local, p.now);
  }

  lemma {:induction false} NothingListed(p: Plan)
    requires p.Ok() && p.listing == []
    ensures PushKeys(p, p.All()) == Known(p.snap) && DoomedNames(p, {}) == {}
    ensures PullKeys(p, p.All(), false) == {} && PullKeys(p, p.All(), true) == {}
  {
    forall k ensures k !in p.w {
      assert Group(p.listing, k, p.now) == [];
    }
    assert p.All() == Known(p.snap);
  }

  lemma {:induction false} NothingMerged(local: VarsDoc, now: nat)
    ensures var merged := Merged(local, EMPTY, now); merged.mtime == map[] && local == merged <==> local == EMPTY
  {
    var merged := Merged(local, EMPTY, now);
    assert merged.mtime == map[] ==> merged.vars == map[];
    assert local == EMPTY ==> merged == EMPTY;
  }

  /** The empty folder and one item on the device: nothing is announced, and the run uploads it. */
  lemma {:induction false} BrandNewExample(k: Key, item: Item, now: nat)
    ensures var s := Store(map[k := item], map[]);
      var p := PlanOf([], map[], map[], s, now);
      s == Cleaned(s, now) && Expected(p, EMPTY, None).uploads == 1
  {
    var s := Store(map[k := item], map[]);
    var p := PlanOf([], map[], map[], s, now);
    assert Known(s) == {k} && p.w == map[];
    assert PushKeys(p, p.All()) == {k};
    assert Merged(EMPTY, EMPTY, now).mtime == map[];
  }

  /** The items that a run removes from the device: pulled deletions of items that are there. */
  lemma {:induction false} RemovedHere(p: Plan)
    requires forall k <- p.w :: p.w[k] in p.items
    ensures p.snap.active.Keys - Applied(p.snap, p.w, p.items).active.Keys ==
        PullKeys(p, p.All(), true) * p.snap.active.Keys
  {
  }

  lemma {:induction false} RemovedCount(p: Plan)
    ensures |PullKeys(p, p.All(), true) * p.snap.active.Keys| <= |PullKeys(p, p.All(), true)|
    ensures |PullKeys(p, p.All(), true) * p.snap.active.Keys| == |PullKeys(p, p.All(), true)|
            <==> forall k :: IsPull(p, k, true) ==> k in p.snap.active
  {
    var pulled, here := PullKeys(p, p.All(), true), p.snap.active.Keys;
    assert pulled == (pulled * here) + (pulled - here);
    assert |pulled| == |pulled * here| + |pulled - here|;
    assert |pulled - here| == 0 <==> pulled - here == {};
    assert forall k :: IsPull(p, k, true) <==> k in pulled;
  }

  // ---- Deletions that a run forgets ----

  /** The device recorded a deletion that has expired. A run forgets it first, the dry run counts it. */
  predicate Forgotten(q: Plan, k: Key) {
    k in q.snap.tombs && k !in q.snap.active && q.now - q.snap.tombs[k] > MAX_AGE
  }

  /** And it makes a difference: nothing newer is in the folder. */
  ghost predicate Late(q: Plan, k: Key) {
    Forgotten(q, k) && q.snap.tombs[k] >= RemoteTS(q.w, k)
  }

  lemma {:induction false} CleanedKey(q: Plan, p: Plan, k: Key)
    requires p == q.(snap := Cleaned(q.snap, q.now))
    ensures k in Known(p.snap) <==> k in Known(q.snap) && !Forgotten(q, k)
    ensures LocalTS(p.snap, k) == if Forgotten(q, k) then -1 else LocalTS(q.snap, k)
  {
  }

  lemma {:induction false} PushedKeys(q: Plan, p: Plan)
    requires p == q.(snap := Cleaned(q.snap, q.now))
    ensures PushKeys(p, p.All()) <= PushKeys(q, q.All())
    ensures forall k :: k in PushKeys(q, q.All()) - PushKeys(p, p.All()) <==>
                        Forgotten(q, k) && q.snap.tombs[k] > RemoteTS(q.w, k)
  {
    forall k
      ensures k in PushKeys(p, p.All()) <==> k in PushKeys(q, q.All()) && !Forgotten(q, k)
      ensures Forgotten(q, k) && q.snap.tombs[k] > RemoteTS(q.w, k) ==> k in PushKeys(q, q.All())
    {
      CleanedKey(q, p, k);
    }
  }

  lemma {:induction false} PulledKeys(q: Plan, p: Plan, b: bool)
    requires p == q.(snap := Cleaned(q.snap, q.now))
    ensures PullKeys(q, q.All(), b) <= PullKeys(p, p.All(), b)
    ensures forall k :: k in PullKeys(p, p.All(), b) - PullKeys(q, q.All(), b)
                        <==> Forgotten(q, k) && k in q.w && q.w[k].deleted == b && q.snap.tombs[k] >= q.w[k].ts
  {
    forall k
      ensures k in PullKeys(p, p.All(), b) <==>
              k in PullKeys(q, q.All(), b) ||
                (Forgotten(q, k) && k in q.w && q.w[k].deleted == b && q.snap.tombs[k] >= q.w[k].ts)
      ensures k in PullKeys(q, q.All(), b) ==> !(Forgotten(q, k) && q.snap.tombs[k] >= q.w[k].ts)
    {
      CleanedKey(q, p, k);
    }
  }

  lemma {:induction false} SameKept(q: Plan, p: Plan, kept: set<VarsFile>)
    requires p == q.(snap := Cleaned(q.snap, q.now)) && forall k :: !Late(q, k)
    ensures DoomedNames(p, kept) == DoomedNames(q, kept)
  {
    forall k | k in q.w ensures Pushes(p.snap, p.w, k) <==> Pushes(q.snap, q.w, k) {
      CleanedKey(q, p, k);
      assert !Late(q, k);
    }
    assert Kept(p.snap, p.w) == Kept(q.snap, q.w);
  }

  lemma {:induction false} SubsetSize<T>(a: set<T>, b: set<T>)
    requires a <= b
    ensures |a| <= |b| && (|a| == |b| <==> b - a == {})
  {
    assert b == a + (b - a);
  }

  lemma {:induction false} LateCounts(q: Plan, p: Plan, k: Key)
    requires p == q.(snap := Cleaned(q.snap, q.now)) && Late(q, k)
    ensures || |PushKeys(q, q.All())| != |PushKeys(p, p.All())|
            || exists b :: |PullKeys(q, q.All(), b)| != |PullKeys(p, p.All(), b)|
  {
    if q.snap.tombs[k] > RemoteTS(q.w, k) {
      PushedKeys(q, p);
      SubsetSize(PushKeys(p, p.All()), PushKeys(q, q.All()));
      assert k in PushKeys(q, q.All()) - PushKeys(p, p.All());
    } else {
      var b := q.w[k].deleted;
      PulledKeys(q, p, b);
      SubsetSize(PullKeys(q, q.All(), b), PullKeys(p, p.All(), b));
      assert k in PullKeys(p, p.All(), b) - PullKeys(q, q.All(), b);
    }
  }

  lemma {:induction false} NoneLateCounts(q: Plan, p: Plan, b: bool)
    requires p == q.(snap := Cleaned(q.snap, q.now)) && forall k :: !Late(q, k)
    ensures |PushKeys(q, q.All())| == |PushKeys(p, p.All())| && |PullKeys(q, q.All(), b)| == |PullKeys(p, p.All(), b)|
  {
    NoneLate(q, p);
    PushedKeys(q, p);
    PulledKeys(q, p, b);
    SubsetSize(PushKeys(p, p.All()), PushKeys(q, q.All()));
    SubsetSize(PullKeys(q, q.All(), b), PullKeys(p, p.All(), b));
  }

  /** Cleaning first or not makes no difference in the numbers exactly if no deletion is late. */
  lemma {:induction false} ExpectedUncleaned(q: Plan, p: Plan, local: VarsDoc, w: Option<VarsFile>)
    requires p == q.(snap := Cleaned(q.snap, q.now)) && (w.Some? ==> w.value in q.vars)
    ensures Expected(q, local, w) == Expected(p, local, w) <==> forall k :: !Late(q, k)
  {
    if k :| Late(q, k) {
      LateCounts(q, p, k);
      var b :| |PushKeys(q, q.All())| != |PushKeys(p, p.All())| || |PullKeys(q, q.All(), b)| != |PullKeys(p, p.All(), b)|;
      assert b == true || b == false;
    } else {
      NoneLateCounts(q, p, false);
      NoneLateCounts(q, p, true);
      SameKept(q, p, KeptFile(w, p.vars, Merged(local, RemoteDoc(w, p.vars), p.now)));
    }
  }

  lemma {:induction false} NoneLate(q: Plan, p: Plan)
    requires p == q.(snap := Cleaned(q.snap, q.now)) && forall k :: !Late(q, k)
    ensures PushKeys(q, q.All()) - PushKeys(p, p.All()) == {}
    ensures forall b :: PullKeys(p, p.All(), b) - PullKeys(q, q.All(), b) == {}
  {
    PushedKeys(q, p);
    forall k ensures k !in PushKeys(q, q.All()) - PushKeys(p, p.All()) {
      assert !Late(q, k);
    }
    forall b ensures PullKeys(p, p.All(), b) - PullKeys(q, q.All(), b) == {} {
      PulledKeys(q, p, b);
      forall k ensures k !in PullKeys(p, p.All(), b) - PullKeys(q, q.All(), b) {
        assert !Late(q, k);
      }
    }
  }

  /** The folder is taken for a new one and the device has nothing that a run keeps, or it is not and no late
      deletion is recorded. */
  ghost predicate TellsTruth(q: Plan, local: VarsDoc, brandNew: bool) {
    if brandNew then Known(Cleaned(q.snap, q.now)) == {} && local == EMPTY else forall k :: !Late(q, k)
  }

  /** Every pulled deletion is of an item that is there. */
  ghost predicate AllThere(q: Plan) {
    forall k :: IsPull(q, k, true) ==> k in q.snap.active
  }

  /** When the dry run tells the truth, on any device and folder. It announces exactly the numbers of PUTs,
      local updates, pulled deletions and DELETEs that a run at the same moment then issues, whatever
      order the keys are treated in, if and only if `TellsTruth`. The pulled deletions are at least as
      many as the items that really go, and as many exactly when every one of them is of an item that
      is there. `q` is what the dry run sees. */
  method DetectThenSync(device: Device, server: Server, listing: seq<Name>, others: bool, now: nat, readable: bool)
    returns (brandNew: bool, counts: Counts, ghost q: Plan, ghost puts: seq<Op>, ghost dels: seq<Name>,
             ghost changes: Changes)
    requires Lists(listing, server.items, server.vars)
    modifies device, server, device.vars
    ensures q == PlanOf(listing, old(server.items), old(server.vars), old(device.Local()), now)
    ensures server.log == old(server.log) + puts + DelOps(dels) && OnlyPuts(puts)
    ensures brandNew <==> listing == [] && !others
    ensures var downloads := Replaces(changes) + One(old(device.vars.Doc()) != device.vars.Doc());
      counts == Counts(|puts|, downloads, Erasures(changes), |dels|) <==> TellsTruth(q, old(device.vars.Doc()), brandNew)
    ensures counts.localDeletes >= |old(device.active).Keys - device.active.Keys|
    ensures counts.localDeletes == |old(device.active).Keys - device.active.Keys| <==> AllThere(q)
  {
    q := PlanOf(listing, server.items, server.vars, device.Local(), now);
    PlanOfOk(listing, server.items, server.vars, device.Local(), now);
    ghost var was, local := device.Local(), device.vars.Doc();
    brandNew, counts := DetectChanges(device, server, listing, others, now, readable);
    ghost var p, w;
    p, w, puts, dels, changes := device.PerformSync(server, listing, now, readable);
    assert q.snap == was && p == q.(snap := Cleaned(q.snap, q.now));
    Announced(q, p, local, w, |puts|, changes, device.vars.Doc(), dels, brandNew, counts);
    Removed(q, p, device.Local(), brandNew, local, w, counts);
  }

  lemma {:induction false} Announced(q: Plan, p: Plan, local: VarsDoc, w: Option<VarsFile>, n: nat, changes: Changes,
                                     doc: VarsDoc, dels: seq<Name>, brandNew: bool, counts: Counts)
    requires p.Ok() && p == q.(snap := Cleaned(q.snap, q.now))
    requires (w.Some? ==> w.value in p.vars) && Reported(p, local, w, n, changes, doc, dels)
    requires if brandNew then p.listing == [] && w == None && counts == NOTHING else counts == Expected(q, local, w)
    ensures counts == Counts(n, Replaces(changes) + One(local != doc), Erasures(changes), |dels|)
            <==> TellsTruth(q, local, brandNew)
  {
    if brandNew {
      ExpectedEmpty(p, local);
    } else {
      ExpectedUncleaned(q, p, local, w);
    }
  }

  /** Cleaning changes nothing in the pulled deletions of items that are there. */
  lemma {:induction false} RemovedSame(q: Plan, p: Plan)
    requires p == q.(snap := Cleaned(q.snap, q.now))
    ensures PullKeys(p, p.All(), true) * p.snap.active.Keys == PullKeys(q, q.All(), true) * q.snap.active.Keys
  {
    PulledKeys(q, p, true);
  }

  lemma {:induction false} Removed(q: Plan, p: Plan, after: Store, brandNew: bool, local: VarsDoc, w: Option<VarsFile>,
                                   counts: Counts)
    requires q.Ok() && p == q.(snap := Cleaned(q.snap, q.now))
    requires (w.Some? ==> w.value in p.vars) && (forall k <- p.w :: p.w[k] in p.items)
    requires after == Applied(p.snap, p.w, p.items)
    requires if brandNew then p.listing == [] && counts == NOTHING else counts == Expected(q, local, w)
    ensures var gone := |q.snap.active.Keys - after.active.Keys|;
      && counts.localDeletes >= gone
      && (counts.localDeletes == gone <==> AllThere(q))
  {
    if brandNew {
      NothingListed(q);
    }
    RemovedHere(p);
    RemovedSame(q, p);
    RemovedCount(q);
  }
}
