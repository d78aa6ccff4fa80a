/** The two local stores, the button list with the calls of `OnButtonDelete` and the scratchpad with the
    calls of `OnPageDelete`, are what the synchronisation takes them for: applying a batch with force
    changes them as `Interleaving.Change1` says, entry by entry. */
module LocalStore {
  import opened Basics
  import opened Deletions
  import opened Replication
  import opened Interleaving
  import opened SyncRun
  import BO = ButtonOrder
  import BL = ButtonList
  import SP = Scratchpad

  // ---- What a list and its deletion times look like to the synchronisation ----

  /** `s` has, for this kind, the items `m` and the deletion times `tombs`. */
  ghost predicate Shown<T>(kind: Kind, m: map<string, T>, time: T -> int, body: T -> string, tombs: map<string, int>,
                           s: Store) {
    forall id: string ::
      var k := Key(kind, id);
      && (k in s.active <==> id in m)
      && (id in m ==> s.active[k].ts == time(m[id]) && s.active[k].body == body(m[id]))
      && (k in s.tombs <==> id in tombs)
      && (id in tombs ==> s.tombs[k] == tombs[id])
  }

  lemma {:induction false} ReplaceShown<T>(kind: Kind, m: map<string, T>, time: T -> int, body: T -> string,
                                           tombs: map<string, int>, s: Store, id: string, x: T, item: Item)
    requires Shown(kind, m, time, body, tombs, s) && item.ts == time(x) && item.body == body(x)
    ensures Shown(kind, m[id := x], time, body, tombs, Change1(s, Key(kind, id), Replace(item)))
  {
  }

  lemma {:induction false} EraseShown<T>(kind: Kind, m: map<string, T>, time: T -> int, body: T -> string,
                                         tombs: map<string, int>, s: Store, id: string, ts: nat)
    requires Shown(kind, m, time, body, tombs, s)
    ensures Shown(kind, m - {id}, time, body, if id in m then tombs[id := ts] else tombs,
                  Change1(s, Key(kind, id), Erase(ts)))
  {
    assert Key(kind, id) in s.active <==> id in m;
  }

  /** Changes of one kind leave the other kind alone. */
  lemma {:induction false} OtherKind<T>(kind: Kind, m: map<string, T>, time: T -> int, body: T -> string,
                                        tombs: map<string, int>, s: Store, cs: Changes)
    requires Shown(kind, m, time, body, tombs, s) && forall c <- cs :: c.0.kind != kind
    ensures Shown(kind, m, time, body, tombs, Fold(s, cs))
    decreases |cs|
  {
    if cs != [] {
      OtherKind(kind, m, time, body, tombs, s, cs[..|cs| - 1]);
      assert cs[|cs| - 1] in cs;
    }
  }

  // ---- Buttons ----

  /** The entries that a run sends: buttons with an order, and deletions. */
  predicate ButtonEntry(b: BO.Button) {
    b.mtime >= 0 && (!IsDelete(b.id) ==> b.order != 0)
  }

  /** Nothing is missing that `UpsertButtons` would fill in first. */
  predicate Whole(b: BO.Button) {
    b.mtime != 0 && (!IsDelete(b.id) ==> b.id != "" && b.group != "" && b.typ != "")
  }

  /** A batch is applied as it came exactly when all its entries are whole. */
  lemma {:induction false} AppliedAsSent(bs: seq<BO.Button>, now: int, newIds: seq<string>)
    requires |newIds| == |bs| && now != 0 && forall x <- newIds :: x != ""
    ensures BL.NormalAll(bs, now, newIds) == bs <==> forall b <- bs :: Whole(b)
  {
    var r := BL.NormalAll(bs, now, newIds);
    forall i | 0 <= i < |bs| ensures r[i] == bs[i] <==> Whole(bs[i]) {
      assert newIds[i] in newIds;
      assert r[i] == BL.Normal(bs[i], now, newIds[i]);
    }
    if r == bs {
      forall b | b in bs ensures Whole(b) {
        var i :| 0 <= i < |bs| && bs[i] == b;
        assert r[i] == bs[i];
      }
    }
  }

  function ButtonChange(b: BO.Button, body: BO.Button -> string): (Key, Change)
    requires ButtonEntry(b)
  {
    if IsDelete(b.id) then (Key(Button, DeletedId(b.id)), Erase(b.mtime))
    else (Key(Button, b.id), Replace(Item(b.mtime, body(b))))
  }

  function ButtonChanges(bs: seq<BO.Button>, body: BO.Button -> string): (cs: Changes)
    requires forall b <- bs :: ButtonEntry(b)
    ensures forall c <- cs :: c.0.kind == Button
  {
    if bs == [] then [] else ButtonChanges(bs[..|bs| - 1], body) + [ButtonChange(bs[|bs| - 1], body)]
  }

  function ButtonTime(b: BO.Button): int {
    b.mtime
  }

  /** The deletion times after some calls. */
  function Noted(tombs: map<string, int>, calls: seq<(string, int)>): map<string, int> {
    if calls == [] then tombs else Noted(tombs, calls[..|calls| - 1])[calls[|calls| - 1].0 := calls[|calls| - 1].1]
  }

  lemma {:induction false} NotedOne(tombs: map<string, int>, calls: seq<(string, int)>, id: string, ts: int)
    ensures Noted(tombs, calls + [(id, ts)]) == Noted(tombs, calls)[id := ts]
  {
    assert (calls + [(id, ts)])[..|calls|] == calls;
  }

  ghost predicate ButtonsShown(u: BL.Upserting, body: BO.Button -> string, tombs: map<string, int>, s: Store) {
    BL.Unique(u.list) && Shown(Button, BL.ById(u.list), ButtonTime, body, Noted(tombs, u.deleted), s)
  }

  lemma {:induction false} ButtonStep(u: BL.Upserting, b: BO.Button, body: BO.Button -> string, tombs: map<string, int>,
                                      s: Store)
    requires ButtonEntry(b) && ButtonsShown(u, body, tombs, s)
    ensures var (k, c) := ButtonChange(b, body); ButtonsShown(BL.UpsertOne(u, b, true), body, tombs, Change1(s, k, c))
  {
    var m, t := BL.ById(u.list), Noted(tombs, u.deleted);
    BL.UpsertOneMap(u, b, true);
    if IsDelete(b.id) {
      var id := DeletedId(b.id);
      BL.ByIdMember(u.list, id);
      BL.ForcedCalls(u.list, id, b);
      EraseShown(Button, m, ButtonTime, body, t, s, id, b.mtime);
      if id in m {
        NotedOne(tombs, u.deleted, id, b.mtime);
      } else {
        assert m - {id} == m && u.deleted + [] == u.deleted;
      }
    } else {
      ReplaceShown(Button, m, ButtonTime, body, t, s, b.id, b, Item(b.mtime, body(b)));
    }
  }

  /** A forced batch of buttons changes the list and the recorded deletions as `Change1` does, entry by
      entry. */
  lemma {:induction false} ButtonsApplied(u: BL.Upserting, bs: seq<BO.Button>, body: BO.Button -> string,
                                          tombs: map<string, int>, s: Store)
    requires (forall b <- bs :: ButtonEntry(b)) && ButtonsShown(u, body, tombs, s)
    ensures ButtonsShown(BL.UpsertAll(u, bs, true), body, tombs, Fold(s, ButtonChanges(bs, body)))
    decreases |bs|
  {
    if bs != [] {
      var front, last := bs[..|bs| - 1], bs[|bs| - 1];
      assert last in bs;
      ButtonsApplied(u, front, body, tombs, s);
      var cs := ButtonChanges(front, body);
      ButtonStep(BL.UpsertAll(u, front, true), last, body, tombs, Fold(s, cs));
      assert (cs + [ButtonChange(last, body)])[..|cs|] == cs;
    }
  }

  // ---- Pages ----

  predicate PageEntry(p: SP.Page) {
    p.lastUpdated >= 0
  }

  function PageChange(p: SP.Page, body: SP.Page -> string): (Key, Change)
    requires PageEntry(p)
  {
    if IsDelete(p.id) then (Key(Page, DeletedId(p.id)), Erase(p.lastUpdated))
    else (Key(Page, p.id), Replace(Item(p.lastUpdated, body(p))))
  }

  function PageChanges(ps: seq<SP.Page>, body: SP.Page -> string): (cs: Changes)
    requires forall p <- ps :: PageEntry(p)
    ensures forall c <- cs :: c.0.kind == Page
  {
    if ps == [] then [] else PageChanges(ps[..|ps| - 1], body) + [PageChange(ps[|ps| - 1], body)]
  }

  function PageTime(p: SP.Page): int {
    p.lastUpdated
  }

  ghost predicate PagesShown(pages: seq<SP.Page>, m: map<string, SP.Page>, body: SP.Page -> string,
                             tombs: map<string, int>, s: Store) {
    SP.Shows(pages, m) && Shown(Page, m, PageTime, body, tombs, s)
  }

  lemma {:induction false} PagesApplied(pages: seq<SP.Page>, m: map<string, SP.Page>, ps: seq<SP.Page>,
                                        body: SP.Page -> string, tombs: map<string, int>, s: Store)
    requires (forall p <- ps :: PageEntry(p)) && PagesShown(pages, m, body, tombs, s)
    ensures PagesShown(SP.UpsertAll(pages, ps, true), SP.ForcedMap(m, ps), body, SP.Recorded(pages, tombs, ps, true),
                       Fold(s, PageChanges(ps, body)))
    decreases |ps|
  {
    SP.ForcedUpsert(pages, m, ps);
    if ps != [] {
      var front, last := ps[..|ps| - 1], ps[|ps| - 1];
      assert last in ps;
      PagesApplied(pages, m, front, body, tombs, s);
      var cs := PageChanges(front, body);
      var m', t', s' := SP.ForcedMap(m, front), SP.Recorded(pages, tombs, front, true), Fold(s, cs);
      if IsDelete(last.id) {
        SP.DropShows(SP.UpsertAll(pages, front, true), m', last);
        EraseShown(Page, m', PageTime, body, t', s', DeletedId(last.id), last.lastUpdated);
      } else {
        ReplaceShown(Page, m', PageTime, body, t', s', last.id, last, Item(last.lastUpdated, body(last)));
      }
      assert (cs + [PageChange(last, body)])[..|cs|] == cs;
    }
  }

  // ---- Reading the pages back ----

  /** `read` are the pages of a list, as the synchronisation sees them. */
  ghost predicate PagesRead(read: seq<SP.Page>, m: map<string, SP.Page>, body: SP.Page -> string, pages: Pages) {
    && SP.Shows(read, m)
    && (forall id :: Key(Page, id) in pages <==> id in m)
    && (forall id <- m :: pages[Key(Page, id)].ts == m[id].lastUpdated && pages[Key(Page, id)].body == body(m[id]))
  }

  /** Putting back what was read is the step of `Interleaving`, whatever is in memory by then. */
  lemma {:induction false} PutShown(pages: seq<SP.Page>, m: map<string, SP.Page>, body: SP.Page -> string,
                                    tombs: map<string, int>, s: Store, read: seq<SP.Page>,
                                    mr: map<string, SP.Page>, pr: Pages)
    requires PagesShown(pages, m, body, tombs, s) && PagesRead(read, mr, body, pr) && forall k <- pr :: k.kind == Page
    ensures read == [] <==> pr == map[]
    ensures var s' := if pr == map[] then s else WithPages(s, pr);
      PagesShown(SP.Reloaded(pages, read), if read == [] then m else mr, body, tombs, s')
  {
    if read == [] {
      forall k ensures k !in pr {
        assert k in pr ==> k == Key(Page, k.id);
      }
    } else {
      assert read[0] in read && Key(Page, read[0].id) in pr;
      var s' := WithPages(s, pr);
      forall id: string ensures Key(Page, id) in s'.active <==> id in mr {
        assert Key(Page, id) in pr <==> id in mr;
      }
    }
  }

  // ---- Both, as at the end of a run ----

  lemma {:induction false} FoldAppend(s: Store, a: Changes, b: Changes)
    ensures Fold(s, a + b) == Fold(Fold(s, a), b)
    decreases |b|
  {
    if b == [] {
      assert a + b == a;
    } else {
      assert (a + b)[..|a + b| - 1] == a + b[..|b| - 1];
      FoldAppend(s, a, b[..|b| - 1]);
    }
  }

  /** The local step of a run that nobody disturbs: the buttons, then the pages, and reading these back. If
      no item is named twice, both lists and both kinds of deletion times end up as `ChangeAll`, the
      local step of every complete run in this project. */
  lemma {:induction false} LocalStep(u: BL.Upserting, bs: seq<BO.Button>, bodyB: BO.Button -> string,
                                     tombsB: map<string, int>, pages: seq<SP.Page>, m: map<string, SP.Page>,
                                     ps: seq<SP.Page>, bodyP: SP.Page -> string, tombsP: map<string, int>, s: Store)
    requires (forall b <- bs :: ButtonEntry(b)) && (forall p <- ps :: PageEntry(p))
    requires ButtonsShown(u, bodyB, tombsB, s) && PagesShown(pages, m, bodyP, tombsP, s)
    requires Distinct(ButtonChanges(bs, bodyB) + PageChanges(ps, bodyP))
    ensures var s' := ChangeAll(s, MapOf(ButtonChanges(bs, bodyB) + PageChanges(ps, bodyP)));
      && ButtonsShown(BL.UpsertAll(u, bs, true), bodyB, tombsB, s')
      && var stored := SP.UpsertAll(pages, ps, true);
         PagesShown(SP.Reloaded(stored, stored), SP.ForcedMap(m, ps), bodyP, SP.Recorded(pages, tombsP, ps, true), s')
  {
    var cb, cp := ButtonChanges(bs, bodyB), PageChanges(ps, bodyP);
    FoldIsChangeAll(s, cb + cp);
    FoldAppend(s, cb, cp);
    ButtonsApplied(u, bs, bodyB, tombsB, s);
    var v := BL.UpsertAll(u, bs, true);
    OtherKind(Button, BL.ById(v.list), ButtonTime, bodyB, Noted(tombsB, v.deleted), Fold(s, cb), cp);
    OtherKind(Page, m, PageTime, bodyP, tombsP, s, cb);
    PagesApplied(pages, m, ps, bodyP, tombsP, Fold(s, cb));
  }
}
