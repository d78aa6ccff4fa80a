/** The scratchpad pages: batches from the synchronisation, and edits from the clients. */
module Scratchpad {
  import opened Basics
  import opened Deletions

  datatype Page = Page(id: string, title: string, content: string, locked: bool, lastUpdated: int)

  function IndexOf(pages: seq<Page>, id: string): (k: int)
    ensures -1 <= k < |pages|
    ensures k >= 0 ==> pages[k].id == id && forall i :: 0 <= i < k ==> pages[i].id != id
    ensures k == -1 ==> forall i :: 0 <= i < |pages| ==> pages[i].id != id
  {
    if pages == [] then -1
    else if pages[0].id == id then 0
    else
      var k := IndexOf(pages[1..], id);
      if k == -1 then -1 else k + 1
  }

  /** A page that is offered replaces an older one of the same id in place, or is appended. */
  function Offer(pages: seq<Page>, p: Page, force: bool): seq<Page> {
    var i := IndexOf(pages, p.id);
    if i == -1 then pages + [p]
    else if force || p.lastUpdated > pages[i].lastUpdated then pages[i := p]
    else pages
  }

  function OfferAll(pages: seq<Page>, ps: seq<Page>, force: bool): seq<Page> {
    if ps == [] then pages else Offer(OfferAll(pages, ps[..|ps| - 1], force), ps[|ps| - 1], force)
  }

  predicate Deletes(q: Page, p: Page, force: bool)
    requires IsDelete(p.id)
  {
    q.id == DeletedId(p.id) && (force || p.lastUpdated >= q.lastUpdated)
  }

  function Drop(pages: seq<Page>, p: Page, force: bool): seq<Page>
    requires IsDelete(p.id)
  {
    if pages == [] then []
    else
      var front, last := Drop(pages[..|pages| - 1], p, force), pages[|pages| - 1];
      if Deletes(last, p, force) then front else front + [last]
  }

  function UpsertAll(pages: seq<Page>, ps: seq<Page>, force: bool): seq<Page> {
    if ps == [] then pages
    else
      var u, last := UpsertAll(pages, ps[..|ps| - 1], force), ps[|ps| - 1];
      if IsDelete(last.id) then Drop(u, last, force) else Offer(u, last, force)
  }

  predicate Removes(pages: seq<Page>, p: Page, force: bool)
    requires IsDelete(p.id)
  {
    exists q <- pages :: Deletes(q, p, force)
  }

  /** The deletion times recorded after a batch: `OnPageDelete` is called for every page removed. */
  function Recorded(pages: seq<Page>, deleted: map<string, int>, ps: seq<Page>, force: bool): map<string, int> {
    if ps == [] then deleted
    else
      var front, last := ps[..|ps| - 1], ps[|ps| - 1];
      var d := Recorded(pages, deleted, front, force);
      if IsDelete(last.id) && Removes(UpsertAll(pages, front, force), last, force) then
        d[DeletedId(last.id) := last.lastUpdated]
      else d
  }

  lemma {:induction false} EachStep(pages: seq<Page>, deleted: map<string, int>, ps: seq<Page>, i: nat, force: bool,
                                    u: seq<Page>, d: map<string, int>, p: Page)
    requires i < |ps|
    requires u == UpsertAll(pages, ps[..i], force) && d == Recorded(pages, deleted, ps[..i], force) && p == ps[i]
    ensures UpsertAll(pages, ps[..i + 1], force) == if IsDelete(p.id) then Drop(u, p, force) else Offer(u, p, force)
    ensures Recorded(pages, deleted, ps[..i + 1], force) ==
            if IsDelete(p.id) && Removes(u, p, force) then d[DeletedId(p.id) := p.lastUpdated] else d
  {
    assert ps[..i + 1][..i] == ps[..i];
  }

  // ---- What a batch leaves ----

  function TimeOf(pages: seq<Page>, id: string): Option<int> {
    var i := IndexOf(pages, id);
    if i == -1 then None else Some(pages[i].lastUpdated)
  }

  function Newest(stored: Option<int>, ps: seq<Page>, id: string): Option<int> {
    if ps == [] then stored
    else
      var n, last := Newest(stored, ps[..|ps| - 1], id), ps[|ps| - 1];
      if last.id == id && (n.None? || last.lastUpdated > n.value) then Some(last.lastUpdated) else n
  }

  lemma {:induction false} FirstIs(pages: seq<Page>, id: string, k: nat)
    requires k < |pages| && pages[k].id == id && forall i :: 0 <= i < k ==> pages[i].id != id
    ensures IndexOf(pages, id) == k
  {
  }

  lemma {:induction false} OfferTime(pages: seq<Page>, p: Page, id: string)
    ensures TimeOf(Offer(pages, p, false), id) ==
            if p.id == id && (TimeOf(pages, id).None? || p.lastUpdated > TimeOf(pages, id).value) then Some(p.lastUpdated)
            else TimeOf(pages, id)
  {
    var q := Offer(pages, p, false);
    var i := IndexOf(pages, id);
    if i >= 0 {
      FirstIs(q, id, i);
    } else if p.id == id {
      FirstIs(q, id, |pages|);
    }
  }

  /** However the pages arrive, every id ends up with the newest of the stored and offered times, and
      no stored page changes its place. */
  lemma {:induction false} NewestWins(pages: seq<Page>, ps: seq<Page>, id: string)
    ensures var q := OfferAll(pages, ps, false);
            && TimeOf(q, id) == Newest(TimeOf(pages, id), ps, id)
            && |q| >= |pages| && forall i :: 0 <= i < |pages| ==> q[i].id == pages[i].id
    decreases |ps|
  {
    if ps != [] {
      NewestWins(pages, ps[..|ps| - 1], id);
      OfferTime(OfferAll(pages, ps[..|ps| - 1], false), ps[|ps| - 1], id);
    }
  }

  /** Pages are taken whole: nothing is made up or mixed. */
  lemma {:induction false} FromInputs(pages: seq<Page>, ps: seq<Page>, force: bool)
    ensures forall q <- OfferAll(pages, ps, force) :: q in pages || q in ps
    decreases |ps|
  {
    if ps != [] {
      var n := |ps| - 1;
      FromInputs(pages, ps[..n], force);
      assert forall q <- OfferAll(pages, ps, force) :: q in OfferAll(pages, ps[..n], force) || q == ps[n];
    }
  }

  /** Without deletions a batch of the synchronisation and a message of a client do the same. */
  lemma {:induction false} UpsertIsOffer(pages: seq<Page>, ps: seq<Page>, force: bool)
    requires forall p <- ps :: !IsDelete(p.id)
    ensures UpsertAll(pages, ps, force) == OfferAll(pages, ps, force)
    decreases |ps|
  {
    if ps != [] {
      assert ps[|ps| - 1] in ps;
      UpsertIsOffer(pages, ps[..|ps| - 1], force);
    }
  }

  lemma {:induction false} Dropped(pages: seq<Page>, p: Page, force: bool)
    requires IsDelete(p.id)
    ensures forall q :: q in Drop(pages, p, force) <==> q in pages && !Deletes(q, p, force)
    decreases |pages|
  {
    if pages != [] {
      assert pages == pages[..|pages| - 1] + [pages[|pages| - 1]];
      Dropped(pages[..|pages| - 1], p, force);
    }
  }

  /** A deletion entry removes the pages it names, unless they are newer and there is no force. The others stay
      in their order: `at` are their positions. */
  lemma {:induction false} DropExactly(pages: seq<Page>, p: Page, id: string, force: bool) returns (at: seq<nat>)
    requires p.id == "__$$delete$$__" + id
    ensures var q := UpsertAll(pages, [p], force);
      && |at| == |q|
      && (forall k :: 0 <= k < |at| ==> at[k] < |pages| && q[k] == pages[at[k]])
      && (forall k, l :: 0 <= k < l < |at| ==> at[k] < at[l])
    ensures forall i: nat ::
      i in at <==> i < |pages| && !(pages[i].id == id && (force || pages[i].lastUpdated <= p.lastUpdated))
  {
    assert p.id[..|ID_DELETE_PREFIX|] == ID_DELETE_PREFIX && p.id[|ID_DELETE_PREFIX|..] == id;
    assert [p][..0] == [];
    assert UpsertAll(pages, [p], force) == Drop(pages, p, force);
    at := DropPlaces(pages, p, force);
  }

  lemma {:induction false} DropPlaces(pages: seq<Page>, p: Page, force: bool) returns (at: seq<nat>)
    requires IsDelete(p.id)
    ensures |at| == |Drop(pages, p, force)|
    ensures forall k :: 0 <= k < |at| ==> at[k] < |pages| && Drop(pages, p, force)[k] == pages[at[k]]
    ensures forall k, l :: 0 <= k < l < |at| ==> at[k] < at[l]
    ensures forall i: nat :: i in at <==> i < |pages| && !Deletes(pages[i], p, force)
    decreases |pages|
  {
    if pages == [] {
      at := [];
    } else {
      var n := |pages| - 1;
      at := DropPlaces(pages[..n], p, force);
      if !Deletes(pages[n], p, force) {
        at := at + [n];
      }
    }
  }

  /** A page that is offered: a new one comes last, a newer one takes the place of the stored one, and an older
      one or one of the same time changes nothing, unless there is force. */
  lemma {:induction false} OfferExactly(pages: seq<Page>, p: Page, i: nat, force: bool)
    requires forall j :: 0 <= j < |pages| && j < i ==> pages[j].id != p.id
    ensures i == |pages| ==> Offer(pages, p, force) == pages + [p]
    ensures i < |pages| && pages[i].id == p.id ==>
              Offer(pages, p, force) == if force || pages[i].lastUpdated < p.lastUpdated then pages[i := p] else pages
  {
    if i < |pages| && pages[i].id == p.id {
      FirstIs(pages, p.id, i);
    }
  }

  // ---- A forced batch ----

  ghost predicate Unique(pages: seq<Page>) {
    forall i, j :: 0 <= i < j < |pages| ==> pages[i].id != pages[j].id
  }

  /** The ids are distinct and `m` has exactly the pages of the list. */
  ghost predicate Shows(pages: seq<Page>, m: map<string, Page>) {
    && Unique(pages)
    && (forall p <- pages :: p.id in m && m[p.id] == p)
    && (forall id <- m :: m[id] in pages && m[id].id == id)
  }

  lemma {:induction false} ReplaceShows(pages: seq<Page>, m: map<string, Page>, p: Page, i: nat)
    requires Shows(pages, m) && i < |pages| && pages[i].id == p.id
    ensures Shows(pages[i := p], m[p.id := p])
  {
    var q := pages[i := p];
    assert q[i] == p;
    forall id | id in m && id != p.id ensures m[id] in q {
      var j :| 0 <= j < |pages| && pages[j] == m[id];
      assert q[j] == pages[j];
    }
  }

  lemma {:induction false} OfferShows(pages: seq<Page>, m: map<string, Page>, p: Page)
    requires Shows(pages, m)
    ensures Shows(Offer(pages, p, true), m[p.id := p])
  {
    var i := IndexOf(pages, p.id);
    if i >= 0 {
      ReplaceShows(pages, m, p, i);
    } else {
      var q := pages + [p];
      assert q[|pages|] == p;
      assert forall x <- pages :: x in q && x.id != p.id;
    }
  }

  lemma {:induction false} DropUnique(pages: seq<Page>, p: Page, force: bool)
    requires IsDelete(p.id) && Unique(pages)
    ensures Unique(Drop(pages, p, force))
    decreases |pages|
  {
    if pages != [] {
      var front, last := pages[..|pages| - 1], pages[|pages| - 1];
      DropUnique(front, p, force);
      Dropped(front, p, force);
      var d := Drop(front, p, force);
      forall k | 0 <= k < |d| ensures d[k].id != last.id {
        assert d[k] in front;
      }
      assert Unique(d + [last]);
    }
  }

  lemma {:induction false} DropShows(pages: seq<Page>, m: map<string, Page>, p: Page)
    requires Shows(pages, m) && IsDelete(p.id)
    ensures Shows(Drop(pages, p, true), m - {DeletedId(p.id)})
    ensures Removes(pages, p, true) <==> DeletedId(p.id) in m
  {
    DropUnique(pages, p, true);
    Dropped(pages, p, true);
    assert DeletedId(p.id) in m ==> Deletes(m[DeletedId(p.id)], p, true);
  }

  /** A forced entry of the synchronisation: it replaces or deletes, whatever is stored. */
  function ForcedMap(m: map<string, Page>, ps: seq<Page>): map<string, Page> {
    if ps == [] then m
    else
      var f, last := ForcedMap(m, ps[..|ps| - 1]), ps[|ps| - 1];
      if IsDelete(last.id) then f - {DeletedId(last.id)} else f[last.id := last]
  }

  /** With force, pages replace, and deletions delete, exactly what they name, whatever is stored. */
  lemma {:induction false} ForcedUpsert(pages: seq<Page>, m: map<string, Page>, ps: seq<Page>)
    requires Shows(pages, m)
    ensures Shows(UpsertAll(pages, ps, true), ForcedMap(m, ps))
    decreases |ps|
  {
    if ps != [] {
      var front, last := ps[..|ps| - 1], ps[|ps| - 1];
      ForcedUpsert(pages, m, front);
      if IsDelete(last.id) {
        DropShows(UpsertAll(pages, front, true), ForcedMap(m, front), last);
      } else {
        OfferShows(UpsertAll(pages, front, true), ForcedMap(m, front), last);
      }
    }
  }

  /** The pages after what was read from the file is put in their place; a file without pages is not. */
  function Reloaded(pages: seq<Page>, read: seq<Page>): seq<Page> {
    if read == [] then pages else read
  }

  // ---- The object ----

  /** `file` is what scratchpad.json holds. */
  class Pad {
    var pages: seq<Page>
    var file: seq<Page>
    var deleted: map<string, int>

    constructor ()
      ensures pages == [] && file == [] && deleted == map[]
    {
      pages, file, deleted := [], [], map[];
    }

    method Save()
      modifies this`file
      ensures file == pages
    {
      file := pages;
    }

    /** The first half of `Reload`, without the lock. */
    method ReadFile() returns (read: seq<Page>)
      ensures read == file
    {
      read := file;
    }

    /** The second half. The file is not written. */
    method PutBack(read: seq<Page>)
      modifies this`pages
      ensures pages == Reloaded(old(pages), read)
    {
      if |read| > 0 {
        pages := read;
      }
    }

    method Reload()
      modifies this`pages
      ensures pages == Reloaded(old(pages), file)
    {
      var read := ReadFile();
      PutBack(read);
    }

    method Find(id: string) returns (k: int)
      ensures k == IndexOf(pages, id)
    {
      k := 0;
      while k < |pages|
        invariant 0 <= k <= |pages| && forall i :: 0 <= i < k ==> pages[i].id != id
      {
        if pages[k].id == id {
          FirstIs(pages, id, k);
          return;
        }
        k := k + 1;
      }
      k := -1;
    }

    method OfferPage(p: Page, force: bool) returns (changed: bool)
      modifies this`pages
      ensures pages == Offer(old(pages), p, force) && (!changed ==> pages == old(pages)) && (force ==> changed)
    {
      var i := Find(p.id);
      changed := false;
      if i == -1 {
        pages := pages + [p];
        changed := true;
      } else if force || p.lastUpdated > pages[i].lastUpdated {
        pages := pages[i := p];
        changed := true;
      }
    }

    /** The `delete` entry of a batch, with the callback for every page it removes. */
    method DropPages(p: Page, force: bool)
      requires IsDelete(p.id)
      modifies this`pages, this`deleted
      ensures pages == Drop(old(pages), p, force)
      ensures deleted == if Removes(old(pages), p, force) then old(deleted)[DeletedId(p.id) := p.lastUpdated]
                         else old(deleted)
    {
      var kept: seq<Page> := [];
      var i := 0;
      assert pages[..0] == [];
      while i < |pages|
        invariant 0 <= i <= |pages| && pages == old(pages) && kept == Drop(pages[..i], p, force)
        invariant deleted == if Removes(pages[..i], p, force) then old(deleted)[DeletedId(p.id) := p.lastUpdated]
                             else old(deleted)
      {
        assert pages[..i + 1][..i] == pages[..i];
        assert forall q :: q in pages[..i + 1] <==> q in pages[..i] || q == pages[i];
        if pages[i].id == DeletedId(p.id) && (force || p.lastUpdated >= pages[i].lastUpdated) {
          deleted := deleted[DeletedId(p.id) := p.lastUpdated];
        } else {
          kept := kept + [pages[i]];
        }
        i := i + 1;
      }
      assert pages[..|pages|] == pages;
      pages := kept;
    }

    /** One entry of a batch. */
    method UpsertPage(p: Page, force: bool) returns (changed: bool)
      modifies this`pages, this`deleted
      ensures (!changed ==> pages == old(pages)) && (force ==> changed)
      ensures pages == if IsDelete(p.id) then Drop(old(pages), p, force) else Offer(old(pages), p, force)
      ensures deleted == if IsDelete(p.id) && Removes(old(pages), p, force) then
                           old(deleted)[DeletedId(p.id) := p.lastUpdated]
                         else old(deleted)
    {
      if IsDelete(p.id) {
        DropPages(p, force);
        changed := true;
      } else {
        changed := OfferPage(p, force);
      }
    }

    /** The loop over a batch. */
    method UpsertEach(ps: seq<Page>, force: bool) returns (changed: bool)
      modifies this`pages, this`deleted
      ensures pages == UpsertAll(old(pages), ps, force) && deleted == Recorded(old(pages), old(deleted), ps, force)
      ensures (!changed ==> pages == old(pages)) && (force && ps != [] ==> changed)
    {
      changed := false;
      ghost var pages0, deleted0 := pages, deleted;
      var i := 0;
      assert ps[..0] == [];
      while i < |ps|
        invariant 0 <= i <= |ps| && pages == UpsertAll(pages0, ps[..i], force)
        invariant deleted == Recorded(pages0, deleted0, ps[..i], force)
        invariant (!changed ==> pages == pages0) && (force && i > 0 ==> changed)
      {
        EachStep(pages0, deleted0, ps, i, force, pages, deleted, ps[i]);
        var c := UpsertPage(ps[i], force);
        changed := changed || c;
        i := i + 1;
      }
      assert ps[..|ps|] == ps;
    }

    /** A batch of the synchronisation. */
    method UpsertPages(ps: seq<Page>, force: bool)
      modifies this
      ensures pages == UpsertAll(old(pages), ps, force)
      ensures deleted == Recorded(old(pages), old(deleted), ps, force)
      ensures (force && ps != []) || old(file) == old(pages) ==> file == pages
    {
      var changed := UpsertEach(ps, force);
      if changed {
        Save();
      }
    }

    /** A `sync` message of a client: the pages it changed. */
    method HandleSync(ps: seq<Page>) returns (changed: bool)
      modifies this`pages, this`file
      ensures pages == OfferAll(old(pages), ps, false) && file == (if changed then pages else old(file))
      ensures !changed ==> pages == old(pages)
    {
      changed := false;
      var i := 0;
      assert ps[..0] == [];
      while i < |ps|
        invariant 0 <= i <= |ps| && pages == OfferAll(old(pages), ps[..i], false) && file == old(file)
        invariant !changed ==> pages == old(pages)
      {
        assert ps[..i + 1][..i] == ps[..i];
        var c := OfferPage(ps[i], false);
        changed := changed || c;
        i := i + 1;
      }
      assert ps[..|ps|] == ps;
      if changed {
        Save();
      }
    }

    /** A `delete` message of a client. */
    method HandleDelete(id: string, now: int) returns (found: bool, ghost at: int)
      modifies this
      ensures found ==> 0 <= at < |old(pages)| && old(pages)[at].id == id
      ensures found ==> forall i :: 0 <= i < at ==> old(pages)[i].id != id
      ensures found ==> pages == old(pages)[..at] + old(pages)[at + 1..] && deleted == old(deleted)[id := now]
      ensures file == if found then pages else old(file)
      ensures !found ==> pages == old(pages) && deleted == old(deleted)
      ensures !found ==> forall i :: 0 <= i < |pages| ==> pages[i].id != id
    {
      var i := 0;
      while i < |pages|
        invariant 0 <= i <= |pages| && pages == old(pages) && file == old(file) && deleted == old(deleted)
        invariant forall k :: 0 <= k < i ==> pages[k].id != id
      {
        if pages[i].id == id {
          pages := pages[..i] + pages[i + 1..];
          Save();
          deleted := deleted[id := now];
          return true, i;
        }
        i := i + 1;
      }
      return false, -1;
    }
  }
}
