/** The button list of a device's configuration: inserting, removing and moving buttons. */
module ButtonList {
  import opened Basics
  import opened Deletions
  import opened ButtonOrder

  const DEFAULT_GROUP := "Default"
  const DEFAULT_TYPE := "send_string"

  // ---- Finding ----

  method FindIndex(s: seq<Button>, id: string) returns (k: int)
    ensures k == IndexOf(Tags(s), id)
  {
    k := 0;
    while k < |s|
      invariant 0 <= k <= |s| && forall i :: 0 <= i < k ==> s[i].id != id
    {
      if s[k].id == id {
        return;
      }
      k := k + 1;
    }
    k := -1;
  }

  method GroupIndices(s: seq<Button>, group: string) returns (ps: seq<nat>)
    ensures ps == Positions(Tags(s), group)
  {
    ps := [];
    var i := 0;
    assert Tags(s)[..0] == [];
    while i < |s|
      invariant 0 <= i <= |s| && ps == Positions(Tags(s)[..i], group)
    {
      assert Tags(s)[..i + 1][..i] == Tags(s)[..i];
      if s[i].group == group {
        ps := ps + [i];
      }
      i := i + 1;
    }
    assert Tags(s)[..|s|] == Tags(s);
  }

  method PositionIn(ps: seq<nat>, p: nat) returns (k: nat)
    requires p in ps && forall i, j :: 0 <= i < j < |ps| ==> ps[i] < ps[j]
    ensures k == Rank(ps, p)
  {
    k := 0;
    while ps[k] != p
      invariant 0 <= k < |ps| && p in ps[k..]
    {
      k := k + 1;
    }
    assert ps[Rank(ps, p)] == ps[k];
  }

  ghost predicate NoDupOrders(s: seq<Button>) {
    forall i, j :: 0 <= i < j < |s| ==> s[i].order != s[j].order
  }

  method HasDuplicateOrders(s: seq<Button>) returns (dup: bool)
    ensures dup <==> !NoDupOrders(s)
  {
    var orders: set<int> := {};
    var i := 0;
    while i < |s|
      invariant 0 <= i <= |s| && NoDupOrders(s[..i])
      invariant forall o :: o in orders <==> exists k :: 0 <= k < i && s[k].order == o
    {
      if s[i].order in orders {
        return true;
      }
      orders := orders + {s[i].order};
      i := i + 1;
    }
    return false;
  }

  // ---- Moving ----

  function Bumped(b: Button, target: Button, dir: int, now: int): Button {
    b.(order := target.order + (if dir > 0 then 1 else -1), mtime := now)
  }

  /** The list with the button in its new place and with its new order. */
  function Moved(s: seq<Button>, idx: nat, target: nat, dir: int, now: int): seq<Button>
    requires idx < |s| && target < |s|
  {
    Reposition(s[idx := Bumped(s[idx], s[target], dir, now)], idx, target, dir)
  }

  function Resequenced(s: seq<Button>, now: int): (r: seq<Button>)
    ensures |r| == |s| && Tags(r) == Tags(s) && StrictOrders(r)
    ensures forall i :: 0 <= i < |s| ==> r[i] == s[i].(order := (i + 1) * 10, mtime := now)
  {
    seq(|s|, i requires 0 <= i < |s| => s[i].(order := (i + 1) * 10, mtime := now))
  }

  /** Where the button at `i` comes from, the moved one aside. */
  function Source(i: nat, idx: nat, target: nat): nat {
    if idx <= i < target then i + 1 else if target < i <= idx then i - 1 else i
  }

  lemma {:induction false} MovedAt(s: seq<Button>, idx: nat, target: nat, dir: int, now: int)
    requires idx < |s| && target < |s|
    requires (dir > 0 && idx < target) || (dir < 0 && target < idx)
    ensures var r := Moved(s, idx, target, dir, now);
      && |r| == |s| && r[target] == Bumped(s[idx], s[target], dir, now)
      && forall i :: 0 <= i < |s| && i != target ==> Source(i, idx, target) < |s| && r[i] == s[Source(i, idx, target)]
  {
  }

  /** Next to its target the moved button fits between the neighbours, so that the list is in strict
      order unless two orders are equal. */
  lemma {:induction false} MovedStrict(s: seq<Button>, idx: nat, target: nat, dir: int, now: int)
    requires Sorted(s) && idx < |s| && target < |s|
    requires (dir > 0 && idx < target) || (dir < 0 && target < idx)
    requires NoDupOrders(Moved(s, idx, target, dir, now))
    ensures StrictOrders(Moved(s, idx, target, dir, now))
  {
    MovedAt(s, idx, target, dir, now);
    StrictAround(s, idx, target, dir, now, Moved(s, idx, target, dir, now));
  }

  lemma {:induction false} StrictAround(s: seq<Button>, idx: nat, target: nat, dir: int, now: int, r: seq<Button>)
    requires Sorted(s) && idx < |s| && target < |s| && |r| == |s| && NoDupOrders(r)
    requires (dir > 0 && idx < target) || (dir < 0 && target < idx)
    requires r[target] == Bumped(s[idx], s[target], dir, now)
    requires forall i :: 0 <= i < |s| && i != target ==> Source(i, idx, target) < |s| && r[i] == s[Source(i, idx, target)]
    ensures StrictOrders(r)
  {
    forall i, j | 0 <= i < j < |r| && i != target && j != target ensures r[i].order < r[j].order {
      assert Source(i, idx, target) < Source(j, idx, target);
      assert !Before(s[Source(j, idx, target)], s[Source(i, idx, target)]);
    }
    var next := if dir > 0 then target - 1 else target + 1;
    assert Source(next, idx, target) == target && r[next] == s[target];
    assert r[target].order == r[next].order + (if dir > 0 then 1 else -1);
  }

  lemma {:induction false} TagsAppend(a: seq<Button>, b: seq<Button>)
    ensures Tags(a + b) == Tags(a) + Tags(b)
  {
  }

  lemma {:induction false} TagsReposition(s: seq<Button>, idx: nat, target: nat, dir: int)
    requires idx < |s| && target < |s|
    ensures Tags(Reposition(s, idx, target, dir)) == Reposition(Tags(s), idx, target, dir)
  {
    var rest := s[..idx] + s[idx + 1..];
    var at := InsertAt(idx, target, dir);
    assert Tags(s)[..idx] + Tags(s)[idx + 1..] == Tags(rest);
    TagsAppend(rest[..at] + [s[idx]], rest[at..]);
    TagsAppend(rest[..at], [s[idx]]);
    assert Tags([s[idx]]) == [Tags(s)[idx]];
    assert Tags(rest[..at]) == Tags(rest)[..at] && Tags(rest[at..]) == Tags(rest)[at..];
  }

  lemma {:induction false} MovedTags(s: seq<Button>, idx: nat, target: nat, dir: int, now: int)
    requires idx < |s| && target < |s|
    ensures Tags(Moved(s, idx, target, dir, now)) == Reposition(Tags(s), idx, target, dir)
  {
    var c := s[idx := Bumped(s[idx], s[target], dir, now)];
    assert Tags(c) == Tags(s);
    TagsReposition(c, idx, target, dir);
  }

  /** Everything renumbered if two orders were equal, otherwise sorted. */
  ghost predicate Renumbered(m: seq<Button>, dir: int, now: int, r: seq<Button>) {
    if !NoDupOrders(m) then r == Resequenced(m, now)
    else if dir != 0 then r == m && StrictOrders(m)
    else multiset(r) == multiset(m)
  }

  /** The list after a move of the sorted list. */
  ghost predicate MoveResult(sorted: seq<Button>, id: string, dir: int, now: int, r: seq<Button>) {
    var t := Target(Tags(sorted), id, dir);
    if t.None? then r == sorted
    else Renumbered(Moved(sorted, IndexOf(Tags(sorted), id), t.value, dir, now), dir, now, r)
  }

  /** Both ways of renumbering show the same sequence. */
  lemma {:induction false} MoveMeaning(sorted: seq<Button>, id: string, dir: int, now: int, r: seq<Button>)
    requires MoveResult(sorted, id, dir, now, r) && dir != 0 && Target(Tags(sorted), id, dir).Some?
    ensures Tags(r) == MoveTags(Tags(sorted), id, dir) && StrictOrders(r)
  {
    MovedTags(sorted, IndexOf(Tags(sorted), id), Target(Tags(sorted), id, dir).value, dir, now);
  }

  /** The target lies on the side of the direction. */
  lemma {:induction false} TargetSide(ts: seq<Tag>, id: string, dir: int, target: nat)
    requires Target(ts, id, dir) == Some(target)
    ensures var idx := IndexOf(ts, id);
      (dir > 0 ==> idx < target) && (dir < 0 ==> target < idx) && (dir == 0 ==> target == idx)
  {
    var ps := Positions(ts, ts[IndexOf(ts, id)].group);
    assert ps[Rank(ps, IndexOf(ts, id))] == IndexOf(ts, id);
  }

  // ---- What a move changes ----

  /** With the new order of the moved button two buttons would have the same one. */
  ghost predicate Clash(s: seq<Button>, idx: nat, order: int) {
    || (exists i, j :: 0 <= i < j < |s| && i != idx && j != idx && s[i].order == s[j].order)
    || (exists i :: 0 <= i < |s| && i != idx && s[i].order == order)
  }

  lemma {:induction false} ClashIff(s: seq<Button>, idx: nat, b: Button)
    requires idx < |s|
    ensures NoDupOrders(s[idx := b]) <==> !Clash(s, idx, b.order)
  {
    var c := s[idx := b];
    if NoDupOrders(c) {
      forall i, j | 0 <= i < j < |s| && i != idx && j != idx ensures s[i].order != s[j].order {
        assert c[i].order != c[j].order;
      }
      forall i | 0 <= i < |s| && i != idx ensures s[i].order != b.order {
        assert c[if i < idx then i else idx].order != c[if i < idx then idx else i].order;
      }
    }
  }

  lemma {:induction false} DupPermuted(a: seq<Button>, b: seq<Button>)
    requires Unique(a) && multiset(a) == multiset(b) && NoDupOrders(a)
    ensures NoDupOrders(b)
  {
    PermutedUnique(a, b);
    forall i, j | 0 <= i < j < |b| ensures b[i].order != b[j].order {
      assert b[i] in multiset(b) && b[j] in multiset(b);
      var x :| 0 <= x < |a| && a[x] == b[i];
      var y :| 0 <= y < |a| && a[y] == b[j];
      assert Tags(b)[i].id != Tags(b)[j].id;
    }
  }

  lemma {:induction false} MovedKeeps(s: seq<Button>, idx: nat, target: nat, dir: int, now: int)
    requires Unique(s) && idx < |s| && target < |s|
    ensures var b := Bumped(s[idx], s[target], dir, now);
      var m := Moved(s, idx, target, dir, now);
      Unique(m) && ById(m) == ById(s)[b.id := b] && (NoDupOrders(m) <==> !Clash(s, idx, b.order))
  {
    var b := Bumped(s[idx], s[target], dir, now);
    var m := Moved(s, idx, target, dir, now);
    var c := s[idx := b];
    ReplaceMap(s, idx, b);
    RepositionKeeps(c, idx, target, dir);
    ByIdPermuted(c, m);
    ClashIff(s, idx, b);
    if NoDupOrders(c) {
      DupPermuted(c, m);
    }
    if NoDupOrders(m) {
      DupPermuted(m, c);
    }
  }

  /** Every button is where it was, save for its order and time: the orders are 10, 20, 30 and so on. */
  ghost predicate AllRenumbered(before: map<string, Button>, after: seq<Button>, now: int) {
    && ById(after).Keys == before.Keys
    && forall i :: 0 <= i < |after| ==>
         after[i].id in before && after[i] == before[after[i].id].(order := 10 * (i + 1), mtime := now)
  }

  /** What a move changes. The moved button gets the order just above or below that of its target and the
      current time, and no other button changes in any field. Only if that makes two orders equal, all
      buttons get new orders and the current time, and keep all other fields. */
  ghost predicate Changes(s: seq<Button>, id: string, target: nat, dir: int, now: int, r: seq<Button>)
    requires target < |s| && IndexOf(Tags(s), id) >= 0
  {
    var order := if dir > 0 then s[target].order + 1 else s[target].order - 1;
    && id in ById(s)
    && (!Clash(s, IndexOf(Tags(s), id), order) ==>
          ById(r) == ById(s)[id := ById(s)[id].(order := order, mtime := now)])
    && (Clash(s, IndexOf(Tags(s), id), order) ==> AllRenumbered(ById(s), r, now))
  }

  lemma {:induction false} MoveChanges(s: seq<Button>, id: string, dir: int, now: int, r: seq<Button>)
    requires Unique(s) && MoveResult(s, id, dir, now, r) && Target(Tags(s), id, dir).Some?
    ensures Changes(s, id, Target(Tags(s), id, dir).value, dir, now, r)
  {
    var idx, target := IndexOf(Tags(s), id), Target(Tags(s), id, dir).value;
    var m := Moved(s, idx, target, dir, now);
    FoundById(s, id);
    MovedKeeps(s, idx, target, dir, now);
    if NoDupOrders(m) {
      ByIdPermuted(m, r);
    } else {
      ResequencedKeeps(ById(s), id, m, now, r);
    }
  }

  lemma {:induction false} ResequencedKeeps(before: map<string, Button>, id: string, m: seq<Button>, now: int,
                                            r: seq<Button>)
    requires Unique(m) && r == Resequenced(m, now) && id in before && id in ById(m)
    requires ById(m) == before[id := ById(m)[id]]
    requires ById(m)[id] == before[id].(order := ById(m)[id].order, mtime := ById(m)[id].mtime)
    ensures AllRenumbered(before, r, now)
  {
    forall i | 0 <= i < |r|
      ensures r[i].id in before && r[i] == before[r[i].id].(order := 10 * (i + 1), mtime := now)
    {
      assert m[i] in m;
      ByIdMember(m, m[i].id);
    }
    forall k ensures k in ById(r) <==> k in before {
      ByIdMember(m, k);
      ByIdMember(r, k);
      if k in ById(m) {
        var i :| 0 <= i < |m| && m[i] == ById(m)[k];
        assert r[i] in r;
      }
      if k in ById(r) {
        var i :| 0 <= i < |r| && r[i] == ById(r)[k];
        assert m[i] in m;
      }
    }
  }

  // ---- Direction 0 ----

  lemma {:induction false} ZeroTarget(ts: seq<Tag>, id: string)
    requires IndexOf(ts, id) >= 0
    ensures Target(ts, id, 0) == Some(IndexOf(ts, id))
  {
    var idx := IndexOf(ts, id);
    assert idx in Positions(ts, ts[idx].group);
  }

  /** The orders of the other buttons are distinct, and the order below that of the button is free. */
  ghost predicate Clear(s: seq<Button>, idx: nat)
    requires idx < |s|
  {
    && (forall i, j :: 0 <= i < j < |s| && i != idx && j != idx ==> s[i].order != s[j].order)
    && (forall i :: 0 <= i < |s| && i != idx ==> s[i].order != s[idx].order - 1)
  }

  /** The button before it has the same order. */
  predicate TiedBefore(s: seq<Button>, idx: nat)
    requires idx < |s|
  {
    idx > 0 && s[idx - 1].order == s[idx].order
  }

  /** Where the button ends up. */
  ghost function Landing(s: seq<Button>, idx: nat): (p: nat)
    requires idx < |s|
    ensures p <= idx
  {
    if !Clear(s, idx) then 0 else if TiedBefore(s, idx) then idx - 1 else idx
  }

  /** Take the element at `idx` out and put it in at `p`. */
  function PutAt<T>(s: seq<T>, idx: nat, p: nat): (r: seq<T>)
    requires p <= idx < |s|
    ensures |r| == |s| && r[p] == s[idx]
    ensures forall i :: 0 <= i < |s| && i != p ==> r[i] == s[if p < i <= idx then i - 1 else i]
  {
    s[..p] + [s[idx]] + s[p..idx] + s[idx + 1..]
  }

  lemma {:induction false} PutAtKeeps<T>(s: seq<T>, idx: nat, p: nat)
    requires p <= idx < |s|
    ensures multiset(PutAt(s, idx, p)) == multiset(s)
  {
    assert s == s[..p] + s[p..idx] + [s[idx]] + s[idx + 1..];
  }

  lemma {:induction false} PutAtTags(s: seq<Button>, idx: nat, p: nat)
    requires p <= idx < |s|
    ensures Tags(PutAt(s, idx, p)) == PutAt(Tags(s), idx, p)
  {
  }

  lemma {:induction false} ZeroMoved(s: seq<Button>, idx: nat, now: int)
    requires idx < |s|
    ensures Moved(s, idx, idx, 0, now) == PutAt(s[idx := Bumped(s[idx], s[idx], 0, now)], idx, 0)
  {
  }

  lemma {:induction false} ZeroClear(s: seq<Button>, idx: nat, m: seq<Button>, b: Button)
    requires idx < |s| && b.order == s[idx].order - 1 && m == PutAt(s[idx := b], idx, 0)
    ensures NoDupOrders(m) <==> Clear(s, idx)
  {
    if NoDupOrders(m) {
      forall i, j | 0 <= i < j < |s| && i != idx && j != idx ensures s[i].order != s[j].order {
        assert m[if i < idx then i + 1 else i].order != m[if j < idx then j + 1 else j].order;
      }
      forall i | 0 <= i < |s| && i != idx ensures s[i].order != s[idx].order - 1 {
        assert m[0].order != m[if i < idx then i + 1 else i].order;
      }
    }
  }

  lemma {:induction false} ZeroStrict(s: seq<Button>, idx: nat, b: Button)
    requires Sorted(s) && idx < |s| && Clear(s, idx) && b.order == s[idx].order - 1
    ensures StrictOrders(PutAt(s[idx := b], idx, Landing(s, idx)))
  {
    var p := Landing(s, idx);
    var c := PutAt(s[idx := b], idx, p);
    forall i, j | 0 <= i < j < |s| && i != idx && j != idx ensures s[i].order < s[j].order {
      assert !Before(s[j], s[i]);
    }
    forall i | 0 <= i < p ensures s[i].order < b.order {
      assert !Before(s[idx], s[i]);
      if i < idx - 1 {
        assert !Before(s[idx - 1], s[i]);
      }
    }
    forall i | p <= i < |s| && i != idx ensures b.order < s[i].order {
      assert i > idx ==> !Before(s[i], s[idx]);
    }
  }

  /** A move with direction 0. If the other orders are distinct and the order below is free, the button
      passes a button of the same order directly before it, and otherwise stays; in all other cases
      it goes to the front. */
  lemma {:induction false} ZeroLands(s: seq<Button>, id: string, now: int, r: seq<Button>)
    requires Sorted(s) && Sorted(r) && IndexOf(Tags(s), id) >= 0 && MoveResult(s, id, 0, now, r)
    ensures var idx := IndexOf(Tags(s), id); Tags(r) == PutAt(Tags(s), idx, Landing(s, idx))
  {
    var idx := IndexOf(Tags(s), id);
    var b := Bumped(s[idx], s[idx], 0, now);
    var m := Moved(s, idx, idx, 0, now);
    var c := s[idx := b];
    ZeroTarget(Tags(s), id);
    ZeroMoved(s, idx, now);
    ZeroClear(s, idx, m, b);
    assert Tags(c) == Tags(s);
    PutAtTags(c, idx, Landing(s, idx));
    if Clear(s, idx) {
      ZeroStrict(s, idx, b);
      PutAtKeeps(c, idx, 0);
      PutAtKeeps(c, idx, Landing(s, idx));
      SortIsUnique(PutAt(c, idx, Landing(s, idx)), r);
    }
  }

  /** When such a move changes nothing in the sequence, and when it brings the button to the front. */
  lemma {:induction false} ZeroMove(s: seq<Button>, id: string, now: int, r: seq<Button>)
    requires Sorted(s) && Unique(s) && Sorted(r) && IndexOf(Tags(s), id) >= 0 && MoveResult(s, id, 0, now, r)
    ensures var idx := IndexOf(Tags(s), id);
      && |r| == |s|
      && (Tags(r) == Tags(s) <==> if Clear(s, idx) then !TiedBefore(s, idx) else idx == 0)
      && (r[0].id == id <==> !Clear(s, idx) || idx == 0 || (idx == 1 && TiedBefore(s, idx)))
  {
    var idx := IndexOf(Tags(s), id);
    var p := Landing(s, idx);
    ZeroLands(s, id, now, r);
    assert Tags(r)[0].id == r[0].id && Tags(s)[0].id == s[0].id;
    if p != idx {
      assert Tags(r)[p] == Tags(s)[idx] && Tags(s)[p].id != Tags(s)[idx].id;
    } else {
      assert Tags(r) == Tags(s);
    }
    if p != 0 {
      assert Tags(r)[0] == Tags(s)[0] && Tags(s)[0].id != id;
    }
  }

  /** What every move shows. */
  lemma {:induction false} MoveSequence(s: seq<Button>, id: string, dir: int, now: int, r: seq<Button>)
    requires Sorted(s) && Sorted(r) && IndexOf(Tags(s), id) >= 0 && MoveResult(s, id, dir, now, r)
    ensures dir != 0 ==> Tags(r) == MoveTags(Tags(s), id, dir)
    ensures dir != 0 && Target(Tags(s), id, dir).Some? ==> StrictOrders(r)
    ensures dir == 0 ==> var idx := IndexOf(Tags(s), id); Tags(r) == PutAt(Tags(s), idx, Landing(s, idx))
  {
    if dir == 0 {
      ZeroLands(s, id, now, r);
    } else if Target(Tags(s), id, dir).Some? {
      MoveMeaning(s, id, dir, now, r);
    }
  }

  predicate Trio(s: seq<Button>) {
    && |s| == 3 && s[0].order == 10 && s[1].order == 20 && s[2].order == 20 && !StrLess(s[2].name, s[1].name)
    && s[0].id != s[2].id && s[1].id != s[2].id
  }

  lemma {:induction false} TrioLanding(s: seq<Button>)
    requires Trio(s)
    ensures Sorted(s) && Landing(s, 2) == 1
  {
    assert Clear(s, 2) && TiedBefore(s, 2);
  }

  /** Three buttons with orders 10, 20, 20: moving the last one without a direction swaps it with the
      second, so it neither stays nor goes first. */
  lemma {:induction false} ZeroSwaps(s: seq<Button>, now: int, r: seq<Button>)
    requires Trio(s) && Sorted(r) && MoveResult(s, s[2].id, 0, now, r)
    ensures Tags(r) == [Tags(s)[0], Tags(s)[2], Tags(s)[1]]
  {
    TrioLanding(s);
    assert IndexOf(Tags(s), s[2].id) == 2;
    ZeroLands(s, s[2].id, now, r);
  }

  // ---- Inserting ----

  /** The offered button with its missing fields filled in. */
  function Filled(b: Button, now: int, newId: string): Button {
    b.(id := if b.id == "" then newId else b.id,
       group := if b.group == "" then DEFAULT_GROUP else b.group,
       typ := if b.typ == "" then DEFAULT_TYPE else b.typ,
       mtime := if b.mtime == 0 then now else b.mtime)
  }

  /** What was given stays; afterwards no id, group, type or time is missing. */
  lemma {:induction false} FilledFields(b: Button, now: int, newId: string)
    ensures var f := Filled(b, now, newId);
      && f == b.(id := f.id, group := f.group, typ := f.typ, mtime := f.mtime)
      && (b.id != "" ==> f.id == b.id) && (b.group != "" ==> f.group == b.group)
      && (b.typ != "" ==> f.typ == b.typ) && (b.mtime != 0 ==> f.mtime == b.mtime)
      && (b.id == "" ==> f.id == newId) && (b.group == "" ==> f.group == "Default")
      && (b.typ == "" ==> f.typ == "send_string") && (b.mtime == 0 ==> f.mtime == now)
  {
  }

  /** In a batch, entries that delete only get a time. */
  function Normal(b: Button, now: int, newId: string): Button {
    if IsDelete(b.id) then (if b.mtime == 0 then b.(mtime := now) else b) else Filled(b, now, newId)
  }

  /** The list under way, the greatest order so far, and the calls of `OnButtonDelete`. */
  datatype Upserting = Upserting(list: seq<Button>, maxOrder: int, deleted: seq<(string, int)>)

  predicate Deletes(x: Button, id: string, b: Button, force: bool) {
    x.id == id && (force || b.mtime >= x.mtime)
  }

  function DropDeleted(list: seq<Button>, id: string, b: Button, force: bool): seq<Button> {
    if list == [] then []
    else
      var front, last := DropDeleted(list[..|list| - 1], id, b, force), list[|list| - 1];
      if Deletes(last, id, b, force) then front else front + [last]
  }

  function DeleteCalls(list: seq<Button>, id: string, b: Button, force: bool): seq<(string, int)> {
    if list == [] then []
    else
      var front, last := DeleteCalls(list[..|list| - 1], id, b, force), list[|list| - 1];
      if Deletes(last, id, b, force) then front + [(id, b.mtime)] else front
  }

  /** One offered, normalised button. */
  function UpsertOne(u: Upserting, b: Button, force: bool): Upserting {
    if IsDelete(b.id) then
      u.(list := DropDeleted(u.list, DeletedId(b.id), b, force),
        deleted := u.deleted + DeleteCalls(u.list, DeletedId(b.id), b, force))
    else
      var i := IndexOf(Tags(u.list), b.id);
      if i >= 0 then
        if !force && b.mtime < u.list[i].mtime then u
        else u.(list := u.list[i := b], maxOrder := Max(u.maxOrder, b.order))
      else if b.order == 0 then
        u.(list := u.list + [b.(order := u.maxOrder + 10)], maxOrder := u.maxOrder + 10)
      else u.(list := u.list + [b])
  }

  function UpsertAll(u: Upserting, bs: seq<Button>, force: bool): Upserting {
    if bs == [] then u else UpsertOne(UpsertAll(u, bs[..|bs| - 1], force), bs[|bs| - 1], force)
  }

  function MaxOrder(list: seq<Button>): int {
    if list == [] then 0 else Max(MaxOrder(list[..|list| - 1]), list[|list| - 1].order)
  }

  /** No order is greater, and it is one of them unless all are negative. */
  lemma {:induction false} MaxOrderIs(list: seq<Button>)
    ensures forall b <- list :: b.order <= MaxOrder(list)
    ensures MaxOrder(list) == 0 || (MaxOrder(list) > 0 && exists b <- list :: b.order == MaxOrder(list))
    decreases |list|
  {
    if list != [] {
      var n := |list| - 1;
      MaxOrderIs(list[..n]);
      assert list == list[..n] + [list[n]];
      if MaxOrder(list) == list[n].order {
        assert list[n] in list;
      }
    }
  }

  ghost predicate Unique(list: seq<Button>) {
    DistinctIds(Tags(list))
  }

  method CalcMaxOrder(list: seq<Button>) returns (m: int)
    ensures m == MaxOrder(list)
  {
    m := 0;
    var i := 0;
    assert list[..0] == [];
    while i < |list|
      invariant 0 <= i <= |list| && m == MaxOrder(list[..i])
    {
      assert list[..i + 1][..i] == list[..i];
      if list[i].order > m {
        m := list[i].order;
      }
      i := i + 1;
    }
    assert list[..|list|] == list;
  }

  /** `slices.DeleteFunc` with the callback. */
  method DeleteMatching(list: seq<Button>, id: string, b: Button, force: bool) returns (kept: seq<Button>,
                        calls: seq<(string, int)>)
    ensures kept == DropDeleted(list, id, b, force) && calls == DeleteCalls(list, id, b, force)
  {
    kept, calls := [], [];
    var i := 0;
    assert list[..0] == [];
    while i < |list|
      invariant 0 <= i <= |list|
      invariant kept == DropDeleted(list[..i], id, b, force) && calls == DeleteCalls(list[..i], id, b, force)
    {
      assert list[..i + 1][..i] == list[..i];
      if list[i].id == id && (force || b.mtime >= list[i].mtime) {
        calls := calls + [(id, b.mtime)];
      } else {
        kept := kept + [list[i]];
      }
      i := i + 1;
    }
    assert list[..|list|] == list;
  }

  // ---- Distinct ids ----

  lemma {:induction false} DropDeletedIds(list: seq<Button>, id: string, b: Button, force: bool)
    requires Unique(list)
    ensures var d := DropDeleted(list, id, b, force);
            Unique(d) && forall x :: x in d <==> x in list && !Deletes(x, id, b, force)
    decreases |list|
  {
    if list != [] {
      var n := |list| - 1;
      var front := list[..n];
      assert list == front + [list[n]];
      assert Unique(front) by {
        assert Tags(front) == Tags(list)[..n];
      }
      DropDeletedIds(front, id, b, force);
      var d := DropDeleted(front, id, b, force);
      forall k | 0 <= k < |d| ensures d[k].id != list[n].id {
        assert d[k] in front;
        var i :| 0 <= i < n && list[i] == d[k];
        assert Tags(list)[i].id != Tags(list)[n].id;
      }
    }
  }

  lemma {:induction false} UpsertOneUnique(u: Upserting, b: Button, force: bool)
    requires Unique(u.list)
    ensures Unique(UpsertOne(u, b, force).list)
  {
    if IsDelete(b.id) {
      DropDeletedIds(u.list, DeletedId(b.id), b, force);
    }
  }

  lemma {:induction false} UpsertAllUnique(u: Upserting, bs: seq<Button>, force: bool)
    requires Unique(u.list)
    ensures Unique(UpsertAll(u, bs, force).list)
    decreases |bs|
  {
    if bs != [] {
      UpsertAllUnique(u, bs[..|bs| - 1], force);
      UpsertOneUnique(UpsertAll(u, bs[..|bs| - 1], force), bs[|bs| - 1], force);
    }
  }

  lemma {:induction false} PermutedUnique(a: seq<Button>, b: seq<Button>)
    requires Unique(a) && multiset(a) == multiset(b)
    ensures Unique(b)
  {
    forall i, j | 0 <= i < j < |b| ensures b[i].id != b[j].id {
      if b[i].id == b[j].id {
        assert b[i] in multiset(b) && b[j] in multiset(b);
        assert b[i] in a && b[j] in a;
        var x :| 0 <= x < |a| && a[x] == b[i];
        var y :| 0 <= y < |a| && a[y] == b[j];
        assert Tags(a)[x].id == Tags(a)[y].id;
        assert x == y;
        TwiceIn(b, i, j);
        OnceInUnique(a, x);
      }
    }
  }

  lemma {:induction false} OnceInUnique(a: seq<Button>, x: nat)
    requires Unique(a) && x < |a|
    ensures multiset(a)[a[x]] == 1
  {
    assert a == a[..x] + [a[x]] + a[x + 1..];
    InsertMultiset(a[..x], a[x], a[x + 1..]);
    forall i | 0 <= i < |a| && i != x ensures a[i] != a[x] {
      assert Tags(a)[i].id != Tags(a)[x].id;
    }
    assert a[x] !in a[..x] && a[x] !in a[x + 1..];
  }

  // ---- The list seen as a map ----

  function ById(list: seq<Button>): map<string, Button> {
    if list == [] then map[] else ById(list[..|list| - 1])[list[|list| - 1].id := list[|list| - 1]]
  }

  lemma {:induction false} UniqueFront(list: seq<Button>)
    requires Unique(list) && list != []
    ensures Unique(list[..|list| - 1])
    ensures forall b <- list[..|list| - 1] :: b.id != list[|list| - 1].id
  {
    var n := |list| - 1;
    assert Tags(list[..n]) == Tags(list)[..n];
    forall b | b in list[..n] ensures b.id != list[n].id {
      var i :| 0 <= i < n && list[i] == b;
      assert Tags(list)[i].id != Tags(list)[n].id;
    }
  }

  lemma {:induction false} ByIdMember(list: seq<Button>, id: string)
    requires Unique(list)
    ensures id in ById(list) ==> ById(list)[id] in list && ById(list)[id].id == id
    ensures forall b <- list :: b.id == id ==> id in ById(list) && ById(list)[id] == b
    decreases |list|
  {
    if list != [] {
      UniqueFront(list);
      assert list == list[..|list| - 1] + [list[|list| - 1]];
      ByIdMember(list[..|list| - 1], id);
    }
  }

  /** A map is the view of a list with distinct ids if it has exactly the list's buttons. */
  lemma {:induction false} ByIdIs(list: seq<Button>, m: map<string, Button>)
    requires Unique(list)
    requires forall id <- m :: m[id] in list && m[id].id == id
    requires forall b <- list :: b.id in m && m[b.id] == b
    ensures ById(list) == m
  {
    forall id
      ensures id in ById(list) <==> id in m
      ensures id in m ==> ById(list)[id] == m[id]
    {
      ByIdMember(list, id);
    }
  }

  lemma {:induction false} ByIdPermuted(a: seq<Button>, b: seq<Button>)
    requires Unique(a) && multiset(a) == multiset(b)
    ensures Unique(b) && ById(a) == ById(b)
  {
    PermutedUnique(a, b);
    forall id | id in ById(a) ensures ById(a)[id] in b && ById(a)[id].id == id {
      ByIdMember(a, id);
      assert ById(a)[id] in multiset(a);
    }
    forall x | x in b ensures x.id in ById(a) && ById(a)[x.id] == x {
      assert x in multiset(b);
      assert x in a;
      ByIdMember(a, x.id);
    }
    ByIdIs(b, ById(a));
  }

  /** `UpsertOne` on the map. `newOrder` is the order given to a new button that has none. */
  function UpsertMap(m: map<string, Button>, b: Button, force: bool, newOrder: int): map<string, Button> {
    if IsDelete(b.id) then
      if DeletedId(b.id) in m && Deletes(m[DeletedId(b.id)], DeletedId(b.id), b, force) then m - {DeletedId(b.id)} else m
    else if b.id in m then
      if !force && b.mtime < m[b.id].mtime then m else m[b.id := b]
    else m[b.id := if b.order == 0 then b.(order := newOrder) else b]
  }

  lemma {:induction false} DropMap(list: seq<Button>, id: string, b: Button, force: bool)
    requires Unique(list)
    ensures var d := DropDeleted(list, id, b, force);
            var m := ById(list);
            Unique(d) && ById(d) == if id in m && Deletes(m[id], id, b, force) then m - {id} else m
  {
    DropDeletedIds(list, id, b, force);
    var d, m := DropDeleted(list, id, b, force), ById(list);
    var m' := if id in m && Deletes(m[id], id, b, force) then m - {id} else m;
    forall k | k in m' ensures m'[k] in d && m'[k].id == k {
      ByIdMember(list, k);
      ByIdMember(list, id);
    }
    forall x | x in d ensures x.id in m' && m'[x.id] == x {
      ByIdMember(list, x.id);
    }
    ByIdIs(d, m');
  }

  lemma {:induction false} ReplaceMap(list: seq<Button>, i: nat, b: Button)
    requires Unique(list) && i < |list| && list[i].id == b.id
    ensures Unique(list[i := b]) && ById(list[i := b]) == ById(list)[b.id := b]
  {
    var l := list[i := b];
    assert forall k :: 0 <= k < |l| ==> Tags(l)[k].id == Tags(list)[k].id;
    var m := ById(list)[b.id := b];
    forall k | k in m ensures m[k] in l && m[k].id == k {
      ByIdMember(list, k);
      if k != b.id {
        var j :| 0 <= j < |list| && list[j] == ById(list)[k];
        assert l[j] == list[j];
      } else {
        assert l[i] == b;
      }
    }
    forall x | x in l ensures x.id in m && m[x.id] == x {
      var j :| 0 <= j < |l| && l[j] == x;
      if j != i {
        assert list[j] == x && Tags(list)[j].id != Tags(list)[i].id;
        ByIdMember(list, x.id);
      }
    }
    ByIdIs(l, m);
  }

  lemma {:induction false} FoundById(list: seq<Button>, id: string)
    requires Unique(list)
    ensures IndexOf(Tags(list), id) >= 0 <==> id in ById(list)
    ensures IndexOf(Tags(list), id) >= 0 ==> ById(list)[id] == list[IndexOf(Tags(list), id)]
  {
    ByIdMember(list, id);
    var i := IndexOf(Tags(list), id);
    if i >= 0 {
      assert list[i] in list;
    }
  }

  lemma {:induction false} AppendMap(list: seq<Button>, x: Button)
    ensures ById(list + [x]) == ById(list)[x.id := x]
  {
    assert (list + [x])[..|list|] == list;
  }

  lemma {:induction false} AppendUnique(list: seq<Button>, x: Button)
    requires Unique(list) && IndexOf(Tags(list), x.id) == -1
    ensures Unique(list + [x])
  {
  }

  lemma {:induction false} UpsertOneMap(u: Upserting, b: Button, force: bool)
    requires Unique(u.list)
    ensures Unique(UpsertOne(u, b, force).list)
    ensures ById(UpsertOne(u, b, force).list) == UpsertMap(ById(u.list), b, force, u.maxOrder + 10)
  {
    UpsertOneUnique(u, b, force);
    if IsDelete(b.id) {
      DropMap(u.list, DeletedId(b.id), b, force);
    } else {
      FoundById(u.list, b.id);
      var i := IndexOf(Tags(u.list), b.id);
      if i >= 0 {
        ReplaceMap(u.list, i, b);
      } else {
        AppendMap(u.list, if b.order == 0 then b.(order := u.maxOrder + 10) else b);
      }
    }
  }

  // ---- What one entry does ----

  /** A deletion entry removes the button it names, unless that one is newer and there is no force, and
      reports each button that it removes. */
  lemma {:induction false} DeleteExactly(u: Upserting, b: Button, id: string, force: bool)
    requires Unique(u.list) && b.id == "__$$delete$$__" + id
    ensures var v := UpsertOne(u, b, force);
      && (forall x :: x in v.list <==> x in u.list && !(x.id == id && (force || x.mtime <= b.mtime)))
      && v.deleted == u.deleted + if |v.list| < |u.list| then [(id, b.mtime)] else []
  {
    assert b.id[..|ID_DELETE_PREFIX|] == ID_DELETE_PREFIX && b.id[|ID_DELETE_PREFIX|..] == id;
    DropDeletedIds(u.list, id, b, force);
    CallsExactly(u.list, id, b, force);
  }

  lemma {:induction false} NoCalls(list: seq<Button>, id: string, b: Button, force: bool)
    requires forall x <- list :: x.id != id
    ensures DropDeleted(list, id, b, force) == list && DeleteCalls(list, id, b, force) == []
    decreases |list|
  {
    if list != [] {
      var n := |list| - 1;
      assert list == list[..n] + [list[n]];
      assert list[n] in list;
      NoCalls(list[..n], id, b, force);
    }
  }

  lemma {:induction false} CallsExactly(list: seq<Button>, id: string, b: Button, force: bool)
    requires Unique(list)
    ensures |DropDeleted(list, id, b, force)| <= |list|
    ensures DeleteCalls(list, id, b, force) ==
            if |DropDeleted(list, id, b, force)| < |list| then [(id, b.mtime)] else []
    decreases |list|
  {
    if list != [] {
      var n := |list| - 1;
      UniqueFront(list);
      if list[n].id == id {
        NoCalls(list[..n], id, b, force);
      } else {
        CallsExactly(list[..n], id, b, force);
      }
    }
  }

  /** Without force an older button is not stored. Any other one is stored under its id as it is; a new one
      without an order gets one. */
  lemma {:induction false} OfferExactly(u: Upserting, b: Button)
    requires Unique(u.list) && !IsDelete(b.id)
    ensures var m, m' := ById(u.list), ById(UpsertOne(u, b, false).list);
      m' == if b.id in m && m[b.id].mtime > b.mtime then m
            else m[b.id := if b.id !in m && b.order == 0 then b.(order := u.maxOrder + 10) else b]
  {
    UpsertOneMap(u, b, false);
  }

  /** The running maximum is not below any order. */
  ghost predicate Covers(u: Upserting) {
    forall x <- u.list :: x.order <= u.maxOrder
  }

  /** It stays so exactly until a new button comes with a greater order of its own: that one does not raise the
      maximum. */
  lemma {:induction false} CoversStep(u: Upserting, b: Button, force: bool)
    requires Unique(u.list) && Covers(u)
    ensures Covers(UpsertOne(u, b, force)) <==>
            IsDelete(b.id) || b.order == 0 || b.order <= u.maxOrder || exists x <- u.list :: x.id == b.id
  {
    if IsDelete(b.id) {
      DropDeletedIds(u.list, DeletedId(b.id), b, force);
    } else {
      var i := IndexOf(Tags(u.list), b.id);
      var v := UpsertOne(u, b, force);
      if i >= 0 {
        assert u.list[i] in u.list;
      } else {
        NotThere(u.list, b.id);
        assert v.list[|u.list|] in v.list;
      }
    }
  }

  /** Until then a new button without an order comes last. */
  lemma {:induction false} NewComesLast(u: Upserting, b: Button, force: bool)
    requires Covers(u) && !IsDelete(b.id) && b.order == 0 && forall x <- u.list :: x.id != b.id
    ensures var v := UpsertOne(u, b, force);
      && v.list == u.list + [b.(order := v.maxOrder)] && Covers(v)
      && forall x <- u.list :: Before(x, b.(order := v.maxOrder))
  {
  }

  // ---- What a batch leaves ----

  function MtimeIn(m: map<string, Button>, id: string): Option<int> {
    if id in m then Some(m[id].mtime) else None
  }

  /** The greatest of a stored time and the times offered for an id. */
  function NewestOffered(stored: Option<int>, bs: seq<Button>, id: string): Option<int> {
    if bs == [] then stored
    else Newer(NewestOffered(stored, bs[..|bs| - 1], id), bs[|bs| - 1], id)
  }

  function Newer(n: Option<int>, b: Button, id: string): Option<int> {
    if b.id != id then n else if n.None? || b.mtime > n.value then Some(b.mtime) else n
  }

  lemma {:induction false} UpsertMapNewer(m: map<string, Button>, b: Button, newOrder: int, id: string)
    requires !IsDelete(b.id) && forall k <- m :: m[k].id == k
    ensures MtimeIn(UpsertMap(m, b, false, newOrder), id) == Newer(MtimeIn(m, id), b, id)
  {
  }

  /** Without force and without deletions every id ends up with the newest of the stored and offered
      times. */
  lemma {:induction false} NewestWins(u: Upserting, bs: seq<Button>, id: string)
    requires Unique(u.list) && forall b <- bs :: !IsDelete(b.id)
    ensures Unique(UpsertAll(u, bs, false).list)
    ensures MtimeIn(ById(UpsertAll(u, bs, false).list), id) == NewestOffered(MtimeIn(ById(u.list), id), bs, id)
    decreases |bs|
  {
    if bs != [] {
      var n := |bs| - 1;
      NewestWins(u, bs[..n], id);
      assert bs[n] in bs;
      var v := UpsertAll(u, bs[..n], false);
      UpsertOneMap(v, bs[n], false);
      forall k | k in ById(v.list) ensures ById(v.list)[k].id == k {
        ByIdMember(v.list, k);
      }
      UpsertMapNewer(ById(v.list), bs[n], v.maxOrder + 10, id);
    }
  }

  /** A forced entry of the synchronisation: it replaces or deletes, whatever is stored. */
  function ForcedMap(m: map<string, Button>, bs: seq<Button>): map<string, Button> {
    if bs == [] then m
    else
      var f, last := ForcedMap(m, bs[..|bs| - 1]), bs[|bs| - 1];
      if IsDelete(last.id) then f - {DeletedId(last.id)} else f[last.id := last]
  }

  /** A forced button is stored under its id as it is, except that an unknown one without an order gets
      one. */
  lemma {:induction false} ForcedOrder(u: Upserting, b: Button)
    requires Unique(u.list) && u.maxOrder >= 0 && !IsDelete(b.id)
    ensures var m := ById(UpsertOne(u, b, true).list);
      b.id in m && (m[b.id] == b <==> b.order != 0 || b.id in ById(u.list))
  {
    UpsertOneMap(u, b, true);
  }

  /** With force, buttons that carry an order replace, and deletions delete, exactly what they name,
      whatever is stored. This is the local step of the synchronisation. */
  lemma {:induction false} ForcedUpsert(u: Upserting, bs: seq<Button>)
    requires Unique(u.list) && forall b <- bs :: !IsDelete(b.id) ==> b.order != 0
    ensures Unique(UpsertAll(u, bs, true).list)
    ensures ById(UpsertAll(u, bs, true).list) == ForcedMap(ById(u.list), bs)
    decreases |bs|
  {
    if bs != [] {
      var n := |bs| - 1;
      ForcedUpsert(u, bs[..n]);
      assert bs[n] in bs;
      UpsertOneMap(UpsertAll(u, bs[..n], true), bs[n], true);
      var m := ById(UpsertAll(u, bs[..n], true).list);
      if IsDelete(bs[n].id) {
        ByIdMember(UpsertAll(u, bs[..n], true).list, DeletedId(bs[n].id));
        assert DeletedId(bs[n].id) !in m ==> m - {DeletedId(bs[n].id)} == m;
      }
    }
  }

  /** A forced deletion calls `OnButtonDelete` exactly if the button is there. */
  lemma {:induction false} ForcedCalls(list: seq<Button>, id: string, b: Button)
    requires Unique(list)
    ensures DeleteCalls(list, id, b, true) == if id in ById(list) then [(id, b.mtime)] else []
    decreases |list|
  {
    if list != [] {
      var front, last := list[..|list| - 1], list[|list| - 1];
      UniqueFront(list);
      ForcedCalls(front, id, b);
      ByIdMember(front, id);
    }
  }

  // ---- The object ----

  /** The batch with the missing fields filled in; `newIds` are the random ids drawn. */
  function NormalAll(btns: seq<Button>, now: int, newIds: seq<string>): (r: seq<Button>)
    requires |newIds| == |btns|
    ensures |r| == |btns|
  {
    seq(|btns|, i requires 0 <= i < |btns| => Normal(btns[i], now, newIds[i]))
  }

  /** A new button without an order comes last. */
  function WithOrder(b: Button, list: seq<Button>): Button {
    if b.order == 0 && b.id !in ById(list) then b.(order := MaxOrder(list) + 10) else b
  }

  class Config {
    var buttons: seq<Button>
    var deleted: seq<(string, int)>

    /** Ids are distinct and the list is ordered by (Order, Name). */
    ghost predicate Valid()
      reads this
    {
      Unique(buttons) && Sorted(buttons)
    }

    constructor ()
      ensures Valid() && buttons == [] && deleted == []
    {
      buttons, deleted := [], [];
    }

    method SortButtons()
      modifies this`buttons
      ensures Sorted(buttons) && multiset(buttons) == old(multiset(buttons))
    {
      buttons := SortSlice(buttons);
    }

    method ResequenceButtons(now: int)
      modifies this`buttons
      ensures buttons == Resequenced(old(buttons), now)
    {
      var i := 0;
      while i < |buttons|
        invariant 0 <= i <= |buttons| == |old(buttons)|
        invariant forall k :: 0 <= k < i ==> buttons[k] == old(buttons)[k].(order := (k + 1) * 10, mtime := now)
        invariant forall k :: i <= k < |buttons| ==> buttons[k] == old(buttons)[k]
      {
        buttons := buttons[i := buttons[i].(order := (i + 1) * 10, mtime := now)];
        i := i + 1;
      }
      assert buttons == Resequenced(old(buttons), now);
    }

    /** One round of the loop. */
    method UpsertNext(b: Button, force: bool, maxOrder: int) returns (maxOrder': int)
      modifies this
      ensures Upserting(buttons, maxOrder', deleted) == UpsertOne(old(Upserting(buttons, maxOrder, deleted)), b, force)
    {
      maxOrder' := maxOrder;
      if IsDelete(b.id) {
        var kept, calls := DeleteMatching(buttons, DeletedId(b.id), b, force);
        buttons, deleted := kept, deleted + calls;
        return;
      }
      var at := FindIndex(buttons, b.id);
      if at >= 0 {
        if !force && b.mtime < buttons[at].mtime {
          return;
        }
        buttons := buttons[at := b];
        if b.order > maxOrder {
          maxOrder' := b.order;
        }
      } else {
        var btn := b;
        if btn.order == 0 {
          maxOrder' := maxOrder + 10;
          btn := btn.(order := maxOrder');
        }
        buttons := buttons + [btn];
      }
    }

    /** The loop over the batch. */
    method UpsertEach(btns: seq<Button>, force: bool, now: int, newIds: seq<string>, ghost bs: seq<Button>)
      requires |newIds| == |btns| == |bs| && forall i :: 0 <= i < |btns| ==> bs[i] == Normal(btns[i], now, newIds[i])
      modifies this
      ensures var u := UpsertAll(Upserting(old(buttons), MaxOrder(old(buttons)), old(deleted)), bs, force);
              buttons == u.list && deleted == u.deleted
    {
      var maxOrder := CalcMaxOrder(buttons);
      ghost var u0 := Upserting(buttons, maxOrder, deleted);
      var i := 0;
      assert bs[..0] == [];
      while i < |btns|
        invariant 0 <= i <= |btns|
        invariant Upserting(buttons, maxOrder, deleted) == UpsertAll(u0, bs[..i], force)
      {
        assert bs[..i + 1][..i] == bs[..i];
        maxOrder := UpsertNext(Normal(btns[i], now, newIds[i]), force, maxOrder);
        i := i + 1;
      }
      assert bs[..|btns|] == bs;
    }

    /** Insert, update or delete a batch of buttons. The list keeps the buttons `UpsertAll` leaves;
        `NewestWins` and `ForcedUpsert` say which these are. */
    method UpsertButtons(btns: seq<Button>, force: bool, now: int, newIds: seq<string>)
      requires Valid() && |newIds| == |btns|
      modifies this
      ensures Valid()
      ensures var u := UpsertAll(Upserting(old(buttons), MaxOrder(old(buttons)), old(deleted)),
                                 NormalAll(btns, now, newIds), force);
              multiset(buttons) == multiset(u.list) && ById(buttons) == ById(u.list) && deleted == u.deleted
    {
      ghost var u0 := Upserting(buttons, MaxOrder(buttons), deleted);
      UpsertAllUnique(u0, NormalAll(btns, now, newIds), force);
      UpsertEach(btns, force, now, newIds, NormalAll(btns, now, newIds));
      ghost var list := buttons;
      SortButtons();
      ByIdPermuted(list, buttons);
    }

    /** Overwrite the button with the same id, or append. */
    method StoreOne(b: Button)
      requires Unique(buttons)
      modifies this`buttons
      ensures Unique(buttons)
      ensures ById(buttons) == old(ById(buttons))[b.id := WithOrder(b, old(buttons))]
    {
      var at := FindIndex(buttons, b.id);
      FoundById(buttons, b.id);
      if at >= 0 {
        ReplaceMap(buttons, at, b);
        buttons := buttons[at := b];
        assert WithOrder(b, old(buttons)) == b;
      } else {
        var btn := b;
        if btn.order == 0 {
          var maxOrder := CalcMaxOrder(buttons);
          btn := btn.(order := if |buttons| == 0 then 10 else maxOrder + 10);
        }
        AppendMap(buttons, btn);
        AppendUnique(buttons, btn);
        buttons := buttons + [btn];
        assert btn == WithOrder(b, old(buttons));
      }
    }

    /** Insert or overwrite one button, whatever its time. */
    method UpsertButton(btn: Button, now: int, newId: string)
      requires Valid()
      modifies this`buttons
      ensures Valid()
      ensures var b := Filled(btn, now, newId);
              ById(buttons) == old(ById(buttons))[b.id := WithOrder(b, old(buttons))]
      ensures var id := if btn.id == "" then newId else btn.id;
              btn.order == 0 && id !in old(ById(buttons)) ==> buttons != [] && buttons[|buttons| - 1].id == id
    {
      ghost var before := buttons;
      var b := Filled(btn, now, newId);
      StoreOne(b);
      ghost var list := buttons;
      SortButtons();
      ByIdPermuted(list, buttons);
      if b.order == 0 && b.id !in ById(before) {
        LastOne(before, WithOrder(b, before), buttons);
      }
    }

    method RemoveButton(id: string, now: int)
      requires Valid()
      modifies this
      ensures Valid()
      ensures var i := IndexOf(Tags(old(buttons)), id);
              if i == -1 then buttons == old(buttons) && deleted == old(deleted)
              else buttons == old(buttons)[..i] + old(buttons)[i + 1..] && deleted == old(deleted) + [(id, now)]
      ensures forall b :: b in buttons <==> b in old(buttons) && b.id != id
    {
      var i := FindIndex(buttons, id);
      if i >= 0 {
        var rest := buttons[..i] + buttons[i + 1..];
        RemovedAt(buttons, i, rest);
        buttons, deleted := rest, deleted + [(id, now)];
      } else {
        NotThere(buttons, id);
      }
    }

    /** Move a button within its group. `sorted` is the list after the sort at the start. For every
        direction but 0 both ways of renumbering give the same sequence: the sorted list with the
        button next to its target, in strict order. With direction 0 it lands where `Landing` says. */
    method MoveButton(id: string, direction: int, now: int) returns (ghost sorted: seq<Button>)
      requires Unique(buttons)
      modifies this`buttons
      ensures Valid()
      ensures Sorted(sorted) && multiset(sorted) == multiset(old(buttons))
      ensures MoveResult(sorted, id, direction, now, buttons)
      ensures ById(sorted) == old(ById(buttons))
      ensures var t := Target(Tags(sorted), id, direction);
              if t.Some? then Changes(sorted, id, t.value, direction, now, buttons) else buttons == sorted
      ensures direction != 0 ==> Tags(buttons) == MoveTags(Tags(sorted), id, direction)
      ensures direction != 0 && Target(Tags(sorted), id, direction).Some? ==> StrictOrders(buttons)
      ensures direction == 0 && IndexOf(Tags(sorted), id) >= 0 ==>
                var idx := IndexOf(Tags(sorted), id); Tags(buttons) == PutAt(Tags(sorted), idx, Landing(sorted, idx))
    {
      ghost var before := buttons;
      SortButtons();
      sorted := buttons;
      ByIdPermuted(before, sorted);
      var idx := FindIndex(buttons, id);
      if idx == -1 {
        return;
      }
      var ps := GroupIndices(buttons, buttons[idx].group);
      var pos := PositionIn(ps, idx);
      var newPos := pos + direction;
      if newPos < 0 || newPos >= |ps| {
        MoveSequence(sorted, id, direction, now, buttons);
        return;
      }
      var target := ps[newPos];
      TargetSide(Tags(buttons), id, direction, target);
      Place(idx, target, direction, now);
      Renumber(sorted, idx, target, direction, now);
      MoveChanges(sorted, id, direction, now, buttons);
      MoveSequence(sorted, id, direction, now, buttons);
    }

    /** Reposition the button in the slice and set its order and time. */
    method Place(idx: nat, target: nat, direction: int, now: int)
      requires idx < |buttons| && target < |buttons| && Unique(buttons)
      requires direction > 0 ==> idx < target
      requires direction < 0 ==> target < idx
      requires direction == 0 ==> idx == target
      modifies this`buttons
      ensures buttons == Moved(old(buttons), idx, target, direction, now)
    {
      ghost var before := buttons;
      var id := buttons[idx].id;
      var targetBtn := buttons[target];
      Insert(idx, target, direction);
      var newOrder := targetBtn.order + (if direction > 0 then 1 else -1);
      FindMoved(before, idx, target, direction);
      var movedIdx := FindIndex(buttons, id);
      UpdateMoved(before, idx, target, direction, buttons[movedIdx].(order := newOrder, mtime := now));
      buttons := buttons[movedIdx := buttons[movedIdx].(order := newOrder, mtime := now)];
    }

    /** Take the button out and put it in next to its target. */
    method Insert(idx: nat, target: nat, direction: int)
      requires idx < |buttons| && target < |buttons| && Unique(buttons)
      requires direction > 0 ==> idx < target
      requires direction < 0 ==> target < idx
      requires direction == 0 ==> idx == target
      modifies this`buttons
      ensures buttons == Reposition(old(buttons), idx, target, direction)
    {
      ghost var before := buttons;
      var targetBtn := buttons[target];
      var btnObj := buttons[idx];
      buttons := buttons[..idx] + buttons[idx + 1..];
      var finalTarget := FindIndex(buttons, targetBtn.id);
      FindAfterRemoval(before, idx, target);
      var insertIdx := if direction > 0 then finalTarget + 1 else finalTarget;
      if insertIdx < 0 {
        insertIdx := 0;
      }
      InsertMeaning(before, idx, target, direction, buttons);
      if insertIdx >= |buttons| {
        buttons := buttons + [btnObj];
      } else {
        buttons := buttons[..insertIdx] + ([btnObj] + buttons[insertIdx..]);
      }
    }

    /** Renumber everything if two orders are equal, otherwise sort. */
    method Renumber(ghost sorted: seq<Button>, ghost idx: nat, ghost target: nat, ghost direction: int, now: int)
      requires Sorted(sorted) && Unique(sorted) && idx < |sorted| && target < |sorted|
      requires direction > 0 ==> idx < target
      requires direction < 0 ==> target < idx
      requires buttons == Moved(sorted, idx, target, direction, now)
      modifies this`buttons
      ensures Valid()
      ensures Renumbered(Moved(sorted, idx, target, direction, now), direction, now, buttons)
    {
      ghost var m := buttons;
      MovedUnique(sorted, idx, target, direction, now);
      var dup := HasDuplicateOrders(buttons);
      if dup {
        ResequenceButtons(now);
        StrictIsSorted(buttons);
        assert Tags(buttons) == Tags(m);
      } else {
        SortButtons();
        PermutedUnique(m, buttons);
        if direction != 0 {
          MovedStrict(sorted, idx, target, direction, now);
          SortIsUnique(m, buttons);
        }
      }
    }
  }

  /** A button with the greatest order is last in the sorted list. */
  lemma {:induction false} LastOne(before: seq<Button>, b: Button, s: seq<Button>)
    requires Unique(before) && Unique(s) && Sorted(s) && ById(s) == ById(before)[b.id := b] && b.id !in ById(before)
    requires b.order == MaxOrder(before) + 10
    ensures s != [] && s[|s| - 1].id == b.id
  {
    MaxOrderIs(before);
    ByIdMember(s, b.id);
    var i :| 0 <= i < |s| && s[i] == b;
    var last := s[|s| - 1];
    ByIdMember(s, last.id);
    ByIdMember(before, last.id);
    assert i < |s| - 1 ==> !Before(last, b);
  }

  lemma {:induction false} NotThere(s: seq<Button>, id: string)
    requires IndexOf(Tags(s), id) == -1
    ensures forall b <- s :: b.id != id
  {
    assert forall k :: 0 <= k < |s| ==> Tags(s)[k].id != id;
  }

  lemma {:induction false} RemovedAt(s: seq<Button>, i: nat, r: seq<Button>)
    requires Unique(s) && Sorted(s) && i < |s| && r == s[..i] + s[i + 1..]
    ensures Unique(r) && Sorted(r) && forall b :: b in r <==> b in s && b.id != s[i].id
  {
    forall k, l | 0 <= k < l < |r| ensures r[k].id != r[l].id && !Before(r[l], r[k]) {
      assert Tags(s)[if k < i then k else k + 1].id != Tags(s)[if l < i then l else l + 1].id;
    }
    forall k | 0 <= k < |s| && k != i ensures s[k].id != s[i].id && s[k] in r {
      assert Tags(s)[k].id != Tags(s)[i].id;
      assert r[if k < i then k else k - 1] == s[k];
    }
  }

  lemma {:induction false} MovedUnique(s: seq<Button>, idx: nat, target: nat, dir: int, now: int)
    requires Unique(s) && idx < |s| && target < |s|
    ensures Unique(Moved(s, idx, target, dir, now))
  {
    MovedTags(s, idx, target, dir, now);
    RepositionKeeps(Tags(s), idx, target, dir);
    RepositionDistinct(Tags(s), Reposition(Tags(s), idx, target, dir));
  }

  /** Where the target is after the moved button has been taken out. */
  lemma {:induction false} FindAfterRemoval(s: seq<Button>, idx: nat, target: nat)
    requires Unique(s) && idx < |s| && target < |s|
    ensures IndexOf(Tags(s[..idx] + s[idx + 1..]), s[target].id) ==
            if target == idx then -1 else if target < idx then target else target - 1
  {
    var rest := s[..idx] + s[idx + 1..];
    forall k | 0 <= k < |rest| ensures rest[k].id == Tags(s)[if k < idx then k else k + 1].id {}
    var k := IndexOf(Tags(rest), s[target].id);
    if target != idx {
      var e := if target < idx then target else target - 1;
      assert rest[e] == s[target];
      assert Tags(rest)[e].id == s[target].id;
    }
  }

  /** Setting order and time after the move is the same as before it. */
  lemma {:induction false} FindMoved(s: seq<Button>, idx: nat, target: nat, dir: int)
    requires Unique(s) && idx < |s| && target < |s|
    ensures var r := Reposition(s, idx, target, dir);
            var at := InsertAt(idx, target, dir);
            at < |r| && r[at] == s[idx] && IndexOf(Tags(r), s[idx].id) == at
  {
    var r := Reposition(s, idx, target, dir);
    MovedUnique(s, idx, target, dir, 0);
    MovedTags(s, idx, target, dir, 0);
    assert Tags(r) == Reposition(Tags(s), idx, target, dir);
    FindAt(Tags(r), InsertAt(idx, target, dir), s[idx].id);
  }

  lemma {:induction false} UpdateMoved(s: seq<Button>, idx: nat, target: nat, dir: int, b: Button)
    requires idx < |s| && target < |s|
    ensures InsertAt(idx, target, dir) < |s|
    ensures Reposition(s, idx, target, dir)[InsertAt(idx, target, dir) := b] ==
        Reposition(s[idx := b], idx, target, dir)
  {
    assert s[idx := b][..idx] == s[..idx] && s[idx := b][idx + 1..] == s[idx + 1..];
  }

  lemma {:induction false} InsertMeaning(s: seq<Button>, idx: nat, target: nat, dir: int, rest: seq<Button>)
    requires idx < |s| && target < |s| && rest == s[..idx] + s[idx + 1..]
    ensures var at := InsertAt(idx, target, dir);
            && at <= |rest|
            && Reposition(s, idx, target, dir) ==
               (if at >= |rest| then rest + [s[idx]] else rest[..at] + ([s[idx]] + rest[at..]))
  {
    var at := InsertAt(idx, target, dir);
    if at >= |rest| {
      assert rest[..at] == rest && rest[at..] == [];
    }
  }

  /** Moving one step and then one step back, each with its own renumbering, restores the sequence of
      the button's group. `first` is the list after the first move; being in strict order, the
      second call starts from it unchanged. */
  lemma {:induction false} MoveAndBack(sorted: seq<Button>, first: seq<Button>, resorted: seq<Button>, id: string,
                                       dir: int)
    requires Unique(sorted) && (dir == 1 || dir == -1) && Target(Tags(sorted), id, dir).Some?
    requires Tags(first) == MoveTags(Tags(sorted), id, dir) && StrictOrders(first)
    requires Sorted(resorted) && multiset(resorted) == multiset(first)
    ensures var g := Tags(sorted)[IndexOf(Tags(sorted), id)].group;
            && Target(Tags(resorted), id, -dir).Some?
            && GroupSeq(MoveTags(Tags(resorted), id, -dir), g) == GroupSeq(Tags(sorted), g)
  {
    SortIsUnique(first, resorted);
    MoveBack(Tags(sorted), id, dir);
  }
}
