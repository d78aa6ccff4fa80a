/** The order of the button list, and what moving a button means, on lists of values. */
module ButtonOrder {
  import opened Basics

  /** A button. `other` stands for the fields no operation looks at. */
  datatype Button = Button(id: string, name: string, typ: string, group: string, order: int, mtime: int,
                           payload: string, other: string)

  // ---- The order of the list ----

  /** Go's `<` on strings. */
  predicate StrLess(a: string, b: string) {
    b != [] && (a == [] || a[0] < b[0] || (a[0] == b[0] && StrLess(a[1..], b[1..])))
  }

  predicate Before(a: Button, b: Button) {
    a.order < b.order || (a.order == b.order && StrLess(a.name, b.name))
  }

  /** The names differ first at `k`, and there `a` has the smaller character or has ended. */
  ghost predicate SmallerAt(a: string, b: string, k: nat) {
    k <= |a| && k < |b| && a[..k] == b[..k] && (k == |a| || a[k] < b[k])
  }

  lemma {:induction false} StrLessAt(a: string, b: string, k: nat)
    requires SmallerAt(a, b, k)
    ensures StrLess(a, b)
    decreases |a|
  {
    if k > 0 {
      assert a[..k][0] == b[..k][0];
      assert a[1..][..k - 1] == a[..k][1..] == b[..k][1..] == b[1..][..k - 1];
      StrLessAt(a[1..], b[1..], k - 1);
    }
  }

  lemma {:induction false} StrLessSomewhere(a: string, b: string) returns (k: nat)
    requires StrLess(a, b)
    ensures SmallerAt(a, b, k)
    decreases |a|
  {
    if a == [] || a[0] < b[0] {
      k := 0;
    } else {
      k := StrLessSomewhere(a[1..], b[1..]);
      assert a[..k + 1] == [a[0]] + a[1..][..k] && b[..k + 1] == [b[0]] + b[1..][..k];
      k := k + 1;
    }
  }

  /** The order of the list: by the order, and for equal orders by the names, character by character. */
  lemma {:induction false} BeforeIff(a: Button, b: Button)
    ensures Before(a, b) <==>
            a.order < b.order || (a.order == b.order && exists k: nat :: SmallerAt(a.name, b.name, k))
  {
    if StrLess(a.name, b.name) {
      var k := StrLessSomewhere(a.name, b.name);
    } else if k: nat :| SmallerAt(a.name, b.name, k) {
      StrLessAt(a.name, b.name, k);
    }
  }

  /** No button comes before an earlier one. */
  ghost predicate Sorted(s: seq<Button>) {
    forall i, j :: 0 <= i < j < |s| ==> !Before(s[j], s[i])
  }

  lemma {:induction false} StrLessTrans(a: string, b: string, c: string)
    requires !StrLess(b, a) && !StrLess(c, b)
    ensures !StrLess(c, a)
    decreases |a|
  {
    if a != [] && b != [] && c != [] && a[0] == b[0] == c[0] {
      StrLessTrans(a[1..], b[1..], c[1..]);
    }
  }

  lemma {:induction false} StrLessTotal(a: string, b: string)
    ensures !(StrLess(a, b) && StrLess(b, a))
    decreases |a|
  {
    if a != [] && b != [] && a[0] == b[0] {
      StrLessTotal(a[1..], b[1..]);
    }
  }

  lemma {:induction false} NotBeforeTrans(a: Button, b: Button, c: Button)
    requires !Before(b, a) && !Before(c, b)
    ensures !Before(c, a)
  {
    if a.order == b.order == c.order {
      StrLessTrans(a.name, b.name, c.name);
    }
  }

  // ---- Sorting ----

  /** Some sort: the list becomes ordered and keeps its buttons. Buttons equal in order and name may
      come out either way, as with `sort.Slice`. */
  method SortSlice(s: seq<Button>) returns (r: seq<Button>)
    ensures Sorted(r) && multiset(r) == multiset(s)
  {
    r := [];
    var i := 0;
    while i < |s|
      invariant 0 <= i <= |s| && Sorted(r) && multiset(r) == multiset(s[..i])
    {
      assert s[..i + 1] == s[..i] + [s[i]];
      r := InsertSorted(r, s[i]);
      i := i + 1;
    }
    assert s[..|s|] == s;
  }

  method InsertSorted(s: seq<Button>, b: Button) returns (r: seq<Button>)
    requires Sorted(s)
    ensures Sorted(r) && multiset(r) == multiset(s) + multiset{b}
  {
    var k := |s|;
    while k > 0 && Before(b, s[k - 1])
      invariant 0 <= k <= |s| && forall i :: k <= i < |s| ==> Before(b, s[i])
    {
      k := k - 1;
    }
    r := s[..k] + [b] + s[k..];
    InsertedSorted(s, b, k);
    assert s == s[..k] + s[k..];
  }

  lemma {:induction false} InsertedSorted(s: seq<Button>, b: Button, k: nat)
    requires Sorted(s) && k <= |s| && (k > 0 ==> !Before(b, s[k - 1]))
    requires forall i :: k <= i < |s| ==> Before(b, s[i])
    ensures Sorted(s[..k] + [b] + s[k..])
  {
    forall i | 0 <= i < k ensures !Before(b, s[i]) {
      if i < k - 1 {
        NotBeforeTrans(s[i], s[k - 1], b);
      }
    }
    forall i | k <= i < |s| ensures !Before(s[i], b) {
      StrLessTotal(b.name, s[i].name);
    }
  }

  ghost predicate StrictOrders(s: seq<Button>) {
    forall i, j :: 0 <= i < j < |s| ==> s[i].order < s[j].order
  }

  lemma {:induction false} StrictIsSorted(s: seq<Button>)
    requires StrictOrders(s)
    ensures Sorted(s)
  {
  }

  lemma {:induction false} SameFirst(s: seq<Button>, t: seq<Button>)
    requires StrictOrders(s) && Sorted(t) && s != [] && t != []
    requires s[0] in t && t[0] in s
    ensures s[0] == t[0]
  {
    var i :| 0 <= i < |t| && t[i] == s[0];
    var j :| 0 <= j < |s| && s[j] == t[0];
    assert i == 0 || !Before(s[0], t[0]);
  }

  lemma {:induction false} SameSize<T>(s: seq<T>, t: seq<T>)
    requires multiset(s) == multiset(t)
    ensures |s| == |t|
  {
    assert |s| == |multiset(s)| && |t| == |multiset(t)|;
  }

  lemma {:induction false} TailMultiset<T>(s: seq<T>)
    requires s != []
    ensures multiset(s[1..]) == multiset(s) - multiset{s[0]}
  {
    assert s == [s[0]] + s[1..];
  }

  lemma {:induction false} TailOrders(s: seq<Button>, r: seq<Button>)
    requires StrictOrders(s) && s != [] && r == s[1..]
    ensures StrictOrders(r)
  {
  }

  lemma {:induction false} TailSorted(s: seq<Button>, r: seq<Button>)
    requires Sorted(s) && s != [] && r == s[1..]
    ensures Sorted(r)
  {
  }

  /** Sorting a list with strictly increasing orders changes nothing. */
  lemma {:induction false} SortIsUnique(s: seq<Button>, t: seq<Button>)
    requires StrictOrders(s) && Sorted(t) && multiset(s) == multiset(t)
    ensures s == t
    decreases |s|
  {
    SameSize(s, t);
    if s != [] {
      assert s[0] in multiset(t) && t[0] in multiset(s);
      SameFirst(s, t);
      TailMultiset(s);
      TailMultiset(t);
      TailOrders(s, s[1..]);
      TailSorted(t, t[1..]);
      SortIsUnique(s[1..], t[1..]);
      assert s == [s[0]] + s[1..] && t == [t[0]] + t[1..];
    }
  }

  // ---- Moving, on ids and groups ----

  datatype Tag = Tag(id: string, group: string)

  function Tags(s: seq<Button>): (ts: seq<Tag>)
    ensures |ts| == |s| && forall i :: 0 <= i < |s| ==> ts[i] == Tag(s[i].id, s[i].group)
  {
    seq(|s|, i requires 0 <= i < |s| => Tag(s[i].id, s[i].group))
  }

  ghost predicate DistinctIds(ts: seq<Tag>) {
    forall i, j :: 0 <= i < j < |ts| ==> ts[i].id != ts[j].id
  }

  function IndexOf(ts: seq<Tag>, id: string): (k: int)
    ensures -1 <= k < |ts|
    ensures k >= 0 ==> ts[k].id == id && forall i :: 0 <= i < k ==> ts[i].id != id
    ensures k == -1 ==> forall i :: 0 <= i < |ts| ==> ts[i].id != id
  {
    if ts == [] then -1
    else if ts[0].id == id then 0
    else
      var k := IndexOf(ts[1..], id);
      if k == -1 then -1 else k + 1
  }

  /** The positions of the members of a group, in order. */
  function Positions(ts: seq<Tag>, group: string): (ps: seq<nat>)
    ensures forall i, j :: 0 <= i < j < |ps| ==> ps[i] < ps[j]
    ensures forall p: nat :: p in ps <==> p < |ts| && ts[p].group == group
    decreases |ts|
  {
    if ts == [] then []
    else
      var n := |ts| - 1;
      var front := Positions(ts[..n], group);
      assert forall i :: 0 <= i < |front| ==> front[i] in front;
      if ts[n].group == group then front + [n] else front
  }

  /** Take the element at `idx` out and put it after (`dir > 0`) or before the one at `target`. With
      `target == idx` that one is gone, and the element goes to the front. */
  function Reposition<T>(s: seq<T>, idx: nat, target: nat, dir: int): (r: seq<T>)
    requires idx < |s| && target < |s|
    ensures |r| == |s|
  {
    var rest := s[..idx] + s[idx + 1..];
    var at := InsertAt(idx, target, dir);
    rest[..at] + [s[idx]] + rest[at..]
  }

  function InsertAt(idx: nat, target: nat, dir: int): nat {
    if target == idx then 0
    else (if target < idx then target else target - 1) + (if dir > 0 then 1 else 0)
  }

  /** Where `MoveButton` finds its target, if the move has an effect. */
  function Target(ts: seq<Tag>, id: string, dir: int): (t: Option<nat>)
    ensures t.Some? ==> IndexOf(ts, id) >= 0 && t.value < |ts| && ts[t.value].group == ts[IndexOf(ts, id)].group
  {
    var idx := IndexOf(ts, id);
    if idx == -1 then None
    else
      var ps := Positions(ts, ts[idx].group);
      var pos := Rank(ps, idx);
      if 0 <= pos + dir < |ps| then
        assert ps[pos + dir] in ps;
        Some(ps[pos + dir])
      else None
  }

  /** The position of a number in a list that has it. */
  function Rank(ps: seq<nat>, p: nat): (i: nat)
    requires p in ps
    ensures i < |ps| && ps[i] == p
  {
    if ps[0] == p then 0 else 1 + Rank(ps[1..], p)
  }

  function MoveTags(ts: seq<Tag>, id: string, dir: int): seq<Tag> {
    var t := Target(ts, id, dir);
    if t.None? then ts else Reposition(ts, IndexOf(ts, id), t.value, dir)
  }

  // ---- What a move does ----

  /** A move takes one element out and leaves the others in their order; it ends up directly after
      the target, or directly before it. */
  lemma {:induction false} RepositionMeaning<T>(s: seq<T>, idx: nat, target: nat, dir: int)
    requires idx < |s| && target < |s| && target != idx && dir != 0
    ensures var r := Reposition(s, idx, target, dir);
            var at := InsertAt(idx, target, dir);
            && at < |r| && r[at] == s[idx]
            && r[..at] + r[at + 1..] == s[..idx] + s[idx + 1..]
            && (dir > 0 ==> at > 0 && r[at - 1] == s[target])
            && (dir < 0 ==> at + 1 < |r| && r[at + 1] == s[target])
  {
    var r := Reposition(s, idx, target, dir);
    var rest := s[..idx] + s[idx + 1..];
    var at := InsertAt(idx, target, dir);
    assert r[..at] == rest[..at] && r[at + 1..] == rest[at..];
    assert rest[..at] + rest[at..] == rest;
    assert rest[if target < idx then target else target - 1] == s[target];
    assert dir > 0 ==> r[at - 1] == rest[at - 1];
    assert dir < 0 ==> r[at + 1] == rest[at];
  }

  lemma {:induction false} InsertMultiset<T>(a: seq<T>, x: T, b: seq<T>)
    ensures multiset(a + [x] + b) == multiset(a + b) + multiset{x}
  {
    assert a + [x] + b == a + ([x] + b);
  }

  /** A move keeps every element. */
  lemma {:induction false} RepositionKeeps<T>(s: seq<T>, idx: nat, target: nat, dir: int)
    requires idx < |s| && target < |s|
    ensures multiset(Reposition(s, idx, target, dir)) == multiset(s)
  {
    var rest := s[..idx] + s[idx + 1..];
    var at := InsertAt(idx, target, dir);
    assert s == s[..idx] + [s[idx]] + s[idx + 1..];
    InsertMultiset(s[..idx], s[idx], s[idx + 1..]);
    assert rest == rest[..at] + rest[at..];
    InsertMultiset(rest[..at], s[idx], rest[at..]);
  }

  /** The members of a group, in order. */
  function GroupSeq(ts: seq<Tag>, g: string): seq<Tag> {
    if ts == [] then []
    else GroupSeq(ts[..|ts| - 1], g) + if ts[|ts| - 1].group == g then [ts[|ts| - 1]] else []
  }

  lemma {:induction false} GroupSeqAppend(a: seq<Tag>, b: seq<Tag>, g: string)
    ensures GroupSeq(a + b, g) == GroupSeq(a, g) + GroupSeq(b, g)
    decreases |b|
  {
    if b == [] {
      assert a + b == a;
    } else {
      var n := |b| - 1;
      assert (a + b)[..|a + b| - 1] == a + b[..n];
      GroupSeqAppend(a, b[..n], g);
    }
  }

  lemma {:induction false} NoMembers(ts: seq<Tag>, g: string)
    requires forall t <- ts :: t.group != g
    ensures GroupSeq(ts, g) == []
    decreases |ts|
  {
    if ts != [] {
      assert ts[|ts| - 1] in ts;
      NoMembers(ts[..|ts| - 1], g);
    }
  }

  lemma {:induction false} GroupSeqOne(t: Tag, g: string)
    ensures GroupSeq([t], g) == if t.group == g then [t] else []
  {
    assert [t][..0] == [];
  }

  /** The rank of a member among the positions is the number of members before it. */
  lemma {:induction false} PositionOfMember(ts: seq<Tag>, g: string, p: nat)
    requires p < |ts| && ts[p].group == g
    ensures |GroupSeq(ts[..p], g)| < |Positions(ts, g)| == |GroupSeq(ts, g)|
    ensures Positions(ts, g)[|GroupSeq(ts[..p], g)|] == p
    decreases |ts|
  {
    var n := |ts| - 1;
    var front := ts[..n];
    PositionsCount(front, g);
    if p < n {
      PositionOfMember(front, g, p);
      assert front[..p] == ts[..p];
    } else {
      assert front == ts[..p];
    }
  }

  lemma {:induction false} PositionsCount(ts: seq<Tag>, g: string)
    ensures |Positions(ts, g)| == |GroupSeq(ts, g)|
    decreases |ts|
  {
    if ts != [] {
      PositionsCount(ts[..|ts| - 1], g);
    }
  }

  lemma {:induction false} RankOfMember(ts: seq<Tag>, g: string, p: nat)
    requires p < |ts| && ts[p].group == g
    ensures p in Positions(ts, g) && Rank(Positions(ts, g), p) == |GroupSeq(ts[..p], g)|
  {
    PositionOfMember(ts, g, p);
    var ps := Positions(ts, g);
    var i, j := Rank(ps, p), |GroupSeq(ts[..p], g)|;
    assert ps[i] == p == ps[j];
  }

  /** Two members of a group with none between them. */
  ghost predicate Neighbours(ts: seq<Tag>, a: nat, b: nat) {
    a < b < |ts| && ts[a].group == ts[b].group && forall t <- ts[a + 1..b] :: t.group != ts[a].group
  }

  lemma {:induction false} BetweenPositions(ps: seq<nat>, i: nat, k: nat)
    requires forall x, y :: 0 <= x < y < |ps| ==> ps[x] < ps[y]
    requires i + 1 < |ps| && ps[i] < k < ps[i + 1]
    ensures k !in ps
  {
    forall r | 0 <= r < |ps| ensures ps[r] != k {
      assert r < i ==> ps[r] < ps[i];
      assert r > i + 1 ==> ps[i + 1] < ps[r];
    }
  }

  /** The target of a step is the neighbour in the group. */
  lemma {:induction false} StepTarget(ts: seq<Tag>, id: string, dir: int)
    requires (dir == 1 || dir == -1) && Target(ts, id, dir).Some?
    ensures var idx, t := IndexOf(ts, id), Target(ts, id, dir).value;
            if dir == 1 then Neighbours(ts, idx, t) else Neighbours(ts, t, idx)
  {
    var idx, t := IndexOf(ts, id), Target(ts, id, dir).value;
    var g := ts[idx].group;
    var ps := Positions(ts, g);
    var pos := Rank(ps, idx);
    var a, b := if dir == 1 then idx else t, if dir == 1 then t else idx;
    var low := if dir == 1 then pos else pos - 1;
    assert ps[low] == a && ps[low + 1] == b;
    forall k: nat | a < k < b ensures ts[k].group != g {
      BetweenPositions(ps, low, k);
    }
    forall x | x in ts[a + 1..b] ensures x.group != g {
      var i :| 0 <= i < |ts[a + 1..b]| && ts[a + 1..b][i] == x;
      assert x == ts[a + 1 + i];
    }
  }

  /** Conversely, the neighbour is the target. */
  lemma {:induction false} TargetOfNeighbour(ts: seq<Tag>, id: string, a: nat, b: nat)
    requires Neighbours(ts, a, b)
    ensures IndexOf(ts, id) == a ==> Target(ts, id, 1) == Some(b)
    ensures IndexOf(ts, id) == b ==> Target(ts, id, -1) == Some(a)
  {
    var g := ts[a].group;
    RankOfMember(ts, g, a);
    RankOfMember(ts, g, b);
    PositionOfMember(ts, g, a);
    PositionOfMember(ts, g, b);
    UpToNeighbour(ts, a, b, g);
  }

  lemma {:induction false} UpToNeighbour(ts: seq<Tag>, a: nat, b: nat, g: string)
    requires Neighbours(ts, a, b) && g == ts[a].group
    ensures GroupSeq(ts[..b], g) == GroupSeq(ts[..a], g) + [ts[a]]
  {
    var head := ts[..a] + [ts[a]];
    assert ts[..b] == head + ts[a + 1..b];
    GroupSeqAppend(head, ts[a + 1..b], g);
    GroupSeqAppend(ts[..a], [ts[a]], g);
    GroupSeqOne(ts[a], g);
    NoMembers(ts[a + 1..b], g);
  }

  /** The group sequence around two neighbours. */
  lemma {:induction false} GroupSeqAround(ts: seq<Tag>, a: nat, b: nat, g: string)
    requires Neighbours(ts, a, b) && g == ts[a].group
    ensures GroupSeq(ts, g) == GroupSeq(ts[..a], g) + [ts[a], ts[b]] + GroupSeq(ts[b + 1..], g)
  {
    UpToNeighbour(ts, a, b, g);
    assert ts == ts[..b] + [ts[b]] + ts[b + 1..];
    GroupSeqAppend(ts[..b] + [ts[b]], ts[b + 1..], g);
    GroupSeqAppend(ts[..b], [ts[b]], g);
    GroupSeqOne(ts[b], g);
  }

  /** The list after a step to the right, and after a step to the left. */
  lemma {:induction false} StepRight(ts: seq<Tag>, a: nat, b: nat)
    requires Neighbours(ts, a, b)
    ensures Reposition(ts, a, b, 1) == ts[..a] + ts[a + 1..b] + [ts[b], ts[a]] + ts[b + 1..]
  {
  }

  lemma {:induction false} StepLeft(ts: seq<Tag>, a: nat, b: nat)
    requires Neighbours(ts, a, b)
    ensures Reposition(ts, b, a, -1) == ts[..a] + [ts[b], ts[a]] + ts[a + 1..b] + ts[b + 1..]
  {
  }

  /** The target is the member of the group that is `dir` places further in it; there is none exactly if the
      group has no such place. */
  lemma {:induction false} TargetPlace(ts: seq<Tag>, id: string, dir: int)
    requires IndexOf(ts, id) >= 0
    ensures var idx := IndexOf(ts, id);
      var g := ts[idx].group;
      var place := |GroupSeq(ts[..idx], g)| + dir;
      && (Target(ts, id, dir).Some? <==> 0 <= place < |GroupSeq(ts, g)|)
      && (Target(ts, id, dir).Some? ==>
            var t := Target(ts, id, dir).value; ts[t].group == g && |GroupSeq(ts[..t], g)| == place)
  {
    var idx := IndexOf(ts, id);
    var g := ts[idx].group;
    RankOfMember(ts, g, idx);
    PositionsCount(ts, g);
    if Target(ts, id, dir).Some? {
      var t := Target(ts, id, dir).value;
      RankOfMember(ts, g, t);
      var ps := Positions(ts, g);
      assert ps[Rank(ps, idx) + dir] == t == ps[Rank(ps, t)];
    }
  }

  // ---- There and back ----

  lemma {:induction false} FindAt(ts: seq<Tag>, k: nat, id: string)
    requires DistinctIds(ts) && k < |ts| && ts[k].id == id
    ensures IndexOf(ts, id) == k
  {
  }

  lemma {:induction false} RepositionDistinct(ts: seq<Tag>, r: seq<Tag>)
    requires DistinctIds(ts) && multiset(r) == multiset(ts)
    ensures DistinctIds(r)
  {
    forall i, j | 0 <= i < j < |r| ensures r[i].id != r[j].id {
      if r[i].id == r[j].id {
        assert r[i] in multiset(r) && r[j] in multiset(r);
        assert r[i] in ts && r[j] in ts;
        var a :| 0 <= a < |ts| && ts[a] == r[i];
        var b :| 0 <= b < |ts| && ts[b] == r[j];
        assert a == b;
        OnceOnly(ts, a);
        TwiceIn(r, i, j);
      }
    }
  }

  lemma {:induction false} OnceOnly(ts: seq<Tag>, a: nat)
    requires DistinctIds(ts) && a < |ts|
    ensures multiset(ts)[ts[a]] == 1
  {
    assert ts == ts[..a] + [ts[a]] + ts[a + 1..];
    InsertMultiset(ts[..a], ts[a], ts[a + 1..]);
    assert ts[a] !in ts[..a] && ts[a] !in ts[a + 1..];
  }

  lemma {:induction false} TwiceIn<T>(r: seq<T>, i: nat, j: nat)
    requires i < j < |r| && r[i] == r[j]
    ensures multiset(r)[r[i]] >= 2
  {
    assert r == r[..j] + [r[j]] + r[j + 1..];
    InsertMultiset(r[..j], r[j], r[j + 1..]);
    assert (r[..j] + r[j + 1..])[i] == r[i];
    assert r[i] in r[..j] + r[j + 1..];
  }

  lemma {:induction false} GroupSeqPair(p: Tag, q: Tag, g: string)
    requires p.group == g && q.group == g
    ensures GroupSeq([p, q], g) == [p, q]
  {
    assert [p, q] == [p] + [q];
    GroupSeqAppend([p], [q], g);
    GroupSeqOne(p, g);
    GroupSeqOne(q, g);
  }

  lemma {:induction false} GroupSeqThree(x: seq<Tag>, y: seq<Tag>, z: seq<Tag>, g: string)
    ensures GroupSeq(x + y + z, g) == GroupSeq(x, g) + GroupSeq(y, g) + GroupSeq(z, g)
  {
    GroupSeqAppend(x + y, z, g);
    GroupSeqAppend(x, y, g);
  }

  /** Elements of other groups may stand before or after the two neighbours. */
  lemma {:induction false} SameGroupSeq(ts: seq<Tag>, a: nat, b: nat, left: seq<Tag>, right: seq<Tag>,
                                        head: seq<Tag>, tail: seq<Tag>)
    requires Neighbours(ts, a, b) && head == ts[..a] + left && tail == right + ts[b + 1..]
    requires (forall t <- left :: t.group != ts[a].group) && (forall t <- right :: t.group != ts[a].group)
    ensures GroupSeq(head + [ts[a], ts[b]] + tail, ts[a].group) == GroupSeq(ts, ts[a].group)
  {
    var g := ts[a].group;
    GroupSeqAround(ts, a, b, g);
    GroupSeqThree(head, [ts[a], ts[b]], tail, g);
    GroupSeqPair(ts[a], ts[b], g);
    GroupSeqAppend(ts[..a], left, g);
    GroupSeqAppend(right, ts[b + 1..], g);
    NoMembers(left, g);
    NoMembers(right, g);
    Nothing(GroupSeq(ts[..a], g));
    Nothing(GroupSeq(ts[b + 1..], g));
  }

  lemma {:induction false} Nothing<T>(s: seq<T>)
    ensures s + [] == s && [] + s == s
  {
  }

  lemma {:induction false} AfterRight(ts: seq<Tag>, a: nat, b: nat, r: seq<Tag>)
    requires DistinctIds(ts) && Neighbours(ts, a, b) && r == Reposition(ts, a, b, 1)
    ensures DistinctIds(r) && Neighbours(r, b - 1, b) && r[b - 1] == ts[b] && r[b] == ts[a]
    ensures r[..b - 1] == ts[..a] + ts[a + 1..b] && r[b + 1..] == ts[b + 1..]
  {
    StepRight(ts, a, b);
    RepositionKeeps(ts, a, b, 1);
    RepositionDistinct(ts, r);
  }

  lemma {:induction false} AfterLeft(ts: seq<Tag>, a: nat, b: nat, r: seq<Tag>)
    requires DistinctIds(ts) && Neighbours(ts, a, b) && r == Reposition(ts, b, a, -1)
    ensures DistinctIds(r) && Neighbours(r, a, a + 1) && r[a] == ts[b] && r[a + 1] == ts[a]
    ensures r[..a] == ts[..a] && r[a + 2..] == ts[a + 1..b] + ts[b + 1..]
  {
    StepLeft(ts, a, b);
    RepositionKeeps(ts, b, a, -1);
    RepositionDistinct(ts, r);
  }

  /** Moving back over an adjacent member swaps the two. */
  lemma {:induction false} SwapLeft(r: seq<Tag>, id: string, k: nat)
    requires DistinctIds(r) && Neighbours(r, k, k + 1) && r[k + 1].id == id
    ensures Target(r, id, -1).Some? && MoveTags(r, id, -1) == r[..k] + [r[k + 1], r[k]] + r[k + 2..]
  {
    FindAt(r, k + 1, id);
    TargetOfNeighbour(r, id, k, k + 1);
    StepLeft(r, k, k + 1);
    assert r[k + 1..k + 1] == [];
  }

  lemma {:induction false} SwapRight(r: seq<Tag>, id: string, k: nat)
    requires DistinctIds(r) && Neighbours(r, k, k + 1) && r[k].id == id
    ensures Target(r, id, 1).Some? && MoveTags(r, id, 1) == r[..k] + [r[k + 1], r[k]] + r[k + 2..]
  {
    FindAt(r, k, id);
    TargetOfNeighbour(r, id, k, k + 1);
    StepRight(r, k, k + 1);
    assert r[k + 1..k + 1] == [];
  }

  /** A step to the right and back restores the sequence of the group. */
  lemma {:induction false} RightAndBack(ts: seq<Tag>, id: string, a: nat, b: nat, r: seq<Tag>)
    requires DistinctIds(ts) && Neighbours(ts, a, b) && ts[a].id == id && r == Reposition(ts, a, b, 1)
    ensures Target(r, id, -1).Some? && GroupSeq(MoveTags(r, id, -1), ts[a].group) == GroupSeq(ts, ts[a].group)
  {
    AfterRight(ts, a, b, r);
    SwapLeft(r, id, b - 1);
    Nothing(ts[b + 1..]);
    SameGroupSeq(ts, a, b, ts[a + 1..b], [], r[..b - 1], r[b + 1..]);
  }

  /** A step to the left and back restores the sequence of the group. */
  lemma {:induction false} LeftAndBack(ts: seq<Tag>, id: string, a: nat, b: nat, r: seq<Tag>)
    requires DistinctIds(ts) && Neighbours(ts, a, b) && ts[b].id == id && r == Reposition(ts, b, a, -1)
    ensures Target(r, id, 1).Some? && GroupSeq(MoveTags(r, id, 1), ts[a].group) == GroupSeq(ts, ts[a].group)
  {
    AfterLeft(ts, a, b, r);
    SwapRight(r, id, a);
    Nothing(ts[..a]);
    SameGroupSeq(ts, a, b, [], ts[a + 1..b], r[..a], r[a + 2..]);
  }

  /** Moving one step and then one step back always works and restores the sequence of the group. */
  lemma {:induction false} MoveBack(ts: seq<Tag>, id: string, dir: int)
    requires DistinctIds(ts) && (dir == 1 || dir == -1) && Target(ts, id, dir).Some?
    ensures var g := ts[IndexOf(ts, id)].group;
            var r := MoveTags(ts, id, dir);
            Target(r, id, -dir).Some? && GroupSeq(MoveTags(r, id, -dir), g) == GroupSeq(ts, g)
  {
    var idx, t := IndexOf(ts, id), Target(ts, id, dir).value;
    StepTarget(ts, id, dir);
    if dir == 1 {
      RightAndBack(ts, id, idx, t, MoveTags(ts, id, dir));
    } else {
      LeftAndBack(ts, id, t, idx, MoveTags(ts, id, dir));
    }
  }
}
