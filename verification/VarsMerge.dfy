/** The variables: one document holding a value and a modification time per name, merged by taking
    the newer side of each name. A name with a time and no value is a deletion. */
module VarsMerge {
  import opened Basics
  import opened Replication

  datatype VarsDoc = VarsDoc(vars: map<string, string>, mtime: map<string, int>)

  const EMPTY := VarsDoc(map[], map[])

  /** Every value has a modification time. */
  predicate Timed(d: VarsDoc) {
    d.vars.Keys <= d.mtime.Keys
  }

  predicate Positive(d: VarsDoc) {
    forall k <- d.mtime :: d.mtime[k] > 0
  }

  /** A missing time reads as zero. */
  function TimeOf(d: VarsDoc, k: string): int {
    if k in d.mtime then d.mtime[k] else 0
  }

  /** The side a name is taken from: the right one only when it is strictly newer. */
  function Newer(l: VarsDoc, r: VarsDoc, k: string): VarsDoc {
    if TimeOf(r, k) > TimeOf(l, k) then r else l
  }

  function MergeOn(l: VarsDoc, r: VarsDoc, keys: set<string>): VarsDoc {
    VarsDoc(map k | k in keys && k in Newer(l, r, k).vars :: Newer(l, r, k).vars[k],
            map k | k in keys :: TimeOf(Newer(l, r, k), k))
  }

  function Merge(l: VarsDoc, r: VarsDoc): VarsDoc {
    MergeOn(l, r, l.mtime.Keys + r.mtime.Keys)
  }

  predicate Stale(d: VarsDoc, now: int, k: string) {
    k !in d.vars && now - TimeOf(d, k) > MAX_AGE
  }

  /** Forget deletions that are older than 30 days. */
  function Purge(d: VarsDoc, now: int): VarsDoc {
    d.(mtime := map k | k in d.mtime && !Stale(d, now, k) :: d.mtime[k])
  }

  function Merged(l: VarsDoc, r: VarsDoc, now: int): VarsDoc {
    Purge(Merge(l, r), now)
  }

  // ---- The merge is a join ----

  /** Equal times mean equal values, or both deleted. */
  ghost predicate Agree(a: VarsDoc, b: VarsDoc) {
    forall k :: k in a.mtime && k in b.mtime && a.mtime[k] == b.mtime[k] ==>
      (k in a.vars <==> k in b.vars) && (k in a.vars ==> k in b.vars && a.vars[k] == b.vars[k])
  }

  /** What a document says about one name. */
  datatype Entry = Entry(time: Option<int>, value: Option<string>)

  function At(d: VarsDoc, k: string): Entry {
    Entry(if k in d.mtime then Some(d.mtime[k]) else None, if k in d.vars then Some(d.vars[k]) else None)
  }

  lemma {:induction false} SameEntries(a: VarsDoc, b: VarsDoc)
    requires forall k :: At(a, k) == At(b, k)
    ensures a == b
  {
    forall k
      ensures k in a.vars <==> k in b.vars
      ensures k in a.mtime <==> k in b.mtime
      ensures k in a.vars ==> a.vars[k] == b.vars[k]
      ensures k in a.mtime ==> a.mtime[k] == b.mtime[k]
    {
      assert At(a, k) == At(b, k);
    }
    assert a.vars == b.vars;
    assert a.mtime == b.mtime;
  }

  lemma {:induction false} MergeAt(l: VarsDoc, r: VarsDoc, k: string)
    ensures At(Merge(l, r), k) ==
            if k in l.mtime || k in r.mtime then Entry(Some(TimeOf(Newer(l, r, k), k)), At(Newer(l, r, k), k).value)
            else Entry(None, None)
  {
  }

  lemma {:induction false} MergeIdempotent(a: VarsDoc)
    requires Timed(a)
    ensures Merge(a, a) == a
  {
    forall k ensures At(Merge(a, a), k) == At(a, k) {
      MergeAt(a, a, k);
    }
    SameEntries(Merge(a, a), a);
  }

  lemma {:induction false} MergeCommutative(a: VarsDoc, b: VarsDoc)
    requires Timed(a) && Timed(b) && Positive(a) && Positive(b) && Agree(a, b)
    ensures Merge(a, b) == Merge(b, a)
  {
    forall k ensures At(Merge(a, b), k) == At(Merge(b, a), k) {
      MergeAt(a, b, k);
      MergeAt(b, a, k);
    }
    SameEntries(Merge(a, b), Merge(b, a));
  }

  lemma {:induction false} AssociativeAt(a: VarsDoc, b: VarsDoc, c: VarsDoc, k: string)
    requires Positive(a) && Positive(b) && Positive(c)
    ensures At(Merge(Merge(a, b), c), k) == At(Merge(a, Merge(b, c)), k)
  {
    MergeAt(a, b, k);
    MergeAt(b, c, k);
    MergeAt(Merge(a, b), c, k);
    MergeAt(a, Merge(b, c), k);
    assert TimeOf(Merge(a, b), k) == TimeOf(Newer(a, b, k), k);
    assert TimeOf(Merge(b, c), k) == TimeOf(Newer(b, c, k), k);
    if k !in a.mtime && k !in b.mtime && k !in c.mtime {
    } else if TimeOf(c, k) > TimeOf(a, k) && TimeOf(c, k) > TimeOf(b, k) {
    } else if TimeOf(b, k) > TimeOf(a, k) {
    } else {
    }
  }

  lemma {:induction false} MergeAssociative(a: VarsDoc, b: VarsDoc, c: VarsDoc)
    requires Positive(a) && Positive(b) && Positive(c)
    ensures Merge(Merge(a, b), c) == Merge(a, Merge(b, c))
  {
    forall k ensures At(Merge(Merge(a, b), c), k) == At(Merge(a, Merge(b, c)), k) {
      AssociativeAt(a, b, c, k);
    }
    SameEntries(Merge(Merge(a, b), c), Merge(a, Merge(b, c)));
  }

  /** Without the agreement the merge of two documents depends on the side. */
  lemma {:induction false} MergeSides()
    ensures exists a, b :: Timed(a) && Timed(b) && Positive(a) && Positive(b) && Merge(a, b) != Merge(b, a)
  {
    var a, b := VarsDoc(map["x" := "1"], map["x" := 5]), VarsDoc(map["x" := "2"], map["x" := 5]);
    assert Merge(a, b).vars["x"] == "1" && Merge(b, a).vars["x"] == "2";
  }

  lemma {:induction false} MergeTimed(a: VarsDoc, b: VarsDoc, now: int)
    ensures Timed(Merge(a, b)) && Timed(Merged(a, b, now))
  {
  }

  lemma {:induction false} PurgeTwice(d: VarsDoc, now: int)
    ensures Purge(Purge(d, now), now) == Purge(d, now)
  {
    assert Purge(Purge(d, now), now).mtime == Purge(d, now).mtime;
  }

  lemma {:induction false} MergedAgain(a: VarsDoc, b: VarsDoc, now: int)
    ensures Merged(Merged(a, b, now), Merged(a, b, now), now) == Merged(a, b, now)
  {
    MergeTimed(a, b, now);
    MergeIdempotent(Merged(a, b, now));
    PurgeTwice(Merge(a, b), now);
  }

  lemma {:induction false} MergeNothing(d: VarsDoc)
    requires Timed(d) && forall k <- d.mtime :: d.mtime[k] >= 0
    ensures Merge(d, EMPTY) == d
  {
    forall k ensures At(Merge(d, EMPTY), k) == At(d, k) {
      MergeAt(d, EMPTY, k);
    }
    SameEntries(Merge(d, EMPTY), d);
  }

  /** What a merge says of one name, taken from the two documents: the greater time (none reads as 0) with its
      value, and that of the local side when the times are equal; nothing if neither side has a time, or if
      the newer one is a deletion more than 2592000000 ms (30 days) old. */
  lemma {:induction false} MergedEntry(l: VarsDoc, r: VarsDoc, now: int, k: string)
    ensures var m := Merged(l, r, now);
      var lt := if k in l.mtime then l.mtime[k] else 0;
      var rt := if k in r.mtime then r.mtime[k] else 0;
      var known := k in l.mtime || k in r.mtime;
      var vars := if rt > lt then r.vars else l.vars;
      && (k in m.vars <==> known && k in vars)
      && (k in m.vars ==> k in vars && m.vars[k] == vars[k])
      && (k in m.mtime <==> known && (k in vars || now - (if rt > lt then rt else lt) <= 2592000000))
      && (k in m.mtime ==> m.mtime[k] == if rt > lt then rt else lt)
  {
    MergeAt(l, r, k);
  }

  // ---- The loops of the program ----

  function WithEntry(d: VarsDoc, k: string, time: int, value: Option<string>): VarsDoc {
    VarsDoc(if value.Some? then d.vars[k := value.value] else d.vars, d.mtime[k := time])
  }

  lemma {:induction false} MergeOnStep(l: VarsDoc, r: VarsDoc, done: set<string>, k: string)
    requires k !in done
    ensures var n := Newer(l, r, k);
            MergeOn(l, r, done + {k}) == WithEntry(MergeOn(l, r, done), k, TimeOf(n, k), At(n, k).value)
  {
    var n := Newer(l, r, k);
    var v := WithEntry(MergeOn(l, r, done), k, TimeOf(n, k), At(n, k).value);
    forall x ensures At(MergeOn(l, r, done + {k}), x) == At(v, x) {}
    SameEntries(MergeOn(l, r, done + {k}), v);
  }

  /** Drop the deletions that are older than 30 days. */
  method DropStale(d: VarsDoc, now: int) returns (mtime: map<string, int>)
    ensures d.(mtime := mtime) == Purge(d, now)
  {
    mtime := d.mtime;
    var todo := mtime.Keys;
    while todo != {}
      invariant todo <= mtime.Keys <= d.mtime.Keys
      invariant forall k <- mtime :: mtime[k] == d.mtime[k]
      invariant forall k <- d.mtime :: k !in mtime <==> k !in todo && Stale(d, now, k)
      decreases todo
    {
      var k :| k in todo;
      todo := todo - {k};
      if k !in d.vars {
        if now - mtime[k] > MAX_AGE {
          mtime := mtime - {k};
        }
      }
    }
    assert mtime == Purge(d, now).mtime;
  }

  /** Merge name by name, in any order. */
  method MergeKeys(l: VarsDoc, r: VarsDoc) returns (mergedVars: map<string, string>, mergedMtime: map<string, int>)
    ensures VarsDoc(mergedVars, mergedMtime) == Merge(l, r)
  {
    mergedVars, mergedMtime := map[], map[];
    var todo := l.mtime.Keys + r.mtime.Keys;
    ghost var done: set<string> := {};
    assert VarsDoc(mergedVars, mergedMtime) == MergeOn(l, r, {});
    while todo != {}
      invariant todo + done == l.mtime.Keys + r.mtime.Keys && todo !! done
      invariant VarsDoc(mergedVars, mergedMtime) == MergeOn(l, r, done)
      decreases todo
    {
      var k :| k in todo;
      var lTS := TimeOf(l, k);
      var rTS := TimeOf(r, k);
      MergeOnStep(l, r, done, k);
      todo, done := todo - {k}, done + {k};
      if rTS > lTS {
        mergedMtime := mergedMtime[k := rTS];
        if k in r.vars {
          mergedVars := mergedVars[k := r.vars[k]];
        }
      } else {
        mergedMtime := mergedMtime[k := lTS];
        if k in l.vars {
          mergedVars := mergedVars[k := l.vars[k]];
        }
      }
    }
    assert done == l.mtime.Keys + r.mtime.Keys;
  }

  /** The merge of the program: merge, then drop the stale deletions. */
  method MergeDocs(l: VarsDoc, r: VarsDoc, now: int) returns (m: VarsDoc)
    ensures m == Merged(l, r, now)
  {
    var mergedVars, mergedMtime := MergeKeys(l, r);
    mergedMtime := DropStale(VarsDoc(mergedVars, mergedMtime), now);
    m := VarsDoc(mergedVars, mergedMtime);
  }

  lemma {:induction false} SameSizeSubmap<K, V>(a: map<K, V>, b: map<K, V>)
    requires |a| == |b| && forall k <- b :: k in a && a[k] == b[k]
    ensures a == b
  {
    assert |a.Keys| == |b.Keys| && b.Keys <= a.Keys;
    SubsetSameSize(b.Keys, a.Keys);
  }

  lemma {:induction false} SubsetSameSize<T>(x: set<T>, y: set<T>)
    requires x <= y && |x| == |y|
    ensures x == y
  {
    assert |y - x| == |y| - |x|;
  }

  /** Comparing the sizes and then looking up every entry of one side decides equality. */
  method Differs(d: VarsDoc, merged: VarsDoc) returns (differs: bool)
    ensures differs <==> d != merged
  {
    differs := false;
    if |d.vars| != |merged.vars| || |d.mtime| != |merged.mtime| {
      return true;
    }
    var todo := merged.vars.Keys;
    while todo != {} && !differs
      invariant todo <= merged.vars.Keys
      invariant differs ==> d != merged
      invariant !differs ==> forall k <- merged.vars :: k !in todo ==> k in d.vars && d.vars[k] == merged.vars[k]
      decreases todo
    {
      var k :| k in todo;
      todo := todo - {k};
      if k !in d.vars || d.vars[k] != merged.vars[k] {
        differs := true;
      }
    }
    if !differs {
      SameSizeSubmap(d.vars, merged.vars);
      todo := merged.mtime.Keys;
      while todo != {} && !differs
        invariant todo <= merged.mtime.Keys
        invariant differs ==> d != merged
        invariant !differs ==> forall k <- merged.mtime :: k !in todo ==> k in d.mtime && d.mtime[k] == merged.mtime[k]
        decreases todo
      {
        var k :| k in todo;
        todo := todo - {k};
        if k !in d.mtime || d.mtime[k] != merged.mtime[k] {
          differs := true;
        }
      }
      if !differs {
        SameSizeSubmap(d.mtime, merged.mtime);
      }
    }
  }

  // ---- The variables of one device ----

  /** The document after `UpdateVars`: each update sets or deletes its name at time `now`, then
      stale deletions are dropped. */
  function Updated(d: VarsDoc, updates: map<string, Option<string>>, now: int): VarsDoc {
    Purge(UpdatedOn(d, updates, updates.Keys, now), now)
  }

  function UpdatedOn(d: VarsDoc, updates: map<string, Option<string>>, keys: set<string>, now: int): VarsDoc
    requires keys <= updates.Keys
  {
    VarsDoc(map k | k in d.vars.Keys + keys && (k in keys ==> updates[k].Some?) ::
              if k in keys then updates[k].value else d.vars[k],
            map k | k in d.mtime.Keys + keys :: if k in keys then now else d.mtime[k])
  }

  class VarsStore {
    var vars: map<string, string>
    var mtime: map<string, int>

    constructor ()
      ensures Doc() == EMPTY
    {
      vars, mtime := map[], map[];
    }

    function Doc(): VarsDoc
      reads this
    {
      VarsDoc(vars, mtime)
    }

    method SetVars(doc: VarsDoc)
      modifies this
      ensures Doc() == doc
    {
      vars, mtime := doc.vars, doc.mtime;
    }

    method SetEach(updates: map<string, Option<string>>, now: int)
      modifies this
      ensures Doc() == UpdatedOn(old(Doc()), updates, updates.Keys, now)
    {
      var todo := updates.Keys;
      ghost var done: set<string> := {};
      assert Doc() == UpdatedOn(old(Doc()), updates, {}, now);
      while todo != {}
        invariant todo + done == updates.Keys && todo !! done
        invariant Doc() == UpdatedOn(old(Doc()), updates, done, now)
        decreases todo
      {
        var k :| k in todo;
        UpdatedOnStep(old(Doc()), updates, done, now, k);
        todo, done := todo - {k}, done + {k};
        if updates[k].None? {
          vars := vars - {k};
        } else {
          vars := vars[k := updates[k].value];
        }
        mtime := mtime[k := now];
      }
      assert done == updates.Keys;
    }

    method UpdateVars(updates: map<string, Option<string>>, now: int)
      modifies this
      ensures Doc() == Updated(old(Doc()), updates, now)
      ensures old(Timed(Doc())) ==> Timed(Doc())
      ensures forall k <- updates :: SetTo(Doc(), k, updates[k], now)
      ensures forall k: string :: k !in updates ==> LeftAlone(old(Doc()), Doc(), k, now)
    {
      ghost var before := Doc();
      SetEach(updates, now);
      mtime := DropStale(Doc(), now);
      UpdateExactly(before, updates, now);
    }
  }

  /** The name has that value, or none, since `now`. */
  ghost predicate SetTo(d: VarsDoc, k: string, value: Option<string>, now: int) {
    && k in d.mtime && d.mtime[k] == now
    && match value
       case Some(v) => k in d.vars && d.vars[k] == v
       case None => k !in d.vars
  }

  /** The name has the value and the time that it had. Only the note of a deletion that is more than
      2592000000 ms (30 days) old goes. */
  ghost predicate LeftAlone(before: VarsDoc, after: VarsDoc, k: string, now: int) {
    && (k in after.vars <==> k in before.vars)
    && (k in before.vars ==> k in after.vars && after.vars[k] == before.vars[k])
    && (k in after.mtime <==> k in before.mtime && (k in before.vars || now - before.mtime[k] <= 2592000000))
    && (k in after.mtime ==> k in before.mtime && after.mtime[k] == before.mtime[k])
  }

  /** An update sets the given names and touches no other. */
  lemma {:induction false} UpdateExactly(d: VarsDoc, updates: map<string, Option<string>>, now: int)
    ensures forall k <- updates :: SetTo(Updated(d, updates, now), k, updates[k], now)
    ensures forall k: string :: k !in updates ==> LeftAlone(d, Updated(d, updates, now), k, now)
  {
    var u := Updated(d, updates, now);
    forall k | k in updates ensures SetTo(u, k, updates[k], now) {
      assert TimeOf(UpdatedOn(d, updates, updates.Keys, now), k) == now;
    }
    forall k: string | k !in updates ensures LeftAlone(d, u, k, now) {
    }
  }

  lemma {:induction false} UpdatedOnStep(d: VarsDoc, updates: map<string, Option<string>>, done: set<string>, now: int,
                                         k: string)
    requires done <= updates.Keys && k in updates && k !in done
    ensures var u := UpdatedOn(d, updates, done, now);
            UpdatedOn(d, updates, done + {k}, now) ==
            VarsDoc(if updates[k].Some? then u.vars[k := updates[k].value] else u.vars - {k}, u.mtime[k := now])
  {
    var u := UpdatedOn(d, updates, done, now);
    var v := VarsDoc(if updates[k].Some? then u.vars[k := updates[k].value] else u.vars - {k}, u.mtime[k := now]);
    forall x ensures At(UpdatedOn(d, updates, done + {k}, now), x) == At(v, x) {}
    SameEntries(UpdatedOn(d, updates, done + {k}, now), v);
  }

  /** An update wins every later merge with older documents: what the user set or deleted at `now`
      is what the merge holds, on either side. */
  lemma {:induction false} UpdateWins(d: VarsDoc, r: VarsDoc, updates: map<string, Option<string>>, now: int, k: string)
    requires k in updates && now > 0 && TimeOf(r, k) < now
    ensures var m := Merge(Updated(d, updates, now), r);
            var m' := Merge(r, Updated(d, updates, now));
            && (if updates[k].Some? then k in m.vars && m.vars[k] == updates[k].value else k !in m.vars)
            && (if updates[k].Some? then k in m'.vars && m'.vars[k] == updates[k].value else k !in m'.vars)
  {
    var u := Updated(d, updates, now);
    assert k in u.mtime && u.mtime[k] == now;
  }
}
