/** A variable updated while a run is under way. The run copies the values and then the times, each under
    the lock, and in the end replaces both if its merge differs from the copies. */
module VarsEdits {
  import opened Basics
  import opened Replication
  import opened VarsMerge

  /** The copies: `torn` if the update came between the two of them, otherwise it came after both. */
  function Copied(before: VarsDoc, after: VarsDoc, torn: bool): VarsDoc {
    if torn then VarsDoc(before.vars, after.mtime) else before
  }

  /** What the device holds in the end. */
  function Kept(copied: VarsDoc, live: VarsDoc, remote: VarsDoc, now: int): VarsDoc {
    var merged := Merged(copied, remote, now);
    if merged != copied then merged else live
  }

  /** The update of one name, newer than everything known of it. */
  predicate Fresh(before: VarsDoc, remote: VarsDoc, updates: map<string, Option<string>>, k: string, t: int, now: int) {
    && k in updates && t > 0 && TimeOf(before, k) < t && TimeOf(remote, k) < t && now - t <= MAX_AGE
  }

  lemma {:induction false} UpdatedAt(d: VarsDoc, updates: map<string, Option<string>>, t: int, k: string)
    requires k in updates && t > 0
    ensures At(UpdatedOn(d, updates, updates.Keys, t), k) == Entry(Some(t), updates[k])
    ensures At(Updated(d, updates, t), k) == Entry(Some(t), updates[k])
  {
  }

  /** Purging leaves an entry that is fresh, or has a value. */
  lemma {:induction false} MergedAt(a: VarsDoc, b: VarsDoc, now: int, k: string)
    requires now - TimeOf(Merge(a, b), k) <= MAX_AGE
    ensures At(Merged(a, b, now), k) == At(Merge(a, b), k)
  {
  }

  /** The time of a merge is the later one, or the deletion was forgotten. */
  lemma {:induction false} MergedTime(a: VarsDoc, b: VarsDoc, now: int, k: string)
    requires TimeOf(a, k) >= 0 && TimeOf(b, k) >= 0
    ensures TimeOf(Merged(a, b, now), k) <= Max(TimeOf(a, k), TimeOf(b, k))
  {
    MergeAt(a, b, k);
  }

  predicate NonNegative(d: VarsDoc) {
    forall k <- d.mtime :: d.mtime[k] >= 0
  }

  /** An update after both copies: it is still there in the end exactly if the run had nothing to change. */
  lemma {:induction false} UpdateAfterCopies(before: VarsDoc, remote: VarsDoc, updates: map<string, Option<string>>,
                                             k: string, t: int, now: int)
    requires Fresh(before, remote, updates, k, t, now) && NonNegative(before) && NonNegative(remote)
    ensures var live := Updated(before, updates, t);
      At(Kept(Copied(before, live, false), live, remote, now), k) == Entry(Some(t), updates[k])
      <==> Merged(before, remote, now) == before
  {
    UpdatedAt(before, updates, t, k);
    MergedTime(before, remote, now, k);
  }

  /** An update between the copies: the run takes the old value for the newest. It is what the run uploads,
      and the device keeps the update exactly if the run had nothing else to change, or changed nothing. */
  lemma {:induction false} UpdateBetweenCopies(before: VarsDoc, remote: VarsDoc, updates: map<string, Option<string>>,
                                               k: string, t: int, now: int)
    requires Fresh(before, remote, updates, k, t, now)
    ensures var live := Updated(before, updates, t);
      var copied := Copied(before, live, true);
      && At(Merged(copied, remote, now), k) == Entry(Some(t), At(before, k).value)
      && (At(Kept(copied, live, remote, now), k) == Entry(Some(t), updates[k])
          <==> Merged(copied, remote, now) == copied || updates[k] == At(before, k).value)
  {
    var live := Updated(before, updates, t);
    var copied := Copied(before, live, true);
    UpdatedAt(before, updates, t, k);
    assert TimeOf(copied, k) == t;
    MergeAt(copied, remote, k);
    MergedAt(copied, remote, now, k);
  }

  /** The entry of a file is no news: it is known and not newer, or a deletion that is forgotten at once. */
  predicate NoNews(d: VarsDoc, r: VarsDoc, now: int, k: string) {
    TimeOf(r, k) <= TimeOf(d, k) || (k !in d.mtime && Stale(r, now, k))
  }

  /** What the merge says of one name. */
  lemma {:induction false} PurgedAt(d: VarsDoc, r: VarsDoc, now: int, k: string)
    ensures At(Merged(d, r, now), k) ==
            if k !in d.mtime && k !in r.mtime then Entry(None, None)
            else if Stale(Newer(d, r, k), now, k) then Entry(None, None)
            else Entry(Some(TimeOf(Newer(d, r, k), k)), At(Newer(d, r, k), k).value)
  {
  }

  lemma {:induction false} SameName(d: VarsDoc, r: VarsDoc, now: int, k: string)
    requires Positive(d) && Positive(r) && Timed(d)
    ensures At(Merged(d, r, now), k) == At(d, k) <==> NoNews(d, r, now, k) && !(k in d.mtime && Stale(d, now, k))
  {
    PurgedAt(d, r, now, k);
  }

  /** When a run has nothing to change: the file has no news, every value has a time, and no deletion is
      stale. */
  lemma {:induction false} NothingToChange(d: VarsDoc, r: VarsDoc, now: int)
    requires Positive(d) && Positive(r)
    ensures Merged(d, r, now) == d
            <==> Timed(d) && forall k :: NoNews(d, r, now, k) && !(k in d.mtime && Stale(d, now, k))
  {
    MergeTimed(d, r, now);
    if Timed(d) {
      forall k
        ensures At(Merged(d, r, now), k) == At(d, k) <==> NoNews(d, r, now, k) && !(k in d.mtime && Stale(d, now, k))
      {
        SameName(d, r, now, k);
      }
      if forall k :: NoNews(d, r, now, k) && !(k in d.mtime && Stale(d, now, k)) {
        SameEntries(Merged(d, r, now), d);
      }
    }
  }
}
