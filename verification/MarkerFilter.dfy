/** The reader that discards terminal output until a marker has gone by. */
module MarkerFilter {
  import opened Basics

  // ---- Searching ----

  /** `bytes.Index`: the first position at which `m` occurs in `s`, or -1. */
  function Index(s: seq<Byte>, m: seq<Byte>): (i: int)
    ensures i == -1 || (0 <= i && i + |m| <= |s|)
    decreases |s|
  {
    if m <= s then 0
    else if s == [] then -1
    else
      var i := Index(s[1..], m);
      if i == -1 then -1 else i + 1
  }

  predicate OccursAt<T(==)>(s: seq<T>, m: seq<T>, i: nat) {
    i + |m| <= |s| && s[i..i + |m|] == m
  }

  predicate IsNewline(b: Byte) {
    b == 13 || b == 10
  }

  /** `bytes.TrimLeft(s, "\r\n")` */
  function TrimNewlines(s: seq<Byte>): (t: seq<Byte>)
    ensures |t| <= |s|
  {
    if s != [] && IsNewline(s[0]) then TrimNewlines(s[1..]) else s
  }

  /** Trimming drops exactly the longest run of carriage returns and line feeds at the front. */
  lemma {:induction false} TrimmedRun(s: seq<Byte>)
    ensures var t := TrimNewlines(s);
            && t == s[|s| - |t|..]
            && (t != [] ==> t[0] != 13 && t[0] != 10)
            && forall i :: 0 <= i < |s| - |t| ==> s[i] == 13 || s[i] == 10
  {
    if s != [] && IsNewline(s[0]) {
      TrimmedRun(s[1..]);
      var t := TrimNewlines(s[1..]);
      forall i | 0 <= i < |s| - |t| ensures s[i] == 13 || s[i] == 10 {
        assert i > 0 ==> s[i] == s[1..][i - 1];
      }
    }
  }

  lemma {:induction false} IndexFound(s: seq<Byte>, m: seq<Byte>)
    requires Index(s, m) >= 0
    ensures OccursAt(s, m, Index(s, m))
    decreases |s|
  {
    if !(m <= s) {
      IndexFound(s[1..], m);
      assert s[1..][Index(s[1..], m)..Index(s[1..], m) + |m|] == s[Index(s, m)..Index(s, m) + |m|];
    }
  }

  lemma {:induction false} IndexLeast(s: seq<Byte>, m: seq<Byte>, j: nat)
    requires OccursAt(s, m, j)
    ensures 0 <= Index(s, m) <= j
    decreases |s|
  {
    if !(m <= s) {
      assert j > 0;
      assert s[1..][j - 1..j - 1 + |m|] == s[j..j + |m|];
      IndexLeast(s[1..], m, j - 1);
    }
  }

  lemma {:induction false} IndexIs(s: seq<Byte>, m: seq<Byte>, i: nat)
    requires OccursAt(s, m, i) && forall j: nat :: j < i ==> !OccursAt(s, m, j)
    ensures Index(s, m) == i
  {
    IndexLeast(s, m, i);
    IndexFound(s, m);
  }

  lemma {:induction false} NotFound(s: seq<Byte>, m: seq<Byte>)
    requires forall j: nat :: !OccursAt(s, m, j)
    ensures Index(s, m) == -1
  {
    if Index(s, m) >= 0 {
      IndexFound(s, m);
    }
  }

  lemma {:induction false} NothingBefore(s: seq<Byte>, m: seq<Byte>, j: nat)
    requires Index(s, m) == -1 || j < Index(s, m)
    ensures !OccursAt(s, m, j)
  {
    if OccursAt(s, m, j) {
      IndexLeast(s, m, j);
    }
  }

  lemma {:induction false} OccursInSuffix(all: seq<Byte>, m: seq<Byte>, d: nat, j: nat)
    requires d <= |all|
    ensures OccursAt(all[d..], m, j) <==> OccursAt(all, m, j + d)
  {
    if j + d + |m| <= |all| {
      assert all[d..][j..j + |m|] == all[j + d..j + d + |m|];
    }
  }

  lemma {:induction false} OccursInPrefix(s: seq<Byte>, t: seq<Byte>, m: seq<Byte>, j: nat)
    requires j + |m| <= |s|
    ensures OccursAt(s + t, m, j) <==> OccursAt(s, m, j)
  {
    assert (s + t)[j..j + |m|] == s[j..j + |m|];
  }

  /** Dropping a part in which nothing starts shifts the first occurrence. */
  lemma {:induction false} IndexShift(all: seq<Byte>, near: seq<Byte>, m: seq<Byte>, d: nat)
    requires d <= |all| && near == all[d..]
    requires forall j: nat :: j < d ==> !OccursAt(all, m, j)
    ensures Index(all, m) == if Index(near, m) == -1 then -1 else d + Index(near, m)
  {
    var i := Index(near, m);
    forall j: nat | i == -1 || j < d + i ensures !OccursAt(all, m, j) {
      if j >= d {
        OccursInSuffix(all, m, d, j - d);
        NothingBefore(near, m, j - d);
      }
    }
    if i == -1 {
      NotFound(all, m);
    } else {
      IndexFound(near, m);
      OccursInSuffix(all, m, d, i);
      IndexIs(all, m, i + d);
    }
  }

  lemma {:induction false} WindowIsSuffix(past: seq<Byte>, chunk: seq<Byte>, n: nat)
    ensures LastN(past, n) + chunk == (past + chunk)[|past| - |LastN(past, n)|..]
  {
  }

  lemma {:induction false} NothingEarly(past: seq<Byte>, chunk: seq<Byte>, m: seq<Byte>, j: nat)
    requires Index(past, m) == -1 && j + |m| <= |past|
    ensures !OccursAt(past + chunk, m, j)
  {
    OccursInPrefix(past, chunk, m, j);
    NothingBefore(past, m, j);
  }

  /** An occurrence that ends in the new chunk starts in the part of the past that was kept. */
  lemma {:induction false} WindowSuffices(past: seq<Byte>, chunk: seq<Byte>, m: seq<Byte>)
    requires Index(past, m) == -1 && |m| > 0
    ensures var near := LastN(past, |m| - 1) + chunk;
            var d := |past| - |LastN(past, |m| - 1)|;
            Index(past + chunk, m) == if Index(near, m) == -1 then -1 else d + Index(near, m)
  {
    var d := |past| - |LastN(past, |m| - 1)|;
    WindowIsSuffix(past, chunk, |m| - 1);
    forall j: nat | j < d ensures !OccursAt(past + chunk, m, j) {
      NothingEarly(past, chunk, m, j);
    }
    IndexShift(past + chunk, LastN(past, |m| - 1) + chunk, m, d);
  }

  /** More of the stream does not change where its first marker is. */
  lemma {:induction false} IndexOfAppend(s: seq<Byte>, t: seq<Byte>, m: seq<Byte>)
    requires Index(s, m) >= 0
    ensures Index(s + t, m) == Index(s, m)
  {
    var i := Index(s, m);
    IndexFound(s, m);
    OccursInPrefix(s, t, m, i);
    forall j: nat | j < i ensures !OccursAt(s + t, m, j) {
      OccursInPrefix(s, t, m, j);
      NothingBefore(s, m, j);
    }
    IndexIs(s + t, m, i);
  }

  lemma {:induction false} LastNOfBoth(past: seq<Byte>, chunk: seq<Byte>, n: nat)
    ensures LastN(LastN(past, n) + chunk, n) == LastN(past + chunk, n)
  {
  }

  // ---- The specification ----

  /** What gets through of a stream whose marker was completed by a read that ended at `at`: what
      follows the first marker, without the newlines directly after it as far as that read had them. */
  function Expected(stream: seq<Byte>, m: seq<Byte>, at: nat): seq<Byte>
    requires at <= |stream| && 0 <= Index(stream, m) && Index(stream, m) + |m| <= at
  {
    TrimNewlines(stream[Index(stream, m) + |m|..at]) + stream[at..]
  }

  lemma {:induction false} TrimOfAppend(a: seq<Byte>, b: seq<Byte>)
    ensures TrimNewlines(a + b) == if TrimNewlines(a) == [] then TrimNewlines(b) else TrimNewlines(a) + b
    decreases |a|
  {
    if a == [] {
      assert a + b == b;
    } else if IsNewline(a[0]) {
      assert (a + b)[1..] == a[1..] + b;
      TrimOfAppend(a[1..], b);
    }
  }

  /** All newlines after the marker are dropped exactly when their run does not go on beyond the
      read that completed the marker. */
  lemma {:induction false} WholeRunDropped(stream: seq<Byte>, m: seq<Byte>, at: nat)
    requires at <= |stream| && 0 <= Index(stream, m) && Index(stream, m) + |m| <= at
    ensures var rest := stream[Index(stream, m) + |m|..at];
            Expected(stream, m, at) == TrimNewlines(stream[Index(stream, m) + |m|..])
            <==> !(TrimNewlines(rest) == [] && at < |stream| && (stream[at] == 13 || stream[at] == 10))
  {
    var from := Index(stream, m) + |m|;
    assert stream[from..] == stream[from..at] + stream[at..];
    TrimOfAppend(stream[from..at], stream[at..]);
    if at < |stream| && (stream[at] == 13 || stream[at] == 10) {
      assert |TrimNewlines(stream[at..])| < |stream[at..]|;
    }
  }

  /** What follows a marker completed by a chunk lies in that chunk, so it fits in the caller's
      buffer. */
  lemma {:induction false} FitsInChunk(past: seq<Byte>, chunk: seq<Byte>, m: seq<Byte>, kept: seq<Byte>, all: seq<Byte>)
    requires Index(past, m) == -1 && |m| > 0
    requires kept == LastN(past, |m| - 1) + chunk && all == past + chunk && Index(kept, m) >= 0
    ensures var after := kept[Index(kept, m) + |m|..];
            && |after| <= |chunk|
            && Index(all, m) >= 0
            && after == all[Index(all, m) + |m|..]
  {
    WindowSuffices(past, chunk, m);
    WindowIsSuffix(past, chunk, |m| - 1);
    NotInside(past, chunk, m, kept);
  }

  /** The marker is not complete before the chunk adds to it. */
  lemma {:induction false} NotInside(past: seq<Byte>, chunk: seq<Byte>, m: seq<Byte>, kept: seq<Byte>)
    requires |m| > 0 && kept == LastN(past, |m| - 1) + chunk && Index(kept, m) >= 0
    ensures Index(kept, m) + |m| >= |kept| - |chunk|
  {
  }

  lemma {:induction false} ExpectedAtEnd(all: seq<Byte>, m: seq<Byte>)
    requires Index(all, m) >= 0
    ensures Expected(all, m, |all|) == TrimNewlines(all[Index(all, m) + |m|..])
  {
    var from := Index(all, m) + |m|;
    assert all[from..|all|] == all[from..] && all[|all|..] == [];
    assert TrimNewlines(all[from..]) + [] == TrimNewlines(all[from..]);
  }

  /** At the end of the read that completes the marker, the rest of the kept bytes is `Expected`, and
      it lies in that read. */
  lemma {:induction false} ExpectedAtMatch(past: seq<Byte>, chunk: seq<Byte>, m: seq<Byte>, kept: seq<Byte>)
    requires Index(past, m) == -1 && |m| > 0
    requires kept == LastN(past, |m| - 1) + chunk && Index(kept, m) >= 0
    ensures var all := past + chunk;
            var after := kept[Index(kept, m) + |m|..];
            && Index(all, m) >= 0
            && |after| <= |chunk|
            && Expected(all, m, |all|) == TrimNewlines(after)
  {
    var all := past + chunk;
    FitsInChunk(past, chunk, m, kept, all);
    ExpectedAtEnd(all, m);
    assert kept[Index(kept, m) + |m|..] == all[Index(all, m) + |m|..];
  }

  /** Later reads are passed through unchanged. */
  lemma {:induction false} ExpectedGoesOn(c: seq<Byte>, more: seq<Byte>, m: seq<Byte>, at: nat)
    requires at <= |c| && 0 <= Index(c, m) && Index(c, m) + |m| <= at
    ensures Index(c + more, m) == Index(c, m)
    ensures Expected(c + more, m, at) == Expected(c, m, at) + more
  {
    IndexOfAppend(c, more, m);
    var from := Index(c, m) + |m|;
    assert (c + more)[from..at] == c[from..at];
    assert (c + more)[at..] == c[at..] + more;
    ConcatAssoc(TrimNewlines(c[from..at]), c[at..], more);
  }

  lemma {:induction false} TailGoesOn(head: seq<Byte>, c: seq<Byte>, more: seq<Byte>, at: nat)
    requires at <= |c|
    ensures (c + more)[..at] == c[..at]
    ensures head + (c + more)[at..] == (head + c[at..]) + more
  {
    assert (c + more)[at..] == c[at..] + more;
  }

  // ---- The objects ----

  /** One answer of the wrapped reader: at most `n` bytes, and perhaps an error with them. */
  datatype Cut = Cut(n: nat, err: bool)

  /** What a read gave. */
  datatype Answer = Answer(chunk: seq<Byte>, err: bool)

  /** The wrapped reader. It delivers `rest` in pieces that follow `cuts`, whatever they are, and then only
      reports errors. `answers` are all that it gave. */
  class Source {
    var rest: seq<Byte>
    var cuts: seq<Cut>
    ghost var answers: seq<Answer>

    constructor (rest: seq<Byte>, cuts: seq<Cut>)
      ensures this.rest == rest && this.cuts == cuts && answers == []
    {
      this.rest, this.cuts, answers := rest, cuts, [];
    }

    method Read(size: nat) returns (chunk: seq<Byte>, err: bool)
      modifies this
      ensures old(rest) == chunk + rest && |chunk| <= size
      ensures answers == old(answers) + [Answer(chunk, err)]
      ensures old(cuts) == [] ==> chunk == [] && err && cuts == []
      ensures old(cuts) != [] ==>
                && |chunk| == Min(Min(old(cuts)[0].n, size), |old(rest)|)
                && err == old(cuts)[0].err && cuts == old(cuts)[1..]
    {
      if cuts == [] {
        answers := answers + [Answer([], true)];
        return [], true;
      }
      var n := Min(Min(cuts[0].n, size), |rest|);
      chunk, err := rest[..n], cuts[0].err;
      rest, cuts := rest[n..], cuts[1..];
      answers := answers + [Answer(chunk, err)];
    }
  }

  /** How the search ended: with the marker completed by the last of `tries` reads, or with an error of the
      last of `tries` reads when they had brought no marker. They brought `at` bytes. */
  datatype Mode = Searching | Matched(at: nat, tries: nat) | GaveUp(at: nat, tries: nat)

  /** The bytes that the reads brought. */
  function Brings(log: seq<Answer>): seq<Byte> {
    if log == [] then [] else Brings(log[..|log| - 1]) + log[|log| - 1].chunk
  }

  ghost predicate NoErrors(log: seq<Answer>) {
    forall a <- log :: !a.err
  }

  /** The search goes on over all reads without an error that bring no marker. The first one that completes
      a marker ends it, with or without an error; else the first one with an error. */
  ghost predicate Explains(log: seq<Answer>, m: seq<Byte>, mode: Mode) {
    match mode
    case Searching => NoErrors(log) && Index(Brings(log), m) == -1
    case Matched(at, tries) => 0 < tries <= |log| && MatchedAt(log[..tries - 1], log[..tries], m, at)
    case GaveUp(at, tries) => 0 < tries <= |log| && FailedAt(log[..tries - 1], log[tries - 1], log[..tries], m, at)
  }

  ghost predicate MatchedAt(before: seq<Answer>, log: seq<Answer>, m: seq<Byte>, at: nat) {
    NoErrors(before) && Index(Brings(before), m) == -1 && Index(Brings(log), m) >= 0 && at == |Brings(log)|
  }

  ghost predicate FailedAt(before: seq<Answer>, last: Answer, log: seq<Answer>, m: seq<Byte>, at: nat) {
    NoErrors(before) && last.err && Index(Brings(log), m) == -1 && at == |Brings(log)|
  }

  lemma {:induction false} OneMore(log: seq<Answer>, a: Answer)
    ensures Brings(log + [a]) == Brings(log) + a.chunk
  {
    assert (log + [a])[..|log|] == log;
  }

  /** Later reads do not change how the search ended. */
  lemma {:induction false} EndedStays(log: seq<Answer>, a: Answer, m: seq<Byte>, mode: Mode)
    requires Explains(log, m, mode) && !mode.Searching?
    ensures Explains(log + [a], m, mode)
  {
    assert (log + [a])[..mode.tries - 1] == log[..mode.tries - 1] && (log + [a])[..mode.tries] == log[..mode.tries];
  }

  lemma {:induction false} SearchGoesOn(log: seq<Answer>, a: Answer, m: seq<Byte>)
    requires NoErrors(log) && !a.err && Index(Brings(log + [a]), m) == -1
    ensures Explains(log + [a], m, Searching)
  {
  }

  lemma {:induction false} MatchEnds(log: seq<Answer>, a: Answer, m: seq<Byte>)
    requires Explains(log, m, Searching) && Index(Brings(log + [a]), m) >= 0
    ensures Explains(log + [a], m, Matched(|Brings(log + [a])|, |log| + 1))
  {
    assert (log + [a])[..|log|] == log && (log + [a])[..|log| + 1] == log + [a];
  }

  lemma {:induction false} ErrorEnds(log: seq<Answer>, a: Answer, m: seq<Byte>)
    requires NoErrors(log) && a.err && Index(Brings(log + [a]), m) == -1
    ensures Explains(log + [a], m, GaveUp(|Brings(log + [a])|, |log| + 1))
  {
    assert (log + [a])[..|log|] == log && (log + [a])[..|log| + 1] == log + [a];
  }

  /** There is only one way for the search to stand. */
  lemma {:induction false} OneMode(log: seq<Answer>, m: seq<Byte>, a: Mode, b: Mode)
    requires Explains(log, m, a) && Explains(log, m, b)
    ensures a == b
  {
    if !a.Searching? { StandsLater(log, m, a); }
    if !b.Searching? { StandsLater(log, m, b); }
    if !a.Searching? && !b.Searching? {
      EndOrder(log, m, a, b);
      EndOrder(log, m, b, a);
    }
  }

  lemma {:induction false} StandsLater(log: seq<Answer>, m: seq<Byte>, a: Mode)
    requires Explains(log, m, a) && !a.Searching?
    ensures Index(Brings(log), m) >= 0 || exists x <- log :: x.err
  {
    if a.Matched? {
      BringsParts(log, a.tries);
      IndexOfAppend(Brings(log[..a.tries]), Brings(log[a.tries..]), m);
    } else {
      assert log[a.tries - 1] in log;
    }
  }

  lemma {:induction false} EndOrder(log: seq<Answer>, m: seq<Byte>, a: Mode, b: Mode)
    requires Explains(log, m, a) && Explains(log, m, b) && !a.Searching? && !b.Searching?
    ensures a.tries >= b.tries
  {
    if a.tries < b.tries {
      var before := log[..b.tries - 1];
      assert before[..a.tries] == log[..a.tries];
      if a.Matched? {
        BringsParts(before, a.tries);
        IndexOfAppend(Brings(before[..a.tries]), Brings(before[a.tries..]), m);
        BringsParts(log[..b.tries], b.tries - 1);
        assert log[..b.tries][..b.tries - 1] == before;
        if b.GaveUp? {
          IndexOfAppend(Brings(before), Brings(log[..b.tries][b.tries - 1..]), m);
        }
      }
    }
  }

  lemma {:induction false} BringsParts(log: seq<Answer>, k: nat)
    requires k <= |log|
    ensures Brings(log) == Brings(log[..k]) + Brings(log[k..])
  {
    assert log == log[..k] + log[k..];
    BringsBoth(log[..k], log[k..]);
  }

  lemma {:induction false} BringsBoth(a: seq<Answer>, b: seq<Answer>)
    ensures Brings(a + b) == Brings(a) + Brings(b)
    decreases |b|
  {
    if b == [] {
      assert a + b == a;
    } else {
      var front, last := b[..|b| - 1], b[|b| - 1];
      assert a + b == (a + front) + [last];
      BringsBoth(a, front);
      OneMore(a + front, last);
      ConcatAssoc(Brings(a), Brings(front), last.chunk);
    }
  }

  /** While searching nothing is handed out, and the bytes that may begin a marker are kept. */
  ghost predicate StillSearching(consumed: seq<Byte>, m: seq<Byte>, pending: seq<Byte>, delivered: seq<Byte>) {
    delivered == [] && Index(consumed, m) == -1 && |m| > 0 && pending == LastN(consumed, |m| - 1)
  }

  /** After a match exactly `Expected` has been handed out. */
  ghost predicate PastMarker(consumed: seq<Byte>, m: seq<Byte>, at: nat, delivered: seq<Byte>) {
    && at <= |consumed| && 0 <= Index(consumed, m) && Index(consumed, m) + |m| <= at
    && delivered == Expected(consumed, m, at)
  }

  /** After giving up, the bytes that were kept for matching come out first. */
  ghost predicate NoMarker(consumed: seq<Byte>, m: seq<Byte>, at: nat, pending: seq<Byte>, delivered: seq<Byte>) {
    && at <= |consumed| && Index(consumed[..at], m) == -1 && |m| > 0
    && delivered + pending == LastN(consumed[..at], |m| - 1) + consumed[at..]
    && (pending != [] ==> at == |consumed|)
  }

  /** A chunk has been appended to what was kept, and not yet been looked at. */
  ghost predicate Loaded(past: seq<Byte>, chunk: seq<Byte>, m: seq<Byte>, consumed: seq<Byte>, pending: seq<Byte>) {
    Index(past, m) == -1 && |m| > 0 && consumed == past + chunk && pending == LastN(past, |m| - 1) + chunk
  }

  lemma {:induction false} LoadedMatch(past: seq<Byte>, chunk: seq<Byte>, m: seq<Byte>, consumed: seq<Byte>,
                                       pending: seq<Byte>)
    requires Loaded(past, chunk, m, consumed, pending) && Index(pending, m) >= 0
    ensures var after := pending[Index(pending, m) + |m|..];
            |after| <= |chunk| && PastMarker(consumed, m, |consumed|, TrimNewlines(after))
  {
    ExpectedAtMatch(past, chunk, m, pending);
  }

  lemma {:induction false} AllFits(past: seq<Byte>, chunk: seq<Byte>, m: seq<Byte>, consumed: seq<Byte>,
                                   pending: seq<Byte>, after: seq<Byte>, size: nat)
    requires Loaded(past, chunk, m, consumed, pending) && Index(pending, m) >= 0 && |chunk| <= size
    requires after == TrimNewlines(pending[Index(pending, m) + |m|..])
    ensures Min(size, |after|) == |after| && after[..|after|] == after && after[|after|..] == []
    ensures PastMarker(consumed, m, |consumed|, after)
  {
    LoadedMatch(past, chunk, m, consumed, pending);
  }

  lemma {:induction false} LoadedNothing(past: seq<Byte>, chunk: seq<Byte>, m: seq<Byte>, consumed: seq<Byte>,
                                         pending: seq<Byte>)
    requires Loaded(past, chunk, m, consumed, pending)
    requires chunk == [] || Index(pending, m) == -1
    ensures StillSearching(consumed, m, LastN(pending, |m| - 1), [])
  {
    if chunk == [] {
      assert past + chunk == past;
    } else {
      WindowSuffices(past, chunk, m);
    }
    LastNOfBoth(past, chunk, |m| - 1);
  }

  lemma {:induction false} GivingUp(consumed: seq<Byte>, m: seq<Byte>, pending: seq<Byte>)
    requires StillSearching(consumed, m, pending, [])
    ensures NoMarker(consumed, m, |consumed|, pending, [])
  {
    assert consumed[..|consumed|] == consumed;
  }

  lemma {:induction false} Drained(consumed: seq<Byte>, m: seq<Byte>, at: nat, pending: seq<Byte>, delivered: seq<Byte>,
                                   k: nat)
    requires NoMarker(consumed, m, at, pending, delivered) && k <= |pending|
    ensures NoMarker(consumed, m, at, pending[k..], delivered + pending[..k])
  {
    ConcatAssoc(delivered, pending[..k], pending[k..]);
    assert pending == pending[..k] + pending[k..];
  }

  /** What is kept and what was handed out. */
  ghost predicate Stands(mode: Mode, consumed: seq<Byte>, m: seq<Byte>, pending: seq<Byte>, delivered: seq<Byte>) {
    match mode
    case Searching => StillSearching(consumed, m, pending, delivered)
    case Matched(at, _) => pending == [] && PastMarker(consumed, m, at, delivered)
    case GaveUp(at, _) => NoMarker(consumed, m, at, pending, delivered)
  }

  lemma {:induction false} PassedOn(mode: Mode, consumed: seq<Byte>, m: seq<Byte>, delivered: seq<Byte>, out: seq<Byte>)
    requires !mode.Searching? && Stands(mode, consumed, m, [], delivered)
    ensures Stands(mode, consumed + out, m, [], delivered + out)
  {
    if mode.Matched? {
      ExpectedGoesOn(consumed, out, m, mode.at);
    } else {
      TailGoesOn(LastN(consumed[..mode.at], |m| - 1), consumed, out, mode.at);
      assert delivered + [] == delivered && (delivered + out) + [] == delivered + out;
    }
  }

  /** How things stand when the marker is complete and all that follows it is handed out. */
  lemma {:induction false} Taken(before: seq<Answer>, last: Answer, log: seq<Answer>, m: seq<Byte>, consumed: seq<Byte>,
                                 pending: seq<Byte>, after: seq<Byte>, size: nat)
    requires log == before + [last] && consumed == Brings(log) && Explains(before, m, Searching)
    requires Loaded(Brings(before), last.chunk, m, consumed, pending) && |last.chunk| <= size && Index(pending, m) >= 0
    requires after == TrimNewlines(pending[Index(pending, m) + |m|..])
    ensures Min(size, |after|) == |after| && after[..|after|] == after && after[|after|..] == []
    ensures Explains(log, m, Matched(|consumed|, |log|)) && Stands(Matched(|consumed|, |log|), consumed, m, [], after)
  {
    AllFits(Brings(before), last.chunk, m, consumed, pending, after, size);
    MatchEnds(before, last, m);
  }

  /** The log has what the source answered since the first `skip` answers. */
  ghost predicate Recorded(answers: seq<Answer>, skip: nat, log: seq<Answer>) {
    skip <= |answers| && answers[skip..] == log
  }

  lemma {:induction false} RecordedMore(answers: seq<Answer>, skip: nat, log: seq<Answer>, a: Answer)
    requires Recorded(answers, skip, log)
    ensures Recorded(answers + [a], skip, log + [a])
  {
  }

  lemma {:induction false} PrefixMore(was: seq<Answer>, log: seq<Answer>, a: Answer)
    requires was <= log
    ensures was <= log + [a]
  {
  }

  /** What the call that ends the search returns. Its error is that of the last read, and no other read had
      one. Giving up, it returns nothing. With the marker, that was the read that completed it if output
      came behind the marker or an error with it; else it was the next one, and its answer is handed on as
      it is. */
  ghost predicate Answered(mode: Mode, log: seq<Answer>, out: seq<Byte>, err: bool) {
    && log != [] && err == log[|log| - 1].err && NoErrors(log[..|log| - 1])
    && match mode
       case Searching => false
       case GaveUp(_, tries) => tries == |log| && err && out == []
       case Matched(_, tries) =>
         || (tries == |log| && (out != [] || err))
         || (tries == |log| - 1 && log[|log| - 1] == Answer(out, err))
  }

  lemma {:induction false} PrefixOfPrefix(a: seq<Answer>, b: seq<Answer>, c: seq<Answer>)
    requires a <= b <= c
    ensures a <= c
  {
  }

  class Filter {
    const r: Source
    const marker: seq<Byte>
    var found: bool
    var pending: seq<Byte>
    ghost const skip: nat
    ghost var log: seq<Answer>
    ghost var consumed: seq<Byte>
    ghost var delivered: seq<Byte>
    ghost var mode: Mode

    /** `log` are the answers of the source to the filter, `consumed` is everything in them and `delivered`
        everything handed out. */
    ghost predicate Valid()
      reads this, r
    {
      && Recorded(r.answers, skip, log) && consumed == Brings(log) && Explains(log, marker, mode)
      && found == !mode.Searching? && Stands(mode, consumed, marker, pending, delivered)
    }

    constructor (r: Source, marker: seq<Byte>)
      requires |marker| > 0
      ensures Valid() && mode == Searching && this.r == r && this.marker == marker
      ensures log == [] && consumed == [] && delivered == []
    {
      this.r, this.marker := r, marker;
      found, pending := false, [];
      skip, log, consumed, delivered, mode := |r.answers|, [], [], [], Searching;
    }

    /** `last` has been read after the answers of `before`, and not yet been looked at. */
    ghost predicate Tried(before: seq<Answer>, last: Answer)
      reads this, r
    {
      && Recorded(r.answers, skip, log) && log == before + [last] && consumed == Brings(log)
      && Explains(before, marker, Searching) && mode == Searching && !found && delivered == []
      && Loaded(Brings(before), last.chunk, marker, consumed, pending)
    }

    /** One `Read` into a buffer of `size` bytes. */
    method Read(size: nat) returns (out: seq<Byte>, err: bool)
      requires Valid()
      modifies this, r
      ensures Valid() && |out| <= size && !mode.Searching?
      ensures delivered == old(delivered) + out
      ensures consumed + r.rest == old(consumed + r.rest)
      ensures old(found) ==> mode == old(mode)
      ensures old(found && pending != []) ==>
                log == old(log) && !err && out == old(pending)[..Min(size, |old(pending)|)]
      ensures old(found && pending == []) ==> log == old(log) + [Answer(out, err)]
      ensures !old(found) ==> old(log) <= log && |old(log)| < |log| && Answered(mode, log, out, err)
    {
      if found {
        out, err := Drain(size);
        return;
      }
      out, err := Search(size);
    }

    /** The search is over: first the bytes that are still there, then the source itself. */
    method Drain(size: nat) returns (out: seq<Byte>, err: bool)
      requires Valid() && found
      modifies this`pending, this`log, this`consumed, this`delivered, r
      ensures Valid() && mode == old(mode) && |out| <= size
      ensures delivered == old(delivered) + out && consumed + r.rest == old(consumed + r.rest)
      ensures old(pending) != [] ==> log == old(log) && !err && out == old(pending)[..Min(size, |old(pending)|)]
      ensures old(pending) == [] ==> log == old(log) + [Answer(out, err)]
    {
      if |pending| > 0 {
        out, err := pending[..Min(size, |pending|)], false;
        Drained(consumed, marker, mode.at, pending, delivered, |out|);
        pending := pending[|out|..];
        delivered := delivered + out;
      } else {
        out, err := PassThrough(size);
      }
    }

    method Search(size: nat) returns (out: seq<Byte>, err: bool)
      requires Valid() && !found
      modifies this, r
      ensures Valid() && |out| <= size && !mode.Searching?
      ensures delivered == out && consumed + r.rest == old(consumed + r.rest)
      ensures old(log) <= log && |old(log)| < |log| && Answered(mode, log, out, err)
    {
      var done := false;
      out, err := [], false;
      while !done
        invariant Valid() && consumed + r.rest == old(consumed + r.rest) && old(log) <= log
        invariant done == !mode.Searching? && delivered == out && |out| <= size
        invariant done ==> Answered(mode, log, out, err) && |old(log)| < |log|
        decreases !done, |r.cuts|
      {
        ghost var before := log;
        done, out, err := Round(size);
        PrefixOfPrefix(old(log), before, log);
      }
    }

    /** One round of the search: one read, or two when the first completes the marker and brings nothing
        else. */
    method Round(size: nat) returns (done: bool, out: seq<Byte>, err: bool)
      requires Valid() && !found
      modifies this, r
      ensures Valid() && consumed + r.rest == old(consumed + r.rest)
      ensures done == !mode.Searching? && delivered == out && |out| <= size
      ensures done ==> Answered(mode, log, out, err)
      ensures !done ==> |r.cuts| < |old(r.cuts)|
      ensures old(log) <= log && |old(log)| < |log|
    {
      ghost var before := log;
      var chunk;
      chunk, err := Load(size);
      ghost var last := Answer(chunk, err);
      PrefixMore(before, before, last);
      if |chunk| > 0 {
        var idx := Index(pending, marker);
        if idx != -1 {
          out, err := Match(before, last, idx, size, err);
          done := true;
          return;
        }
      }
      NotYet(before, last, err);
      done, out := err, [];
    }

    /** The read brought no marker: the search goes on, unless it came with an error. */
    method NotYet(ghost before: seq<Answer>, ghost last: Answer, readErr: bool)
      requires Tried(before, last) && readErr == last.err
      requires last.chunk == [] || Index(pending, marker) == -1
      modifies this`pending, this`found, this`mode
      ensures Valid() && NoErrors(log[..|log| - 1])
      ensures mode == if readErr then GaveUp(|consumed|, |log|) else Searching
    {
      Discard(before, last);
      assert log[..|log| - 1] == before;
      if readErr {
        GiveUp(before, last);
      } else {
        SearchGoesOn(before, last, marker);
      }
    }

    /** The next bytes of the source, behind those kept. */
    method Load(size: nat) returns (chunk: seq<Byte>, err: bool)
      requires Valid() && mode == Searching && !found
      modifies this`pending, this`log, this`consumed, r
      ensures Tried(old(log), Answer(chunk, err)) && |chunk| <= size
      ensures consumed + r.rest == old(consumed + r.rest)
      ensures !err ==> |r.cuts| < |old(r.cuts)|
    {
      chunk, err := r.Read(size);
      ConcatAssoc(consumed, chunk, r.rest);
      OneMore(log, Answer(chunk, err));
      RecordedMore(old(r.answers), skip, log, Answer(chunk, err));
      pending := pending + chunk;
      log := log + [Answer(chunk, err)];
      consumed := consumed + chunk;
    }

    /** The source ended without the marker. */
    method GiveUp(ghost before: seq<Answer>, ghost last: Answer)
      requires mode == Searching && !found && StillSearching(consumed, marker, pending, delivered)
      requires Recorded(r.answers, skip, log) && log == before + [last] && consumed == Brings(log)
      requires NoErrors(before) && last.err
      modifies this`found, this`mode
      ensures Valid() && mode == GaveUp(|consumed|, |log|) && NoErrors(log[..|log| - 1])
    {
      assert log[..|log| - 1] == before;
      GivingUp(consumed, marker, pending);
      ErrorEnds(before, last, marker);
      found := true;
      mode := GaveUp(|consumed|, |log|);
    }

    /** The marker is complete. Without output behind it the source is read once more. */
    method Match(ghost before: seq<Answer>, ghost last: Answer, idx: nat, size: nat, readErr: bool)
      returns (out: seq<Byte>, err: bool)
      requires Tried(before, last) && |last.chunk| <= size && readErr == last.err
      requires idx == Index(pending, marker)
      modifies this, r
      ensures Valid() && mode.Matched? && delivered == out && |out| <= size
      ensures old(log) <= log
      ensures Answered(mode, log, out, err)
      ensures consumed + r.rest == old(consumed + r.rest)
    {
      out := TakeRest(before, last, idx, size);
      err := readErr;
      assert log[..|log| - 1] == before;
      if |out| == 0 && !err {
        out, err := PassThrough(size);
        assert log[..|log| - 1] == before + [last];
        PrefixMore(before + [last], before + [last], Answer(out, err));
      }
    }

    /** Everything after the marker is output. It all fits. */
    method TakeRest(ghost before: seq<Answer>, ghost last: Answer, idx: nat, size: nat) returns (out: seq<Byte>)
      requires Tried(before, last) && |last.chunk| <= size
      requires idx == Index(pending, marker)
      modifies this`found, this`pending, this`delivered, this`mode
      ensures Valid() && mode == Matched(|consumed|, |log|) && delivered == out && |out| <= size
    {
      var after := TrimNewlines(pending[idx + |marker|..]);
      Taken(before, last, log, marker, consumed, pending, after, size);
      found := true;
      var n := Min(size, |after|);
      out, pending := after[..n], after[n..];
      mode := Matched(|consumed|, |log|);
      delivered := out;
    }

    /** Not found yet: keep what could be the beginning of the marker. */
    method Discard(ghost before: seq<Answer>, ghost last: Answer)
      requires Loaded(Brings(before), last.chunk, marker, consumed, pending)
      requires last.chunk == [] || Index(pending, marker) == -1
      modifies this`pending
      ensures StillSearching(consumed, marker, pending, [])
    {
      LoadedNothing(Brings(before), last.chunk, marker, consumed, pending);
      var keep := |marker| - 1;
      if |pending| > keep {
        pending := pending[|pending| - keep..];
      }
    }

    /** Read on, past the search. */
    method PassThrough(size: nat) returns (out: seq<Byte>, err: bool)
      requires Valid() && found && pending == []
      modifies this`log, this`consumed, this`delivered, r
      ensures Valid() && mode == old(mode) && |out| <= size
      ensures consumed + r.rest == old(consumed + r.rest) && delivered == old(delivered) + out
      ensures log == old(log) + [Answer(out, err)]
    {
      out, err := r.Read(size);
      ConcatAssoc(consumed, out, r.rest);
      OneMore(log, Answer(out, err));
      EndedStays(log, Answer(out, err), marker, mode);
      RecordedMore(old(r.answers), skip, log, Answer(out, err));
      PassedOn(mode, consumed, marker, delivered, out);
      log := log + [Answer(out, err)];
      consumed := consumed + out;
      delivered := delivered + out;
    }
  }

  function Min(a: nat, b: nat): nat {
    if a <= b then a else b
  }

  // ---- The marker and the command that prints it ----

  predicate IsHex(s: string) {
    s != [] && forall c <- s :: '0' <= c <= '9' || 'a' <= c <= 'f'
  }

  /** `%x` of a 64-bit number. */
  function Hex(n: nat): (s: string)
    ensures IsHex(s)
  {
    var d := "0123456789abcdef"[n % 16];
    if n < 16 then [d] else Hex(n / 16) + [d]
  }

  const MARKER_PREFIX := "__cozyssh_"

  function MarkerSuffix(n: nat): string {
    Hex(n) + "__"
  }

  /** The text of the injected command. The marker is put together by the shell only. */
  function EchoCommand(n: nat): string {
    "__csmk='" + MARKER_PREFIX + "';echo -n \"${__csmk}" + MarkerSuffix(n) + "\""
  }

  const COMMAND_HEAD := "__csmk='__cozyssh_';echo -n \"${__csmk}"

  lemma {:induction false} OnlyZInHead(j: nat)
    requires j < |COMMAND_HEAD| && COMMAND_HEAD[j] == 'z'
    ensures j == 12
  {
  }

  lemma {:induction false} NoZAfterHead(hex: string, cmd: string, j: int)
    requires IsHex(hex) && cmd == COMMAND_HEAD + hex + "__\"" && |COMMAND_HEAD| <= j < |cmd|
    ensures cmd[j] != 'z'
  {
    if j < |COMMAND_HEAD| + |hex| {
      assert cmd[j] == hex[j - |COMMAND_HEAD|];
      assert cmd[j] in hex;
    } else {
      assert cmd[j] == "__\""[j - |COMMAND_HEAD| - |hex|];
    }
  }

  lemma {:induction false} NotInCommand(hex: string, cmd: string, marker: string, i: nat)
    requires IsHex(hex) && cmd == COMMAND_HEAD + hex + "__\"" && marker == MARKER_PREFIX + hex + "__"
    ensures !OccursAt(cmd, marker, i)
  {
    assert marker[4] == MARKER_PREFIX[4] && marker[10] == hex[0] && hex[0] in hex;
    assert cmd[18] == COMMAND_HEAD[18];
    if OccursAt(cmd, marker, i) {
      var here := cmd[i..i + |marker|];
      assert here[4] == cmd[i + 4] && here[10] == cmd[i + 10];
      if i + 4 < |COMMAND_HEAD| {
        assert COMMAND_HEAD[i + 4] == cmd[i + 4];
        OnlyZInHead(i + 4);
      } else {
        NoZAfterHead(hex, cmd, i + 4);
      }
    }
  }

  /** The command never contains the marker it prints, so a terminal that echoes it does not trigger
      the filter. */
  lemma {:induction false} MarkerNotInCommand(n: nat, i: nat)
    ensures !OccursAt(EchoCommand(n), MARKER_PREFIX + MarkerSuffix(n), i)
  {
    CommandIs(Hex(n), "__csmk='" + MARKER_PREFIX + "';echo -n \"${__csmk}");
    assert MARKER_PREFIX + MarkerSuffix(n) == MARKER_PREFIX + Hex(n) + "__";
    NotInCommand(Hex(n), EchoCommand(n), MARKER_PREFIX + MarkerSuffix(n), i);
  }

  lemma {:induction false} CommandIs(hex: string, head: string)
    requires head == "__csmk='" + MARKER_PREFIX + "';echo -n \"${__csmk}"
    ensures head + (hex + "__") + "\"" == COMMAND_HEAD + hex + "__\""
  {
    assert head == COMMAND_HEAD;
  }
}
