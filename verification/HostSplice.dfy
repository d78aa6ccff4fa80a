/** Saving and deleting host blocks in the line list of an ssh_config file. */
module HostSplice {
  import opened Basics
  import opened Text
  import opened HostBlocks
  import opened ConfigLines

  function Removed(lines: seq<string>, alias: string): seq<string> {
    match Find(Kinds(lines), alias)
    case None => lines
    case Some(r) => Splice(lines, r, [])
  }

  /** The blank line before an appended block. */
  function Pad(lines: seq<string>): seq<string> {
    if lines != [] && TrimSpace(lines[|lines| - 1]) != "" then [""] else []
  }

  function Placed(lines: seq<string>, name: string, block: seq<string>): seq<string> {
    match Find(Kinds(lines), name)
    case None => lines + Pad(lines) + block
    case Some(r) => Splice(lines, r, block)
  }

  /** The lines after a host was saved, under a new name if `oldAlias` is another one. */
  function Updated(lines: seq<string>, oldAlias: string, name: string, block: seq<string>): seq<string> {
    Placed(if oldAlias != "" && oldAlias != name then Removed(lines, oldAlias) else lines, name, block)
  }

  // ---- Kinds of spliced lines ----

  lemma {:induction false} KindsSplice(lines: seq<string>, r: Range, m: seq<string>)
    requires r.start <= r.end <= |lines|
    ensures Kinds(Splice(lines, r, m)) == Splice(Kinds(lines), r, Kinds(m))
  {
    var a, b := lines[..r.start], lines[r.end..];
    KindsAppend(a + m, b);
    KindsAppend(a, m);
    KindsEnds(lines, r.start);
    KindsEnds(lines, r.end);
  }

  lemma {:induction false} KindsEnds(lines: seq<string>, i: nat)
    requires i <= |lines|
    ensures Kinds(lines[..i]) == Kinds(lines)[..i] && Kinds(lines[i..]) == Kinds(lines)[i..]
  {
    assert lines == lines[..i] + lines[i..];
    KindsAppend(lines[..i], lines[i..]);
  }

  lemma {:induction false} PadIsPlain(lines: seq<string>)
    ensures PadFits(Kinds(lines), Kinds(Pad(lines)))
  {
    assert TrimSpace("") == "" && KindOf("") == Plain;
    if lines != [] {
      KindAt(lines, |lines| - 1);
    }
  }

  // ---- The frame ----

  lemma {:induction false} BlockIs(lines: seq<string>, alias: string, r: Range)
    requires IsBlock(Kinds(lines), alias, r)
    ensures Block(lines, alias) == Some(lines[r.start..r.end])
  {
    OneBlock(Kinds(lines), alias, r);
  }

  lemma {:induction false} NoBlock(lines: seq<string>, alias: string)
    requires NoHost(Kinds(lines), |lines|, alias)
    ensures Block(lines, alias) == None
  {
    NoneFound(Kinds(lines), alias);
  }

  lemma {:induction false} SameLines(lines: seq<string>, r: Range, m: seq<string>, q: Range)
    requires r.start <= r.end <= |lines| && q.start <= q.host <= q.end <= |lines|
    requires q.end <= r.start || r.end <= q.start
    ensures var q' := Moved(q, r, |m|);
      q'.start <= q'.end <= |Splice(lines, r, m)| && Splice(lines, r, m)[q'.start..q'.end] == lines[q.start..q.end]
  {
    SpliceAt(lines, r, m);
  }

  /** Replacing or deleting the block of `a` leaves the block of every other host verbatim. */
  lemma {:induction false} SpliceFrame(lines: seq<string>, a: string, r: Range, m: seq<string>, b: string)
    requires a != b && IsBlock(Kinds(lines), a, r) && Fits(Kinds(m), a)
    ensures Block(Splice(lines, r, m), b) == Block(lines, b)
  {
    KindsSplice(lines, r, m);
    var q := Find(Kinds(lines), b);
    if q.None? {
      NoneAppears(Kinds(lines), a, r, Kinds(m), b);
      NoBlock(Splice(lines, r, m), b);
    } else {
      OthersStay(Kinds(lines), a, r, Kinds(m), b, q.value);
      SameLines(lines, r, m, q.value);
      BlockIs(Splice(lines, r, m), b, Moved(q.value, r, |m|));
    }
  }

  lemma {:induction false} KindsAppended(lines: seq<string>, m: seq<string>)
    ensures Kinds(lines + Pad(lines) + m) == Kinds(lines) + Kinds(Pad(lines)) + Kinds(m)
    ensures PadFits(Kinds(lines), Kinds(Pad(lines)))
  {
    PadIsPlain(lines);
    KindsAppend(lines + Pad(lines), m);
    KindsAppend(lines, Pad(lines));
  }

  lemma {:induction false} AppendRange(lines: seq<string>, a: string, m: seq<string>, b: string, q: Range,
                                       all: seq<string>)
    requires a != b && Fits(Kinds(m), a) && m != [] && IsBlock(Kinds(lines), b, q)
    requires all == lines + Pad(lines) + m
    ensures IsBlock(Kinds(all), b, if q.end == |lines| then q.(end := |lines| + |Pad(lines)|) else q)
  {
    KindsAppended(lines, m);
    OthersStayAppend(Kinds(lines), Kinds(Pad(lines)), Kinds(m), a, b, q);
  }

  /** Appending leaves them too, but the block at the end of the file gets the blank line. */
  lemma {:induction false} AppendFrame(lines: seq<string>, a: string, m: seq<string>, b: string, q: Range,
                                       all: seq<string>)
    requires a != b && Fits(Kinds(m), a) && m != [] && IsBlock(Kinds(lines), b, q)
    requires all == lines + Pad(lines) + m
    ensures q.end < |lines| ==> Block(all, b) == Some(lines[q.start..q.end])
    ensures q.end == |lines| ==> Block(all, b) == Some(lines[q.start..q.end] + Pad(lines))
  {
    AppendRange(lines, a, m, b, q, all);
    AppendedLines(lines, Pad(lines), m, q, all);
    if q.end == |lines| {
      BlockIs(all, b, q.(end := |lines| + |Pad(lines)|));
    } else {
      BlockIs(all, b, q);
    }
  }

  lemma {:induction false} AppendedLines(lines: seq<string>, pad: seq<string>, m: seq<string>, q: Range,
                                         all: seq<string>)
    requires q.start <= q.end <= |lines| && all == lines + pad + m
    ensures all[q.start..q.end] == lines[q.start..q.end]
    ensures q.end == |lines| ==> all[q.start..|lines| + |pad|] == lines[q.start..q.end] + pad
  {
  }

  lemma {:induction false} AppendNone(lines: seq<string>, a: string, m: seq<string>, b: string)
    requires a != b && Fits(Kinds(m), a) && NoHost(Kinds(lines), |lines|, b)
    ensures Block(lines + Pad(lines) + m, b) == None
  {
    KindsAppended(lines, m);
    NoBlock(lines + Pad(lines) + m, b);
  }

  /** After deleting a host every other host's block is verbatim as before. */
  lemma {:induction false} DeleteFrame(lines: seq<string>, a: string, b: string)
    requires a != b
    ensures Block(Removed(lines, a), b) == Block(lines, b)
  {
    if Find(Kinds(lines), a).Some? {
      SpliceFrame(lines, a, Find(Kinds(lines), a).value, [], b);
    }
  }

  // ---- All lines ----

  /** A line that is neither a Host line nor a marker: settings, blank lines, comments, and also the first
      line of a Match section and an Include. */
  predicate Neither(line: string) {
    !IsHostLine(line) && !IsMarker(line)
  }

  /** Line `i` belongs to the Host line `h`: only markers between them above it, or only lines that are
      neither below it. */
  predicate Belongs(lines: seq<string>, h: nat, i: nat)
    requires h < |lines| && i < |lines|
  {
    if i <= h then forall j :: i <= j < h ==> !IsHostLine(lines[j]) && IsMarker(lines[j])
    else forall j :: h < j <= i ==> Neither(lines[j])
  }

  lemma {:induction false} InBlock(lines: seq<string>, a: string, r: Range, i: nat)
    requires IsBlock(Kinds(lines), a, r) && i < |lines|
    ensures r.start <= i < r.end <==> Belongs(lines, r.host, i)
  {
    forall j | 0 <= j < |lines| ensures Kinds(lines)[j] == KindOf(lines[j]) {
      KindAt(lines, j);
    }
    if i < r.start {
      assert Kinds(lines)[r.start - 1] != Marker;
      assert i <= r.start - 1 < r.host;
    } else if i >= r.end {
      assert Kinds(lines)[r.end] != Plain;
      assert r.host < r.end <= i;
    }
  }

  /** Deleting and replacing, for every line. What belongs to the first Host line of that name goes, all
      else stays in order. So a Match section goes with the host it follows. */
  lemma {:induction false} LinesGone(lines: seq<string>, a: string, m: seq<string>)
    ensures match Find(Kinds(lines), a)
      case None => Removed(lines, a) == lines && forall i :: 0 <= i < |lines| ==> KindOf(lines[i]) != Host(a)
      case Some(r) =>
        && Removed(lines, a) == lines[..r.start] + lines[r.end..]
        && Placed(lines, a, m) == lines[..r.start] + m + lines[r.end..]
        && r.host < |lines| && KindOf(lines[r.host]) == Host(a)
        && forall i :: 0 <= i < |lines| ==> (r.start <= i < r.end <==> Belongs(lines, r.host, i))
  {
    forall j | 0 <= j < |lines| ensures Kinds(lines)[j] == KindOf(lines[j]) {
      KindAt(lines, j);
    }
    match Find(Kinds(lines), a) {
      case None =>
      case Some(r) =>
        forall i | 0 <= i < |lines| ensures r.start <= i < r.end <==> Belongs(lines, r.host, i) {
          InBlock(lines, a, r, i);
        }
        assert lines[..r.start] + [] == lines[..r.start];
    }
  }

  /** A Match line is such a line: the first Host line's block does not end there. */
  lemma {:induction false} MatchGoes(lines: seq<string>, a: string, r: Range, i: nat)
    requires Find(Kinds(lines), a) == Some(r) && i < |lines| && r.host < i &&
        HasPrefix(ToLower(TrimSpace(lines[i])), "match ")
    requires forall j :: r.host < j < i ==> Neither(lines[j])
    ensures r.start <= i < r.end
  {
    MatchIsNeither(lines[i]);
    InBlock(lines, a, r, i);
  }

  lemma {:induction false} StartsWith(s: string, p: string, c: char)
    requires HasPrefix(s, p) && p != [] && p[0] == c
    ensures s != [] && s[0] == c
  {
  }

  lemma {:induction false} MatchIsNeither(line: string)
    requires HasPrefix(ToLower(TrimSpace(line)), "match ")
    ensures Neither(line)
  {
    var t := TrimSpace(line);
    StartsWith(ToLower(t), "match ", 'm');
    if IsHostLine(line) {
      StartsWith(ToLower(t), "host ", 'h');
      assert false;
    }
    if IsMarker(line) {
      StartsWith(t, "### ", '#');
      assert false;
    }
  }

  lemma {:induction false} FoundIff(lines: seq<string>, a: string)
    ensures Block(lines, a).None? <==> NoHost(Kinds(lines), |lines|, a)
  {
    if NoHost(Kinds(lines), |lines|, a) {
      NoBlock(lines, a);
    }
  }

  lemma {:induction false} HostsAfterCut(lines: seq<string>, a: string, r: Range, rest: seq<string>)
    requires IsBlock(Kinds(lines), a, r) && rest == Splice(lines, r, [])
    ensures NoHost(Kinds(rest), |rest|, a) <==> forall i :: r.end <= i < |lines| ==> Kinds(lines)[i] != Host(a)
  {
    KindsSplice(lines, r, []);
    HostsAfterSplice(Kinds(lines), a, r);
  }

  lemma {:induction false} HostsAfterSplice(ks: seq<LineKind>, a: string, r: Range)
    requires IsBlock(ks, a, r)
    ensures var s := Splice(ks, r, []); NoHost(s, |s|, a) <==> forall i :: r.end <= i < |ks| ==> ks[i] != Host(a)
  {
    SpliceAt(ks, r, []);
    HostsAfter(ks, a, r, Splice(ks, r, []));
  }

  /** The first Host line of that name is gone: the host is still found exactly when it had another. */
  lemma {:induction false} Deleted(lines: seq<string>, a: string, r: Range)
    requires IsBlock(Kinds(lines), a, r)
    ensures Block(Removed(lines, a), a).None? <==> forall i :: r.end <= i < |lines| ==> Kinds(lines)[i] != Host(a)
  {
    OneBlock(Kinds(lines), a, r);
    HostsAfterCut(lines, a, r, Removed(lines, a));
    FoundIff(Removed(lines, a), a);
  }

  lemma {:induction false} HostsAfter(ks: seq<LineKind>, a: string, r: Range, s: seq<LineKind>)
    requires IsBlock(ks, a, r) && |s| == |ks| + r.start - r.end
    requires forall i :: 0 <= i < r.start ==> s[i] == ks[i]
    requires forall i :: r.start <= i < |s| ==> s[i] == ks[i + r.end - r.start]
    ensures NoHost(s, |s|, a) <==> forall i :: r.end <= i < |ks| ==> ks[i] != Host(a)
  {
    forall i | r.end <= i < |ks| ensures s[i + r.start - r.end] == ks[i] {
    }
  }

  /** The blank line that saving may add at the end of the block before an appended one. */
  function Tail(lines: seq<string>, name: string, b: string): seq<string> {
    match Find(Kinds(lines), b)
    case None => []
    case Some(q) => if Find(Kinds(lines), name).None? && q.end == |lines| then Pad(lines) else []
  }

  /** Saving leaves every other host's block verbatim, save for one blank line after the last block of
      the file when the saved host is appended. */
  lemma {:induction false} PlaceFrame(lines: seq<string>, name: string, m: seq<string>, b: string)
    requires name != b && Fits(Kinds(m), name) && m != []
    ensures Block(Placed(lines, name, m), b) ==
      match Block(lines, b) case None => None case Some(before) => Some(before + Tail(lines, name, b))
    ensures |Tail(lines, name, b)| <= 1 && forall l <- Tail(lines, name, b) :: l == ""
  {
    var r, q := Find(Kinds(lines), name), Find(Kinds(lines), b);
    if r.Some? {
      SpliceFrame(lines, name, r.value, m, b);
      assert Block(lines, b).Some? ==> Block(lines, b).value + [] == Block(lines, b).value;
    } else if q.Some? {
      AppendFrame(lines, name, m, b, q.value, lines + Pad(lines) + m);
      assert Block(lines, b).value + [] == Block(lines, b).value;
    } else {
      AppendNone(lines, name, m, b);
    }
  }

  lemma {:induction false} OwnRangeSpliced(lines: seq<string>, name: string, r: Range, m: seq<string>, q: Range,
                                           all: seq<string>)
    requires Fits(Kinds(m), name) && IsBlock(Kinds(m), name, q) && q.end == |m|
    requires IsBlock(Kinds(lines), name, r) && all == Splice(lines, r, m)
    ensures IsBlock(Kinds(all), name, Shift(q, r.start))
  {
    KindsSplice(lines, r, m);
    NewBlock(Kinds(lines), name, r, Kinds(m), q);
  }

  lemma {:induction false} OwnRangeAppended(lines: seq<string>, name: string, m: seq<string>, q: Range,
                                            all: seq<string>)
    requires Fits(Kinds(m), name) && IsBlock(Kinds(m), name, q) && q.end == |m|
    requires NoHost(Kinds(lines), |lines|, name) && all == lines + Pad(lines) + m
    ensures IsBlock(Kinds(all), name, Shift(q, |lines + Pad(lines)|))
  {
    KindsAppended(lines, m);
    NewBlockAppend(Kinds(lines), Kinds(Pad(lines)), Kinds(m), name, q);
  }

  lemma {:induction false} OwnFound(a: seq<string>, m: seq<string>, z: seq<string>, q: Range, name: string,
                                    all: seq<string>)
    requires all == a + m + z && q.start <= q.end == |m| && IsBlock(Kinds(all), name, Shift(q, |a|))
    ensures Block(all, name) == Some(m[q.start..])
  {
    BlockIs(all, name, Shift(q, |a|));
    OwnLines(a, m, z, q.start, all);
  }

  lemma {:induction false} OwnLines(a: seq<string>, m: seq<string>, z: seq<string>, k: nat, all: seq<string>)
    requires k <= |m| && all == a + m + z
    ensures all[k + |a|..|m| + |a|] == m[k..]
  {
  }

  lemma {:induction false} NothingAfter(a: seq<string>, m: seq<string>)
    ensures a + m == a + m + []
  {
  }

  /** The saved host's own block is found again, from where the new lines' own block starts. */
  lemma {:induction false} PlaceOwn(lines: seq<string>, name: string, m: seq<string>, q: Range, all: seq<string>)
    requires Fits(Kinds(m), name) && IsBlock(Kinds(m), name, q) && q.end == |m|
    requires all == Placed(lines, name, m)
    ensures Block(all, name) == Some(m[q.start..])
  {
    match Find(Kinds(lines), name) {
      case Some(r) =>
        OwnRangeSpliced(lines, name, r, m, q, all);
        OwnFound(lines[..r.start], m, lines[r.end..], q, name, all);
      case None =>
        OwnRangeAppended(lines, name, m, q, all);
        NothingAfter(lines + Pad(lines), m);
        OwnFound(lines + Pad(lines), m, [], q, name, all);
    }
  }

  // ---- The code ----

  method DeleteHostLines(lines: seq<string>, name: string) returns (newLines: seq<string>, deleted: bool)
    ensures newLines == Removed(lines, name)
    ensures deleted <==> Block(lines, name).Some?
  {
    var start, end := FindHostBlock(lines, name);
    if start != -1 {
      newLines := lines[..start] + lines[end..];
      Cut(lines, start, end);
      return newLines, true;
    }
    return lines, false;
  }

  /** The splicing half of `updateLines`. */
  method UpdateLines(lines: seq<string>, oldAlias: string, name: string, block: seq<string>)
    returns (newLines: seq<string>)
    ensures newLines == Updated(lines, oldAlias, name, block)
  {
    newLines := lines;
    if oldAlias != "" && oldAlias != name {
      var start, end := FindHostBlock(newLines, oldAlias);
      if start != -1 {
        Cut(newLines, start, end);
        newLines := newLines[..start] + newLines[end..];
      }
    }
    newLines := PlaceBlock(newLines, name, block);
  }

  method PlaceBlock(lines: seq<string>, name: string, block: seq<string>) returns (newLines: seq<string>)
    ensures newLines == Placed(lines, name, block)
  {
    newLines := lines;
    var start, end := FindHostBlock(newLines, name);
    if start != -1 {
      ConcatAssoc(newLines[..start], block, newLines[end..]);
      newLines := newLines[..start] + (block + newLines[end..]);
    } else {
      PadIsPlain(lines);
      if |newLines| > 0 && TrimSpace(newLines[|newLines| - 1]) != "" {
        newLines := newLines + [""];
      } else {
        assert lines + [] == lines;
      }
      newLines := newLines + block;
    }
  }

  lemma {:induction false} Cut<T>(s: seq<T>, start: nat, end: nat)
    requires start <= end <= |s|
    ensures s[..start] + s[end..] == s[..start] + [] + s[end..]
  {
  }

  // ---- Saving, line by line ----

  /** Saving: the block under the old name goes if it is another one; then the new block takes the place of the
      one under its name, or comes last, with a blank line before it unless there is one. */
  lemma {:induction false} UpdatedExactly(lines: seq<string>, oldAlias: string, name: string, m: seq<string>)
    ensures var base := if oldAlias == "" || oldAlias == name then lines else Removed(lines, oldAlias);
      match Find(Kinds(base), name)
      case Some(r) => Updated(lines, oldAlias, name, m) == base[..r.start] + m + base[r.end..]
      case None =>
        Updated(lines, oldAlias, name, m) ==
        base + (if base == [] || Blank(base[|base| - 1]) then [] else [""]) + m
  {
    var base := if oldAlias == "" || oldAlias == name then lines else Removed(lines, oldAlias);
    if base != [] {
      BlankIff(base[|base| - 1]);
    }
  }

  /** The alias has two Host lines. */
  ghost predicate Twice(lines: seq<string>, alias: string) {
    exists i, j :: 0 <= i < j < |lines| && KindOf(lines[i]) == Host(alias) && KindOf(lines[j]) == Host(alias)
  }

  /** After a host was saved under a new name, nothing is found under the old one, unless that had a second Host
      line. */
  lemma {:induction false} OldNameGone(lines: seq<string>, oldAlias: string, name: string, m: seq<string>)
    requires oldAlias != "" && oldAlias != name && Fits(Kinds(m), name) && m != []
    ensures Block(Updated(lines, oldAlias, name, m), oldAlias).Some? <==> Twice(lines, oldAlias)
  {
    PlaceFrame(Removed(lines, oldAlias), name, m, oldAlias);
    forall i | 0 <= i < |lines| ensures Kinds(lines)[i] == KindOf(lines[i]) {
      KindAt(lines, i);
    }
    match Find(Kinds(lines), oldAlias) {
      case None => FoundIff(lines, oldAlias);
      case Some(r) =>
        Deleted(lines, oldAlias, r);
        SecondHost(lines, oldAlias, r);
    }
  }

  lemma {:induction false} SecondHost(lines: seq<string>, a: string, r: Range)
    requires IsBlock(Kinds(lines), a, r)
    ensures Twice(lines, a) <==> exists i :: r.end <= i < |lines| && Kinds(lines)[i] == Host(a)
  {
    forall i | 0 <= i < |lines| ensures Kinds(lines)[i] == KindOf(lines[i]) {
      KindAt(lines, i);
    }
    if i :| r.end <= i < |lines| && Kinds(lines)[i] == Host(a) {
      assert KindOf(lines[r.host]) == Host(a) && KindOf(lines[i]) == Host(a);
    }
    if i, j :| 0 <= i < j < |lines| && KindOf(lines[i]) == Host(a) && KindOf(lines[j]) == Host(a) {
      assert Kinds(lines)[i] == Host(a) && Kinds(lines)[j] == Host(a);
      assert r.host <= i && r.end <= j;
    }
  }
}
