/** The import of known_hosts lines chosen by the user. */
module KnownHosts {
  import opened Basics
  import opened Text

  /** A line with at least three fields: host patterns, key type, key. */
  datatype Known = Known(patterns: seq<string>, keyType: string, keyData: string)

  function Patterns(field: string): (r: seq<string>)
    ensures |r| > 0
  {
    var parts := Split(field, ',');
    seq(|parts|, i requires 0 <= i < |parts| => TrimSpace(parts[i]))
  }

  function Parse(line: string): Option<Known> {
    var fields := Fields(line);
    if |fields| < 3 then None else Some(Known(Patterns(fields[0]), fields[1], fields[2]))
  }

  /** Comments and hashed or marked entries are not plain. */
  predicate Plain(line: string) {
    var t := TrimSpace(line);
    t != "" && !HasPrefix(t, "#") && !HasPrefix(t, "|")
  }

  predicate Lists(line: string, pat: string, keyType: string) {
    Plain(line) && Parse(line).Some? && Parse(line).value.keyType == keyType && pat in Parse(line).value.patterns
  }

  /** The last line that lists the pattern with the key type. */
  function LastEntry(lines: seq<string>, pat: string, keyType: string): (r: Option<nat>)
    ensures r.Some? ==> r.value < |lines| && Lists(lines[r.value], pat, keyType)
    decreases |lines|
  {
    if lines == [] then None
    else if Lists(lines[|lines| - 1], pat, keyType) then Some(|lines| - 1)
    else LastEntry(lines[..|lines| - 1], pat, keyType)
  }

  /** The entry of the first pattern that has one. */
  function Hit(lines: seq<string>, pats: seq<string>, keyType: string): (r: Option<nat>)
    ensures r.Some? ==> r.value < |lines| && exists p <- pats :: Lists(lines[r.value], p, keyType)
    decreases |pats|
  {
    if pats == [] then None
    else
      var r := LastEntry(lines, pats[0], keyType);
      if r.Some? then r else Hit(lines, pats[1..], keyType)
  }

  predicate Covered(lines: seq<string>, k: Known) {
    Hit(lines, k.patterns, k.keyType).Some?
  }

  lemma {:induction false} EntryExists(lines: seq<string>, i: nat, pat: string, keyType: string)
    requires i < |lines| && Lists(lines[i], pat, keyType)
    ensures LastEntry(lines, pat, keyType).Some?
    decreases |lines|
  {
    if i < |lines| - 1 {
      EntryExists(lines[..|lines| - 1], i, pat, keyType);
    }
  }

  lemma {:induction false} HitExists(lines: seq<string>, i: nat, pats: seq<string>, pat: string, keyType: string)
    requires i < |lines| && pat in pats && Lists(lines[i], pat, keyType)
    ensures Hit(lines, pats, keyType).Some?
    decreases |pats|
  {
    if pat == pats[0] {
      EntryExists(lines, i, pat, keyType);
    } else if LastEntry(lines, pats[0], keyType).None? {
      HitExists(lines, i, pats[1..], pat, keyType);
    }
  }

  /** More lines cover more. */
  lemma {:induction false} CoveredByMore(lines: seq<string>, more: seq<string>, k: Known)
    requires lines <= more && Covered(lines, k)
    ensures Covered(more, k)
  {
    var i := Hit(lines, k.patterns, k.keyType).value;
    var p :| p in k.patterns && Lists(lines[i], p, k.keyType);
    HitExists(more, i, k.patterns, p, k.keyType);
  }

  // ---- The import ----

  /** One line to import, against the entries of the lines that the file had. */
  function ImportOne(base: seq<string>, lines: seq<string>, line: string, force: bool): (r: seq<string>)
    requires |base| <= |lines|
    ensures |base| <= |r|
  {
    var t := TrimSpace(line);
    match Parse(t)
    case None => lines
    case Some(k) =>
      match Hit(base, k.patterns, k.keyType)
      case None => lines + [t]
      case Some(i) =>
        var f := Fields(lines[i]);
        if |f| < 3 then lines + [t]
        else if f[2] == k.keyData then lines
        else if force then lines[i := t]
        else lines
  }

  function ImportAll(base: seq<string>, lines: seq<string>, imports: seq<string>, force: bool): seq<string>
    requires |base| <= |lines|
    decreases |imports|
  {
    if imports == [] then lines
    else ImportAll(base, ImportOne(base, lines, imports[0], force), imports[1..], force)
  }

  /** The file written for some lines. */
  function Finish(lines: seq<string>): string {
    var s := Join(lines, '\n');
    if HasSuffix(s, "\n") then s else s + "\n"
  }

  function Imported(content: string, imports: seq<string>, force: bool): string {
    Finish(ImportAll(Split(content, '\n'), Split(content, '\n'), imports, force))
  }

  /** The import lines that the file does not list yet, as they are appended. */
  function New(base: seq<string>, imports: seq<string>): seq<string>
    decreases |imports|
  {
    if imports == [] then []
    else
      var t := TrimSpace(imports[0]);
      (if Parse(t).Some? && !Covered(base, Parse(t).value) then [t] else []) + New(base, imports[1..])
  }

  lemma {:induction false} NewFirst(base: seq<string>, imports: seq<string>)
    requires imports != []
    ensures New(base, imports) == New(base, [imports[0]]) + New(base, imports[1..])
  {
    assert [imports[0]][1..] == [];
  }

  lemma {:induction false} OneAppends(base: seq<string>, added: seq<string>, line: string)
    ensures ImportOne(base, base + added, line, false) == base + (added + New(base, [line]))
  {
    assert [line][1..] == [];
    var t := TrimSpace(line);
    var lines := base + added;
    if Parse(t).Some? && Covered(base, Parse(t).value) {
      var i := Hit(base, Parse(t).value.patterns, Parse(t).value.keyType).value;
      assert lines[i] == base[i];
    }
  }

  /** Without force every line stays, and exactly the new ones are appended. */
  lemma {:induction false} OnlyAppends(base: seq<string>, added: seq<string>, imports: seq<string>)
    ensures ImportAll(base, base + added, imports, false) == base + (added + New(base, imports))
    decreases |imports|
  {
    if imports == [] {
      assert added + [] == added;
    } else {
      var first := New(base, [imports[0]]);
      OneAppends(base, added, imports[0]);
      OnlyAppends(base, added + first, imports[1..]);
      NewFirst(base, imports);
      ConcatAssoc(added, first, New(base, imports[1..]));
    }
  }

  /** Without force the old content is a prefix of the new one, byte for byte. */
  lemma {:induction false} ExistingLinesStay(content: string, imports: seq<string>)
    ensures content <= Imported(content, imports, false)
  {
    var base := Split(content, '\n');
    var added := New(base, imports);
    JoinSplit(content, '\n');
    OnlyAppends(base, [], imports);
    assert base + [] == base && [] + added == added;
    if added == [] {
      assert base + added == base;
    } else {
      JoinAppend(base, added, '\n');
    }
  }

  lemma {:induction false} NewIsEmpty(base: seq<string>, imports: seq<string>)
    ensures New(base, imports) == [] <==>
            forall l <- imports :: Parse(TrimSpace(l)).Some? ==> Covered(base, Parse(TrimSpace(l)).value)
    decreases |imports|
  {
    if imports != [] {
      NewIsEmpty(base, imports[1..]);
      assert forall l <- imports :: l == imports[0] || l in imports[1..];
    }
  }

  lemma {:induction false} NewHas(base: seq<string>, imports: seq<string>, l: string)
    requires l in imports && Parse(TrimSpace(l)).Some? && !Covered(base, Parse(TrimSpace(l)).value)
    ensures TrimSpace(l) in New(base, imports)
    decreases |imports|
  {
    if l != imports[0] {
      NewHas(base, imports[1..], l);
    }
  }

  lemma {:induction false} NewLines(base: seq<string>, imports: seq<string>)
    requires forall l <- imports :: '\n' !in l
    ensures forall t <- New(base, imports) :: '\n' !in t
    decreases |imports|
  {
    if imports != [] {
      NewLines(base, imports[1..]);
      var a, b := TrimParts(imports[0]);
      assert forall c <- TrimSpace(imports[0]) :: c in imports[0];
    }
  }

  /** What is read back from the written file: the lines, and a last empty one after a final newline. */
  lemma {:induction false} Reread(lines: seq<string>)
    requires lines != [] && forall l <- lines :: '\n' !in l
    ensures var next := Split(Finish(lines), '\n');
      (next == lines || next == lines + [""]) && Join(next, '\n') == Finish(lines)
  {
    SplitJoin(lines, '\n');
    JoinSplit(Finish(lines), '\n');
    if !HasSuffix(Join(lines, '\n'), "\n") {
      JoinAppend(lines, [""], '\n');
      assert Join(lines, '\n') + "\n" + "" == Join(lines, '\n') + "\n";
      SplitJoin(lines + [""], '\n');
    }
  }

  lemma {:induction false} EmptyLastEntry(lines: seq<string>, pat: string, keyType: string)
    ensures LastEntry(lines + [""], pat, keyType) == LastEntry(lines, pat, keyType)
  {
    assert (lines + [""])[..|lines|] == lines;
  }

  /** An empty last line covers nothing more. */
  lemma {:induction false} EmptyCovers(lines: seq<string>, pats: seq<string>, keyType: string)
    ensures Hit(lines + [""], pats, keyType) == Hit(lines, pats, keyType)
    decreases |pats|
  {
    if pats != [] {
      EmptyLastEntry(lines, pats[0], keyType);
      EmptyCovers(lines, pats[1..], keyType);
    }
  }

  /** Main result. Importing the same lines again changes the file exactly when some line with three
      fields is neither plain nor covered by the lines of the file and those that were new. */
  lemma {:induction false} ImportAgain(content: string, imports: seq<string>)
    requires forall l <- imports :: '\n' !in l
    ensures var base := Split(content, '\n');
      var once := Imported(content, imports, false);
      Imported(once, imports, false) == once <==>
      forall l <- imports :: Parse(TrimSpace(l)).Some? ==>
        Plain(l) || Covered(base + New(base, imports), Parse(TrimSpace(l)).value)
  {
    var base := Split(content, '\n');
    var lines := base + New(base, imports);
    var once := Imported(content, imports, false);
    JoinSplit(content, '\n');
    NewLines(base, imports);
    OnlyAppends(base, [], imports);
    assert base + [] == base && [] + New(base, imports) == New(base, imports);
    Reread(lines);
    var next := Split(once, '\n');
    SecondIs(next, imports, once);
    NewIsEmpty(next, imports);
    forall l | l in imports && Parse(TrimSpace(l)).Some?
      ensures Covered(next, Parse(TrimSpace(l)).value) <==> Plain(l) || Covered(lines, Parse(TrimSpace(l)).value)
    {
      var k := Parse(TrimSpace(l)).value;
      EmptyCovers(lines, k.patterns, k.keyType);
      if Plain(l) {
        PlainIsCovered(base, lines, imports, l);
      }
    }
  }

  lemma {:induction false} SecondIs(next: seq<string>, imports: seq<string>, once: string)
    requires next == Split(once, '\n') && Join(next, '\n') == once && HasSuffix(once, "\n")
    ensures Imported(once, imports, false) == once <==> New(next, imports) == []
  {
    var added := New(next, imports);
    OnlyAppends(next, [], imports);
    assert next + [] == next && [] + added == added;
    SecondImport(next, added, once);
  }

  lemma {:induction false} SecondImport(next: seq<string>, added: seq<string>, once: string)
    requires next != [] && Join(next, '\n') == once && HasSuffix(once, "\n")
    ensures Finish(next + added) == once <==> added == []
  {
    if added == [] {
      assert next + added == next;
    } else {
      JoinAppend(next, added, '\n');
    }
  }

  lemma {:induction false} PlainIsCovered(base: seq<string>, next: seq<string>, imports: seq<string>, l: string)
    requires l in imports && Plain(l) && Parse(TrimSpace(l)).Some? && base + New(base, imports) <= next
    ensures Covered(next, Parse(TrimSpace(l)).value)
  {
    var t := TrimSpace(l);
    var k := Parse(t).value;
    if Covered(base, k) {
      CoveredByMore(base, next, k);
    } else {
      NewHas(base, imports, l);
      var added := New(base, imports);
      var j :| 0 <= j < |added| && added[j] == t;
      var i := |base| + j;
      assert next[i] == (base + added)[i] == t;
      TrimTwice(l);
      assert k.patterns[0] in k.patterns;
      assert Lists(t, k.patterns[0], k.keyType);
      HitExists(next, i, k.patterns, k.patterns[0], k.keyType);
    }
  }

  // ---- With force ----

  /** The line stands where one stood for the same pattern and key type. */
  predicate Replaces(t: string, line: string) {
    && Parse(t).Some? && Parse(line).Some? && Parse(t).value.keyType == Parse(line).value.keyType
    && exists p <- Parse(t).value.patterns :: p in Parse(line).value.patterns
  }

  /** With force a line may be replaced, by an import line for a pattern and key type it has; the
      appended lines are the same as without force. */
  lemma {:induction false} ForceReplaces(base: seq<string>, lines: seq<string>, imports: seq<string>)
    requires Shaped(base, lines)
    ensures var r := ImportAll(base, lines, imports, true);
      Shaped(base, r) && r[|base|..] == lines[|base|..] + New(base, imports)
    decreases |imports|
  {
    if imports == [] {
      assert lines[|base|..] + [] == lines[|base|..];
    } else {
      var next := ImportOne(base, lines, imports[0], true);
      ForceStep(base, lines, imports[0]);
      ForceReplaces(base, next, imports[1..]);
      ConcatAssoc(lines[|base|..], New(base, [imports[0]]), New(base, imports[1..]));
      NewFirst(base, imports);
    }
  }

  lemma {:induction false} HitReplaces(base: seq<string>, t: string, k: Known, i: nat)
    requires Parse(t) == Some(k) && Hit(base, k.patterns, k.keyType) == Some(i)
    ensures Replaces(t, base[i])
  {
    var p :| p in k.patterns && Lists(base[i], p, k.keyType);
  }

  ghost predicate Shaped(base: seq<string>, lines: seq<string>) {
    |base| <= |lines| && forall i :: 0 <= i < |base| ==> lines[i] == base[i] || Replaces(lines[i], base[i])
  }

  lemma {:induction false} KeepsShape(base: seq<string>, lines: seq<string>, i: nat, t: string)
    requires Shaped(base, lines) && i < |base| && Replaces(t, base[i])
    ensures Shaped(base, lines[i := t]) && lines[i := t][|base|..] == lines[|base|..]
  {
  }

  lemma {:induction false} ImportHit(base: seq<string>, lines: seq<string>, line: string, k: Known, i: nat)
    requires |base| <= |lines| && Parse(TrimSpace(line)) == Some(k) && Hit(base, k.patterns, k.keyType) == Some(i)
    requires Parse(lines[i]).Some?
    ensures ImportOne(base, lines, line, true) ==
            if Parse(lines[i]).value.keyData == k.keyData then lines else lines[i := TrimSpace(line)]
  {
  }

  /** A known line: nothing, or the replacement of its entry. */
  lemma {:induction false} KnownLine(base: seq<string>, lines: seq<string>, line: string, k: Known)
    requires Shaped(base, lines) && Parse(TrimSpace(line)) == Some(k) && Covered(base, k)
    ensures var i := Hit(base, k.patterns, k.keyType).value;
      var r := ImportOne(base, lines, line, true);
      && (r == lines || r == lines[i := TrimSpace(line)]) && Replaces(TrimSpace(line), base[i])
      && Parse(r[i]).Some? && Parse(r[i]).value.keyData == k.keyData
  {
    var i := Hit(base, k.patterns, k.keyType).value;
    HitReplaces(base, TrimSpace(line), k, i);
    assert lines[i] == base[i] || Replaces(lines[i], base[i]);
    ImportHit(base, lines, line, k, i);
  }

  lemma {:induction false} NewLine(base: seq<string>, lines: seq<string>, line: string, k: Known)
    requires |base| <= |lines| && Parse(TrimSpace(line)) == Some(k) && !Covered(base, k)
    ensures ImportOne(base, lines, line, true) == lines + [TrimSpace(line)] && New(base, [line]) == [TrimSpace(line)]
    ensures (lines + [TrimSpace(line)])[|base|..] == lines[|base|..] + [TrimSpace(line)]
  {
    assert [line][1..] == [];
  }

  lemma {:induction false} NothingNew(base: seq<string>, line: string, rest: seq<string>)
    requires Parse(TrimSpace(line)).None? || Covered(base, Parse(TrimSpace(line)).value)
    ensures New(base, [line]) == [] && rest + New(base, [line]) == rest
  {
    assert [line][1..] == [];
  }

  lemma {:induction false} ForceStep(base: seq<string>, lines: seq<string>, line: string)
    requires Shaped(base, lines)
    ensures var r := ImportOne(base, lines, line, true);
      Shaped(base, r) && r[|base|..] == lines[|base|..] + New(base, [line])
  {
    var t := TrimSpace(line);
    if Parse(t).Some? && Covered(base, Parse(t).value) {
      var k := Parse(t).value;
      NothingNew(base, line, lines[|base|..]);
      KnownLine(base, lines, line, k);
      KeepsShape(base, lines, Hit(base, k.patterns, k.keyType).value, t);
    } else if Parse(t).Some? {
      NewLine(base, lines, line, Parse(t).value);
    } else {
      NothingNew(base, line, lines[|base|..]);
    }
  }

  /** The line is for this entry of the file. */
  predicate Hits(base: seq<string>, line: string, i: nat) {
    var k := Parse(TrimSpace(line));
    k.Some? && Hit(base, k.value.patterns, k.value.keyType) == Some(i)
  }

  lemma {:induction false} OtherEntry(base: seq<string>, lines: seq<string>, line: string, i: nat)
    requires |base| <= |lines| && i < |base| && !Hits(base, line, i)
    ensures ImportOne(base, lines, line, true)[i] == lines[i]
  {
  }

  lemma {:induction false} OtherEntries(base: seq<string>, lines: seq<string>, imports: seq<string>, i: nat)
    requires |base| <= |lines| && i < |base| && forall l <- imports :: !Hits(base, l, i)
    ensures var r := ImportAll(base, lines, imports, true); |base| <= |r| && r[i] == lines[i]
    decreases |imports|
  {
    if imports != [] {
      OtherEntry(base, lines, imports[0], i);
      OtherEntries(base, ImportOne(base, lines, imports[0], true), imports[1..], i);
    }
  }

  lemma {:induction false} LastForce(base: seq<string>, lines: seq<string>, imports: seq<string>, i: nat)
    requires Shaped(base, lines) && imports != [] && Hits(base, imports[0], i)
    requires forall l <- imports[1..] :: !Hits(base, l, i)
    ensures var r := ImportAll(base, lines, imports, true);
      && i < |base| <= |r| && Parse(r[i]).Some?
      && Parse(r[i]).value.keyData == Parse(TrimSpace(imports[0])).value.keyData
  {
    KnownLine(base, lines, imports[0], Parse(TrimSpace(imports[0])).value);
    OtherEntries(base, ImportOne(base, lines, imports[0], true), imports[1..], i);
  }

  /** With force every entry that import lines are for ends up with the key of the last of them. */
  lemma {:induction false} ForceTakesKey(base: seq<string>, lines: seq<string>, imports: seq<string>, n: nat, i: nat)
    requires Shaped(base, lines) && n < |imports| && Hits(base, imports[n], i)
    requires forall l <- imports[n + 1..] :: !Hits(base, l, i)
    ensures var r := ImportAll(base, lines, imports, true);
      && i < |base| <= |r| && Parse(r[i]).Some?
      && Parse(r[i]).value.keyData == Parse(TrimSpace(imports[n])).value.keyData
    decreases n
  {
    var next := ImportOne(base, lines, imports[0], true);
    ForceStep(base, lines, imports[0]);
    if n == 0 {
      LastForce(base, lines, imports, i);
    } else {
      assert imports[1..][n..] == imports[n + 1..];
      ForceTakesKey(base, next, imports[1..], n - 1, i);
    }
  }

  /** With force, too, every line is one that was there or a line of the import, trimmed. */
  lemma {:induction false} ForceWrites(base: seq<string>, lines: seq<string>, imports: seq<string>, force: bool)
    requires |base| <= |lines|
    ensures forall l <- ImportAll(base, lines, imports, force) :: l in lines || exists m <- imports :: l == TrimSpace(m)
    decreases |imports|
  {
    if imports != [] {
      var next := ImportOne(base, lines, imports[0], force);
      OneWrites(base, lines, imports[0], force);
      ForceWrites(base, next, imports[1..], force);
      forall l | l in ImportAll(base, lines, imports, force)
        ensures l in lines || exists m <- imports :: l == TrimSpace(m)
      {
        if l !in next {
          var m :| m in imports[1..] && l == TrimSpace(m);
          assert m in imports;
        } else if l !in lines {
          assert imports[0] in imports;
        }
      }
    }
  }

  lemma {:induction false} OneWrites(base: seq<string>, lines: seq<string>, line: string, force: bool)
    requires |base| <= |lines|
    ensures forall l <- ImportOne(base, lines, line, force) :: l in lines || l == TrimSpace(line)
  {
    var r, t := ImportOne(base, lines, line, force), TrimSpace(line);
    if Parse(t).Some? && Hit(base, Parse(t).value.patterns, Parse(t).value.keyType).Some? {
      var i := Hit(base, Parse(t).value.patterns, Parse(t).value.keyType).value;
      assert r == lines || r == lines + [t] || r == lines[i := t];
      ReplacedWith(lines, i, t);
    }
  }

  lemma {:induction false} ReplacedWith(lines: seq<string>, i: nat, t: string)
    requires i < |lines|
    ensures forall l <- lines[i := t] :: l in lines || l == t
    ensures forall l <- lines + [t] :: l in lines || l == t
  {
  }

  // ---- In terms of the text ----

  /** A line of the file that the import looks at: no comment, not hashed or marked, at least three words, the
      second of them the key type, and the pattern between commas in the first. */
  ghost predicate HasPattern(line: string, pat: string, keyType: string) {
    var t, f := TrimSpace(line), Fields(line);
    && t != "" && t[0] != '#' && t[0] != '|' && |f| >= 3 && f[1] == keyType
    && exists p <- Split(f[0], ',') :: TrimSpace(p) == pat
  }

  lemma {:induction false} PatternIff(field: string, pat: string)
    ensures pat in Patterns(field) <==> exists p <- Split(field, ',') :: TrimSpace(p) == pat
  {
    var parts, r := Split(field, ','), Patterns(field);
    if pat in r {
      var i :| 0 <= i < |r| && r[i] == pat;
      assert parts[i] in parts;
    }
    if p :| p in parts && TrimSpace(p) == pat {
      var i :| 0 <= i < |parts| && parts[i] == p;
      assert r[i] == pat;
    }
  }

  lemma {:induction false} ListsIff(line: string, pat: string, keyType: string)
    ensures Lists(line, pat, keyType) <==> HasPattern(line, pat, keyType)
  {
    if |Fields(line)| >= 3 {
      PatternIff(Fields(line)[0], pat);
    }
  }

  /** Both lines have the key type and some pattern in common. */
  ghost predicate SameEntry(have: string, line: string) {
    |Fields(line)| >= 3 && exists q <- Split(Fields(line)[0], ',') :: HasPattern(have, TrimSpace(q), Fields(line)[1])
  }

  lemma {:induction false} ParseTrimmed(line: string)
    ensures Parse(TrimSpace(line)) == Parse(line)
  {
    FieldsTrimmed(line);
  }

  lemma {:induction false} CoveredIff(base: seq<string>, line: string)
    requires Parse(line).Some?
    ensures Covered(base, Parse(line).value) <==> exists have <- base :: SameEntry(have, line)
  {
    var k := Parse(line).value;
    var parts := Split(Fields(line)[0], ',');
    if Covered(base, k) {
      var i := Hit(base, k.patterns, k.keyType).value;
      var p :| p in k.patterns && Lists(base[i], p, k.keyType);
      ListsIff(base[i], p, k.keyType);
      PatternIff(Fields(line)[0], p);
      assert base[i] in base;
    }
    if have :| have in base && SameEntry(have, line) {
      var q :| q in parts && HasPattern(have, TrimSpace(q), k.keyType);
      var i :| 0 <= i < |base| && base[i] == have;
      ListsIff(have, TrimSpace(q), k.keyType);
      PatternIff(Fields(line)[0], TrimSpace(q));
      HitExists(base, i, k.patterns, TrimSpace(q), k.keyType);
    }
  }

  /** The import lines at the positions `at`, trimmed: in order, all that have at least three words and share an
      entry with no line of the file, and no others. */
  ghost predicate Appended(base: seq<string>, imports: seq<string>, at: seq<nat>, added: seq<string>) {
    && |at| == |added|
    && (forall k :: 0 <= k < |at| ==> at[k] < |imports| && added[k] == TrimSpace(imports[at[k]]))
    && (forall k, l :: 0 <= k < l < |at| ==> at[k] < at[l])
    && (forall i: nat ::
          i in at <==> i < |imports| && IsNew(base, imports[i]))
  }

  ghost predicate IsNew(base: seq<string>, line: string) {
    |Fields(line)| >= 3 && forall have <- base :: !SameEntry(have, line)
  }

  lemma {:induction false} NewAppend(base: seq<string>, imports: seq<string>, line: string)
    ensures New(base, imports + [line]) == New(base, imports) + New(base, [line])
    decreases |imports|
  {
    if imports == [] {
      assert imports + [line] == [line];
    } else {
      assert (imports + [line])[1..] == imports[1..] + [line];
      NewAppend(base, imports[1..], line);
      NewFirst(base, imports);
      NewFirst(base, imports + [line]);
      ConcatAssoc(New(base, [imports[0]]), New(base, imports[1..]), New(base, [line]));
    }
  }

  lemma {:induction false} NewOne(base: seq<string>, line: string)
    ensures New(base, [line]) == if IsNew(base, line) then [TrimSpace(line)] else []
  {
    assert [line][1..] == [];
    ParseTrimmed(line);
    if Parse(line).Some? {
      CoveredIff(base, line);
    }
  }

  lemma {:induction false} NewPlaces(base: seq<string>, imports: seq<string>) returns (at: seq<nat>)
    ensures Appended(base, imports, at, New(base, imports))
    decreases |imports|
  {
    if imports == [] {
      at := [];
    } else {
      var n := |imports| - 1;
      var before := NewPlaces(base, imports[..n]);
      assert imports == imports[..n] + [imports[n]];
      NewAppend(base, imports[..n], imports[n]);
      NewOne(base, imports[n]);
      at := AppendedNext(base, imports[..n], imports[n], before, New(base, imports[..n]), New(base, [imports[n]]));
    }
  }

  lemma {:induction false} AppendedNext(base: seq<string>, imports: seq<string>, line: string, before: seq<nat>,
                                        added: seq<string>, more: seq<string>) returns (at: seq<nat>)
    requires Appended(base, imports, before, added)
    requires more == if IsNew(base, line) then [TrimSpace(line)] else []
    ensures Appended(base, imports + [line], at, added + more)
  {
    if more == [] {
      at := before;
      assert added + more == added;
    } else {
      at := before + [|imports|];
    }
  }

  /** The import without force, byte for byte: the file as it was, the appended lines, a newline at the end. */
  lemma {:induction false} ImportExactly(content: string, imports: seq<string>)
    returns (at: seq<nat>, added: seq<string>)
    ensures Appended(Split(content, '\n'), imports, at, added) && added == New(Split(content, '\n'), imports)
    ensures Imported(content, imports, false) ==
            if added != [] then content + "\n" + Join(added, '\n') + "\n"
            else if HasSuffix(content, "\n") then content
            else content + "\n"
  {
    var base := Split(content, '\n');
    at := NewPlaces(base, imports);
    added := New(base, imports);
    JoinSplit(content, '\n');
    OnlyAppends(base, [], imports);
    assert base + [] == base && [] + added == added;
    if added == [] {
      assert base + added == base;
    } else {
      LastIsNew(base, imports, at, added);
      FinishAppended(content, base, added, imports[at[|at| - 1]]);
    }
  }

  lemma {:induction false} LastIsNew(base: seq<string>, imports: seq<string>, at: seq<nat>, added: seq<string>)
    requires Appended(base, imports, at, added) && at != []
    ensures var line := imports[at[|at| - 1]]; |Fields(line)| >= 3 && added[|added| - 1] == TrimSpace(line)
  {
    assert at[|at| - 1] in at;
  }

  lemma {:induction false} FinishAppended(content: string, base: seq<string>, added: seq<string>, line: string)
    requires base != [] && content == Join(base, '\n')
    requires added != [] && added[|added| - 1] == TrimSpace(line) && |Fields(line)| >= 3
    ensures Finish(base + added) == content + "\n" + Join(added, '\n') + "\n"
  {
    JoinAppend(base, added, '\n');
    LastTrimmed(line, added);
    SuffixOfAll(content, Join(added, '\n'));
  }

  lemma {:induction false} LastTrimmed(line: string, added: seq<string>)
    requires added != [] && added[|added| - 1] == TrimSpace(line) && |Fields(line)| >= 3
    ensures Join(added, '\n') != "" && !HasSuffix(Join(added, '\n'), "\n")
  {
    FieldsTrimmed(line);
    TrimTwice(line);
    var n := |added| - 1;
    var t := added[n];
    assert t != "" && t[|t| - 1] != '\n';
    if n > 0 {
      assert added == added[..n] + [t];
      JoinAppend(added[..n], [t], '\n');
    }
    var j := Join(added, '\n');
    assert j[|j| - 1] == t[|t| - 1];
  }

  lemma {:induction false} SuffixOfAll(content: string, j: string)
    requires j != "" && !HasSuffix(j, "\n")
    ensures !HasSuffix(content + "\n" + j, "\n")
  {
    var all := content + "\n" + j;
    assert all[|all| - 1] == j[|j| - 1];
    assert j[|j| - 1..] == [j[|j| - 1]];
    assert all[|all| - 1..] == [j[|j| - 1]];
  }

  /** A host that stands in a list with others is known: the line `a type key` is not added to a file with the
      line `a,b type other`, whatever the keys are. */
  lemma {:induction false} InList(content: string, have: string, line: string, a: string, b: string, keyType: string)
    requires have in Split(content, '\n') && |Fields(have)| >= 3 && |Fields(line)| >= 3 && Plain(have)
    requires Fields(have)[0] == a + "," + b && Fields(line)[0] == a && ',' !in a && Trimmed(a)
    requires Fields(have)[1] == keyType == Fields(line)[1]
    ensures Imported(content, [line], false) == if HasSuffix(content, "\n") then content else content + "\n"
  {
    SplitOne(a, ',');
    SplitFirst(a, ',', b);
    assert a + [','] + b == a + "," + b;
    TrimTrimmed(a);
    assert a in Split(Fields(have)[0], ',') && a in Split(Fields(line)[0], ',');
    assert HasPattern(have, TrimSpace(a), keyType);
    assert SameEntry(have, line);
    var at, added := ImportExactly(content, [line]);
    NewOne(Split(content, '\n'), line);
  }

  /** Which line a line of the import is for: the last one that has its first pattern known to the file. */
  lemma {:induction false} HitIs(lines: seq<string>, pats: seq<string>, keyType: string)
    ensures var r := Hit(lines, pats, keyType);
      && (r.None? ==> forall i, j :: 0 <= i < |lines| && 0 <= j < |pats| ==> !HasPattern(lines[i], pats[j], keyType))
      && (r.Some? ==> exists j :: 0 <= j < |pats| && IsEntry(lines, pats, j, keyType, r.value))
    decreases |pats|
  {
    if pats != [] {
      LastEntryIs(lines, pats[0], keyType);
      var r := LastEntry(lines, pats[0], keyType);
      if r.Some? {
        assert IsEntry(lines, pats, 0, keyType, r.value);
      } else {
        HitIs(lines, pats[1..], keyType);
        var h := Hit(lines, pats[1..], keyType);
        if h.Some? {
          var j :| 0 <= j < |pats[1..]| && IsEntry(lines, pats[1..], j, keyType, h.value);
          EntryLater(lines, pats, j, keyType, h.value);
        } else {
          forall i, j | 0 <= i < |lines| && 0 <= j < |pats| ensures !HasPattern(lines[i], pats[j], keyType) {
            assert j > 0 ==> pats[j] == pats[1..][j - 1];
          }
        }
      }
    }
  }

  ghost predicate IsEntry(lines: seq<string>, pats: seq<string>, j: nat, keyType: string, i: nat)
    requires j < |pats|
  {
    && i < |lines| && HasPattern(lines[i], pats[j], keyType)
    && (forall l :: i < l < |lines| ==> !HasPattern(lines[l], pats[j], keyType))
    && (forall l, m :: 0 <= l < |lines| && 0 <= m < j ==> !HasPattern(lines[l], pats[m], keyType))
  }

  lemma {:induction false} EntryLater(lines: seq<string>, pats: seq<string>, j: nat, keyType: string, i: nat)
    requires pats != [] && j < |pats| - 1 && IsEntry(lines, pats[1..], j, keyType, i)
    requires forall l :: 0 <= l < |lines| ==> !HasPattern(lines[l], pats[0], keyType)
    ensures IsEntry(lines, pats, j + 1, keyType, i)
  {
    assert pats[1..][j] == pats[j + 1];
    forall l, m | 0 <= l < |lines| && 0 <= m < j + 1 ensures !HasPattern(lines[l], pats[m], keyType) {
      assert m > 0 ==> pats[m] == pats[1..][m - 1];
    }
  }

  /** The position, if any, is the last one with the pattern. */
  ghost predicate IsLast(lines: seq<string>, pat: string, keyType: string, r: Option<nat>) {
    match r
    case None => forall l :: 0 <= l < |lines| ==> !HasPattern(lines[l], pat, keyType)
    case Some(i) =>
      && i < |lines| && HasPattern(lines[i], pat, keyType)
      && forall l :: i < l < |lines| ==> !HasPattern(lines[l], pat, keyType)
  }

  lemma {:induction false} LastEntryIs(lines: seq<string>, pat: string, keyType: string)
    ensures IsLast(lines, pat, keyType, LastEntry(lines, pat, keyType))
    decreases |lines|
  {
    if lines != [] {
      var n := |lines| - 1;
      ListsIff(lines[n], pat, keyType);
      if !HasPattern(lines[n], pat, keyType) {
        LastEntryIs(lines[..n], pat, keyType);
        LastOfMore(lines, lines[..n], pat, keyType, LastEntry(lines[..n], pat, keyType));
      }
    }
  }

  lemma {:induction false} LastOfMore(lines: seq<string>, front: seq<string>, pat: string, keyType: string,
                                      r: Option<nat>)
    requires lines != [] && front == lines[..|lines| - 1] && !HasPattern(lines[|lines| - 1], pat, keyType)
    requires IsLast(front, pat, keyType, r)
    ensures IsLast(lines, pat, keyType, r)
  {
    forall l | 0 <= l < |lines| && (r.Some? ==> l > r.value) ensures !HasPattern(lines[l], pat, keyType) {
      if l < |front| {
        assert front[l] == lines[l];
      }
    }
  }

  // ---- The code ----

  /** pattern -> key type -> index of the line */
  type KeyIndex = map<string, map<string, nat>>

  function Lookup(kh: KeyIndex, pat: string, keyType: string): Option<nat> {
    if pat in kh && keyType in kh[pat] then Some(kh[pat][keyType]) else None
  }

  method BuildIndex(lines: seq<string>) returns (kh: KeyIndex)
    ensures forall p, k :: Lookup(kh, p, k) == LastEntry(lines, p, k)
  {
    kh := map[];
    for i := 0 to |lines|
      invariant forall p, k :: Lookup(kh, p, k) == LastEntry(lines[..i], p, k)
    {
      assert lines[..i + 1][..i] == lines[..i];
      var line := TrimSpace(lines[i]);
      FieldsTrimmed(lines[i]);
      if line == "" || HasPrefix(line, "#") || HasPrefix(line, "|") {
        continue;
      }
      var fields := Fields(line);
      if |fields| < 3 {
        continue;
      }
      kh := AddEntries(kh, Patterns(fields[0]), fields[1], i);
    }
    assert lines[..|lines|] == lines;
  }

  method AddEntries(kh0: KeyIndex, pats: seq<string>, keyType: string, i: nat) returns (kh: KeyIndex)
    ensures forall p, k :: Lookup(kh, p, k) == if k == keyType && p in pats then Some(i) else Lookup(kh0, p, k)
  {
    kh := kh0;
    for j := 0 to |pats|
      invariant forall p, k :: Lookup(kh, p, k) == if k == keyType && p in pats[..j] then Some(i) else Lookup(kh0, p, k)
    {
      var pat := pats[j];
      ghost var before := kh;
      if pat !in kh {
        kh := kh[pat := map[]];
      }
      var typeMap: map<string, nat> := kh[pat][keyType := i];
      kh := kh[pat := typeMap];
      assert forall p, k :: Lookup(kh, p, k) == if k == keyType && p == pat then Some(i) else Lookup(before, p, k);
      assert pats[..j + 1] == pats[..j] + [pat];
    }
    assert pats[..|pats|] == pats;
  }

  /** The loop over the patterns, left at the first one that has an entry for the key type. */
  method FindEntry(kh: KeyIndex, ghost base: seq<string>, pats: seq<string>, keyType: string) returns (hit: Option<nat>)
    requires forall p, k :: Lookup(kh, p, k) == LastEntry(base, p, k)
    ensures hit == Hit(base, pats, keyType)
  {
    for j := 0 to |pats|
      invariant Hit(base, pats, keyType) == Hit(base, pats[j..], keyType)
    {
      var pat := pats[j];
      assert Lookup(kh, pat, keyType) == LastEntry(base, pat, keyType);
      if pat in kh && keyType in kh[pat] {
        return Some(kh[pat][keyType]);
      }
    }
    return None;
  }

  method ImportKnownHostsLines(content: string, imports: seq<string>, force: bool) returns (result: string)
    ensures result == Imported(content, imports, force)
  {
    var localLines := Split(content, '\n');
    ghost var base := localLines;
    var kh := BuildIndex(localLines);
    for n := 0 to |imports|
      invariant |base| <= |localLines|
      invariant ImportAll(base, localLines, imports[n..], force) == ImportAll(base, base, imports, force)
    {
      localLines := ImportLine(base, kh, localLines, imports[n], force);
      assert imports[n..][1..] == imports[n + 1..];
    }
    result := Join(localLines, '\n');
    if !HasSuffix(result, "\n") {
      result := result + "\n";
    }
  }

  method ImportLine(ghost base: seq<string>, kh: KeyIndex, lines: seq<string>, line: string, force: bool)
    returns (localLines: seq<string>)
    requires |base| <= |lines| && forall p, k :: Lookup(kh, p, k) == LastEntry(base, p, k)
    ensures localLines == ImportOne(base, lines, line, force)
  {
    localLines := lines;
    var importLine := TrimSpace(line);
    var fields := Fields(importLine);
    if importLine == "" || |fields| < 3 {
      return;
    }
    var isConflict, hasSame := false, false;
    var hit := FindEntry(kh, base, Patterns(fields[0]), fields[1]);
    if hit.Some? {
      var existing := Fields(localLines[hit.value]);
      if |existing| >= 3 {
        if existing[2] != fields[2] {
          isConflict := true;
          if force {
            localLines := localLines[hit.value := importLine];
          }
        } else {
          hasSame := true;
        }
      }
    }
    if !isConflict && !hasSame {
      localLines := localLines + [importLine];
    }
  }
}
