/** The lines of an ssh_config file: their kinds, and the search for a host's block. */
module ConfigLines {
  import opened Basics
  import opened Text
  import opened HostBlocks

  predicate IsHostLine(line: string) {
    HasPrefix(ToLower(TrimSpace(line)), "host ")
  }

  predicate IsMarker(line: string) {
    HasPrefix(TrimSpace(line), "### ")
  }

  function KindOf(line: string): LineKind {
    if IsHostLine(line) then
      var f := Fields(TrimSpace(line));
      Host(if |f| >= 2 then f[1] else "")
    else if IsMarker(line) then Marker
    else Plain
  }

  function Kinds(lines: seq<string>): (ks: seq<LineKind>)
    ensures |ks| == |lines|
    decreases |lines|
  {
    if lines == [] then [] else [KindOf(lines[0])] + Kinds(lines[1..])
  }

  lemma {:induction false} KindAt(lines: seq<string>, i: nat)
    requires i < |lines|
    ensures Kinds(lines)[i] == KindOf(lines[i])
    decreases |lines|
  {
    if i > 0 {
      KindAt(lines[1..], i - 1);
    }
  }

  lemma {:induction false} KindsAppend(a: seq<string>, b: seq<string>)
    ensures Kinds(a + b) == Kinds(a) + Kinds(b)
    decreases |a|
  {
    if a == [] {
      assert a + b == b;
    } else {
      assert (a + b)[1..] == a[1..] + b;
      KindsAppend(a[1..], b);
    }
  }

  /** The lines of a host's block. */
  function Block(lines: seq<string>, alias: string): Option<seq<string>> {
    match Find(Kinds(lines), alias)
    case None => None
    case Some(r) => Some(lines[r.start..r.end])
  }

  lemma {:induction false} NotBoth(line: string)
    ensures !(IsHostLine(line) && IsMarker(line))
  {
    var t := TrimSpace(line);
    if HasPrefix(t, "### ") {
      assert t[0] == '#' && ToLower(t)[0] == '#';
    }
  }

  lemma {:induction false} HasFields(s: string)
    requires !Blank(s)
    ensures Fields(s) != [] && Fields(s)[0] != ""
    decreases |s|
  {
    if IsSpace(s[0]) {
      HasFields(s[1..]);
    }
  }

  lemma {:induction false} LowerIs(c: char, d: char)
    requires LowerChar(c) == d
    ensures d == ' ' ==> c == ' '
    ensures 'a' <= d <= 'z' ==> !IsSpace(c)
  {
  }

  /** A Host line always has a name. */
  lemma {:induction false} HostLineHasName(line: string)
    requires IsHostLine(line)
    ensures var f := Fields(TrimSpace(line)); |f| >= 2 && f[1] != ""
  {
    var t := TrimSpace(line);
    var w, rest := t[..4], t[4..];
    TrimTwice(line);
    forall i | 0 <= i < 5 ensures LowerChar(t[i]) == "host "[i] {
      assert ToLower(t)[i] == "host "[i];
    }
    LowerIs(t[4], ' ');
    forall c | c in w ensures !IsSpace(c) {
      var i :| 0 <= i < 4 && t[i] == c;
      LowerIs(c, "host "[i]);
    }
    assert t == w + rest && rest[0] == ' ';
    FieldsFirst(w, rest);
    assert rest[|rest| - 1] == t[|t| - 1];
    HasFields(rest);
  }

  /** What the loops of the search find out about a line. */
  lemma {:induction false} KindTests(lines: seq<string>, i: nat)
    requires i < |lines|
    ensures var k, t := Kinds(lines)[i], TrimSpace(lines[i]);
      && (k == Marker <==> HasPrefix(t, "### "))
      && (k == Plain <==> !HasPrefix(ToLower(t), "host ") && !HasPrefix(t, "### "))
      && (HasPrefix(ToLower(t), "host ") ==> |Fields(t)| >= 2 && k == Host(Fields(t)[1]))
  {
    KindAt(lines, i);
    NotBoth(lines[i]);
    if IsHostLine(lines[i]) {
      HostLineHasName(lines[i]);
    }
  }

  method FindHostBlock(lines: seq<string>, targetAlias: string) returns (start: int, end: int)
    ensures match Find(Kinds(lines), targetAlias)
      case None => start == -1 && end == -1
      case Some(r) => start == r.start && end == r.end
  {
    var hostIdx := FindHostLine(lines, targetAlias);
    if hostIdx == -1 {
      return -1, -1;
    }
    ghost var ks := Kinds(lines);
    start := MarkersAbove(lines, hostIdx);
    end := PlainBelow(lines, hostIdx + 1);
    OneBlock(ks, targetAlias, Range(start, hostIdx, end));
  }

  /** The three loops of the search, one after the other. */
  method FindHostLine(lines: seq<string>, targetAlias: string) returns (hostIdx: int)
    ensures hostIdx == -1 ==> NoHost(Kinds(lines), |lines|, targetAlias)
    ensures hostIdx != -1 ==> 0 <= hostIdx < |lines| && Kinds(lines)[hostIdx] == Host(targetAlias)
                              && NoHost(Kinds(lines), hostIdx, targetAlias)
  {
    ghost var ks := Kinds(lines);
    for i := 0 to |lines|
      invariant NoHost(ks, i, targetAlias)
    {
      var trimmed := TrimSpace(lines[i]);
      KindTests(lines, i);
      if HasPrefix(ToLower(trimmed), "host ") {
        var fields := Fields(trimmed);
        if |fields| >= 2 && fields[1] == targetAlias {
          return i;
        }
      }
    }
    return -1;
  }

  lemma {:induction false} MarkerTests(lines: seq<string>, n: nat, ks: seq<LineKind>)
    requires n <= |lines| && ks == Kinds(lines)
    ensures forall i :: 0 <= i < n ==> (ks[i] == Marker <==> HasPrefix(TrimSpace(lines[i]), "### "))
  {
    forall i | 0 <= i < n ensures ks[i] == Marker <==> HasPrefix(TrimSpace(lines[i]), "### ") {
      KindTests(lines, i);
    }
  }

  method MarkersAbove(lines: seq<string>, hostIdx: nat) returns (start: nat)
    requires hostIdx < |lines|
    ensures start <= hostIdx
    ensures var ks := Kinds(lines);
      (forall i :: start <= i < hostIdx ==> ks[i] == Marker) && (start > 0 ==> ks[start - 1] != Marker)
  {
    ghost var ks := Kinds(lines);
    MarkerTests(lines, hostIdx, ks);
    start := hostIdx;
    while start > 0 && HasPrefix(TrimSpace(lines[start - 1]), "### ")
      invariant 0 <= start <= hostIdx
      invariant forall i :: start <= i < hostIdx ==> ks[i] == Marker
    {
      start := start - 1;
    }
  }

  method PlainBelow(lines: seq<string>, first: nat) returns (end: nat)
    requires first <= |lines|
    ensures first <= end <= |lines|
    ensures var ks := Kinds(lines);
      (forall i :: first <= i < end ==> ks[i] == Plain) && (end < |lines| ==> ks[end] != Plain)
  {
    ghost var ks := Kinds(lines);
    end := first;
    while end < |lines|
      invariant first <= end <= |lines|
      invariant forall i :: first <= i < end ==> ks[i] == Plain
    {
      var trimmed := TrimSpace(lines[end]);
      KindTests(lines, end);
      if HasPrefix(ToLower(trimmed), "host ") || HasPrefix(trimmed, "### ") {
        break;
      }
      end := end + 1;
    }
  }
}
