/** Host blocks in an ssh_config file, seen through the kinds of its lines: a block is a Host line
    with the marker lines directly above it and the plain lines below it. */
module HostBlocks {
  import opened Basics

  /** `Host`: a Host line with its first name. `Marker`: a line with a tag or comment marker. */
  datatype LineKind = Host(alias: string) | Marker | Plain

  datatype Range = Range(start: nat, host: nat, end: nat)

  /** None of the first `n` lines is a Host line with that name. */
  predicate NoHost(ks: seq<LineKind>, n: nat, alias: string)
    requires n <= |ks|
  {
    forall i :: 0 <= i < n ==> ks[i] != Host(alias)
  }

  /** The block of the first Host line with that name. */
  predicate IsBlock(ks: seq<LineKind>, alias: string, r: Range) {
    && r.start <= r.host < r.end <= |ks|
    && ks[r.host] == Host(alias) && NoHost(ks, r.host, alias)
    && (forall i :: r.start <= i < r.host ==> ks[i] == Marker)
    && (r.start > 0 ==> ks[r.start - 1] != Marker)
    && (forall i :: r.host < i < r.end ==> ks[i] == Plain)
    && (r.end < |ks| ==> ks[r.end] != Plain)
  }

  function FirstHost(ks: seq<LineKind>, alias: string, from: nat): (i: nat)
    requires from <= |ks| && NoHost(ks, from, alias)
    ensures from <= i <= |ks| && NoHost(ks, i, alias) && (i < |ks| ==> ks[i] == Host(alias))
    decreases |ks| - from
  {
    if from == |ks| || ks[from] == Host(alias) then from else FirstHost(ks, alias, from + 1)
  }

  function Up(ks: seq<LineKind>, i: nat): (s: nat)
    requires i <= |ks|
    ensures s <= i && (forall j :: s <= j < i ==> ks[j] == Marker) && (s > 0 ==> ks[s - 1] != Marker)
  {
    if i > 0 && ks[i - 1] == Marker then Up(ks, i - 1) else i
  }

  function Down(ks: seq<LineKind>, i: nat): (e: nat)
    requires i <= |ks|
    ensures i <= e <= |ks| && (forall j :: i <= j < e ==> ks[j] == Plain) && (e < |ks| ==> ks[e] != Plain)
    decreases |ks| - i
  {
    if i < |ks| && ks[i] == Plain then Down(ks, i + 1) else i
  }

  function Find(ks: seq<LineKind>, alias: string): (r: Option<Range>)
    ensures r.Some? ==> IsBlock(ks, alias, r.value)
    ensures r.None? ==> NoHost(ks, |ks|, alias)
  {
    var h := FirstHost(ks, alias, 0);
    if h == |ks| then None
    else Some(Range(Up(ks, h), h, Down(ks, h + 1)))
  }

  lemma {:induction false} OneBlock(ks: seq<LineKind>, alias: string, r: Range)
    requires IsBlock(ks, alias, r)
    ensures Find(ks, alias) == Some(r)
  {
    var f := Find(ks, alias).value;
    assert f.host == r.host;
    assert f.start == r.start;
    assert f.end == r.end;
  }

  lemma {:induction false} NoneFound(ks: seq<LineKind>, alias: string)
    requires NoHost(ks, |ks|, alias)
    ensures Find(ks, alias) == None
  {
    var h := FirstHost(ks, alias, 0);
  }

  /** A block has one Host line, and blocks of different names are disjoint. */
  lemma {:induction false} Disjoint(ks: seq<LineKind>, a: string, b: string, r: Range, q: Range)
    requires IsBlock(ks, a, r) && IsBlock(ks, b, q) && a != b
    ensures forall i :: r.start <= i < r.end ==> (ks[i].Host? <==> i == r.host)
    ensures if r.host < q.host then r.end <= q.start else q.end <= r.start
  {
    assert ks[r.host].Host? && ks[q.host].Host? && r.host != q.host;
    assert q.start < q.host ==> ks[q.start] == Marker;
    assert r.start < r.host ==> ks[r.start] == Marker;
  }

  /** A block that occurs in `s`, moved by `d`, is a block there if its surroundings are right. */
  lemma {:induction false} Transfer(ks: seq<LineKind>, alias: string, q: Range, s: seq<LineKind>, d: int)
    requires IsBlock(ks, alias, q) && 0 <= q.start + d && q.end + d <= |s|
    requires forall i :: q.start + d <= i < q.end + d ==> s[i] == ks[i - d]
    requires NoHost(s, q.host + d, alias)
    requires q.start + d > 0 ==> s[q.start + d - 1] != Marker
    requires q.end + d < |s| ==> s[q.end + d] != Plain
    ensures IsBlock(s, alias, Shift(q, d))
  {
    assert s[q.host + d] == ks[q.host];
  }

  lemma {:induction false} InPlace(ks: seq<LineKind>, alias: string, q: Range, s: seq<LineKind>)
    requires IsBlock(ks, alias, q) && q.end <= |s|
    requires forall i :: 0 <= i < q.end ==> s[i] == ks[i]
    requires q.end < |s| ==> s[q.end] != Plain
    ensures IsBlock(s, alias, q)
  {
  }

  // ---- Replacing a block ----

  /** Lines that may stand for a block of that name: no Host line of another name, the first line
      ends the block above, the last one does not join the block below. */
  predicate Fits(m: seq<LineKind>, alias: string) {
    && (forall i :: 0 <= i < |m| && m[i].Host? ==> m[i].alias == alias)
    && (m != [] ==> m[0] != Plain && m[|m| - 1] != Marker)
  }

  function Splice<T>(s: seq<T>, r: Range, m: seq<T>): seq<T>
    requires r.start <= r.end <= |s|
  {
    s[..r.start] + m + s[r.end..]
  }

  lemma {:induction false} SpliceAt<T>(s: seq<T>, r: Range, m: seq<T>)
    requires r.start <= r.end <= |s|
    ensures var t, d := Splice(s, r, m), r.start + |m| - r.end;
      && |t| == |s| + d
      && (forall i :: 0 <= i < r.start ==> t[i] == s[i])
      && (forall i :: r.start <= i < r.start + |m| ==> t[i] == m[i - r.start])
      && (forall i :: r.start + |m| <= i < |t| ==> t[i] == s[i - d])
  {
  }

  function Shift(q: Range, d: int): Range
    requires q.start + d >= 0 && q.host + d >= 0 && q.end + d >= 0
  {
    Range(q.start + d, q.host + d, q.end + d)
  }

  /** The range of another block after the replacement. */
  function Moved(q: Range, r: Range, n: nat): Range
    requires r.start <= r.end && (q.end <= r.start || (r.end <= q.start && q.start <= q.host && q.start <= q.end))
  {
    if q.end <= r.start then q else Shift(q, r.start + n - r.end)
  }

  /** A replaced or deleted block leaves every other block as it is. */
  lemma {:induction false} OthersStay(ks: seq<LineKind>, a: string, r: Range, m: seq<LineKind>, b: string, q: Range)
    requires IsBlock(ks, a, r) && IsBlock(ks, b, q) && a != b && Fits(m, a)
    ensures q.end <= r.start || r.end <= q.start
    ensures IsBlock(Splice(ks, r, m), b, Moved(q, r, |m|))
  {
    Disjoint(ks, a, b, r, q);
    if q.end <= r.start {
      assert ks[r.start] != Plain by {
        assert r.start == r.host || ks[r.start] == Marker;
      }
      BlockAbove(ks, r, m, b, q);
    } else {
      BlockBelow(ks, a, r, m, b, q);
    }
  }

  lemma {:induction false} BlockAbove(ks: seq<LineKind>, r: Range, m: seq<LineKind>, b: string, q: Range)
    requires IsBlock(ks, b, q) && q.end <= r.start <= r.end <= |ks|
    requires r.start < |ks| && ks[r.start] != Plain && (r.end < |ks| ==> ks[r.end] != Plain)
    requires m != [] ==> m[0] != Plain
    ensures IsBlock(Splice(ks, r, m), b, q)
  {
    var s := Splice(ks, r, m);
    SpliceAt(ks, r, m);
    InPlace(ks, b, q, s);
  }

  lemma {:induction false} BlockBelow(ks: seq<LineKind>, a: string, r: Range, m: seq<LineKind>, b: string, q: Range)
    requires IsBlock(ks, b, q) && a != b && r.start <= r.end <= q.start && Fits(m, a)
    requires r.start > 0 ==> ks[r.start - 1] != Marker
    ensures IsBlock(Splice(ks, r, m), b, Shift(q, r.start + |m| - r.end))
  {
    SpliceAt(ks, r, m);
    BlockBelowIn(ks, a, r, m, b, q, Splice(ks, r, m), r.start + |m| - r.end);
  }

  lemma {:induction false} BlockBelowIn(ks: seq<LineKind>, a: string, r: Range, m: seq<LineKind>, b: string, q: Range,
                                        s: seq<LineKind>, d: int)
    requires IsBlock(ks, b, q) && a != b && r.start <= r.end <= q.start && Fits(m, a)
    requires r.start > 0 ==> ks[r.start - 1] != Marker
    requires d == r.start + |m| - r.end && |s| == |ks| + d
    requires forall i :: 0 <= i < r.start ==> s[i] == ks[i]
    requires forall i :: r.start <= i < r.start + |m| ==> s[i] == m[i - r.start]
    requires forall i :: r.start + |m| <= i < |s| ==> s[i] == ks[i - d]
    ensures IsBlock(s, b, Shift(q, d))
  {
    Transfer(ks, b, q, s, d);
  }

  /** No block of another name appears. */
  lemma {:induction false} NoneAppears(ks: seq<LineKind>, a: string, r: Range, m: seq<LineKind>, b: string)
    requires IsBlock(ks, a, r) && a != b && Fits(m, a) && NoHost(ks, |ks|, b)
    ensures NoHost(Splice(ks, r, m), |Splice(ks, r, m)|, b)
  {
  }

  /** The new block is found where the old one was. */
  lemma {:induction false} NewBlock(ks: seq<LineKind>, a: string, r: Range, m: seq<LineKind>, q: Range)
    requires IsBlock(ks, a, r) && Fits(m, a) && IsBlock(m, a, q) && q.end == |m|
    ensures IsBlock(Splice(ks, r, m), a, Shift(q, r.start))
  {
    var s := Splice(ks, r, m);
    var d := r.start;
    SpliceAt(ks, r, m);
    Transfer(m, a, q, s, d);
  }

  // ---- Appending a block ----

  /** A blank line comes between, unless the last line is one or there is none. */
  predicate PadFits(ks: seq<LineKind>, pad: seq<LineKind>) {
    pad == [Plain] || (pad == [] && (ks != [] ==> ks[|ks| - 1] == Plain))
  }

  /** Other blocks stay; the one at the end may get the blank line. */
  lemma {:induction false} OthersStayAppend(ks: seq<LineKind>, pad: seq<LineKind>, m: seq<LineKind>, a: string,
                                            b: string, q: Range)
    requires IsBlock(ks, b, q) && a != b && Fits(m, a) && m != [] && PadFits(ks, pad)
    ensures IsBlock(ks + pad + m, b, if q.end == |ks| then q.(end := |ks| + |pad|) else q)
  {
    var s := ks + pad + m;
    assert forall i :: 0 <= i < |ks| ==> s[i] == ks[i];
    assert forall i :: |ks| <= i < |ks| + |pad| ==> s[i] == Plain;
    assert s[|ks| + |pad|] == m[0];
    assert q.end < |ks| ==> s[q.end] == ks[q.end];
  }

  lemma {:induction false} NewBlockAppend(ks: seq<LineKind>, pad: seq<LineKind>, m: seq<LineKind>, a: string, q: Range)
    requires NoHost(ks, |ks|, a) && Fits(m, a) && IsBlock(m, a, q) && q.end == |m| && PadFits(ks, pad)
    ensures IsBlock(ks + pad + m, a, Shift(q, |ks| + |pad|))
  {
    var s := ks + pad + m;
    var d := |ks| + |pad|;
    assert forall i :: d <= i < |s| ==> s[i] == m[i - d];
    assert forall i :: |ks| <= i < d ==> s[i] == Plain;
    assert forall i :: 0 <= i < |ks| ==> s[i] == ks[i];
    Transfer(m, a, q, s, d);
  }

  /** Plain lines around: the block moves, and one at the end takes the plain lines below. */
  lemma {:induction false} Surrounded(a: seq<LineKind>, m: seq<LineKind>, z: seq<LineKind>, alias: string, q: Range,
                                      s: seq<LineKind>)
    requires IsBlock(m, alias, q) && s == a + m + z
    requires (forall i :: 0 <= i < |a| ==> a[i] == Plain) && (forall i :: 0 <= i < |z| ==> z[i] == Plain)
    ensures IsBlock(s, alias, Range(q.start + |a|, q.host + |a|, if q.end == |m| then |s| else q.end + |a|))
  {
    assert forall i :: 0 <= i < |a| ==> s[i] == Plain;
    assert forall i :: |a| <= i < |a| + |m| ==> s[i] == m[i - |a|];
    assert forall i :: |a| + |m| <= i < |s| ==> s[i] == Plain;
    assert s[q.host + |a|] == m[q.host];
    assert q.start > 0 ==> s[q.start + |a| - 1] == m[q.start - 1];
    assert q.end < |m| ==> s[q.end + |a|] == m[q.end];
  }
}
