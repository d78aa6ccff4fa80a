/** The string functions of Go's standard library that the modelled code uses. Case folding is
    the ASCII part of `strings.ToLower`. */
module Text {
  import opened Basics

  predicate HasPrefix(s: string, p: string) {
    p <= s
  }

  predicate HasSuffix(s: string, p: string) {
    |p| <= |s| && s[|s| - |p|..] == p
  }

  /** `strings.LastIndex` for one character, -1 when absent. */
  function LastIndex(s: string, c: char): (i: int)
    ensures -1 <= i < |s|
    ensures i >= 0 ==> s[i] == c
    ensures forall j :: i < j < |s| ==> s[j] != c
  {
    if s == [] then -1
    else if s[|s| - 1] == c then |s| - 1
    else LastIndex(s[..|s| - 1], c)
  }

  lemma {:induction false} LastIndexIs(s: string, c: char, k: nat)
    requires k < |s| && s[k] == c && forall j :: k < j < |s| ==> s[j] != c
    ensures LastIndex(s, c) == k
  {
  }

  lemma {:induction false} LastIndexAt(s: string, a: string, c: char, b: string)
    requires s == a + [c] + b && c !in b
    ensures LastIndex(s, c) == |a|
  {
    assert s[|a|] == c;
    forall j | |a| < j < |s| ensures s[j] != c {
      assert s[j] == b[j - |a| - 1];
    }
    LastIndexIs(s, c, |a|);
  }

  // ---- Decimal numbers ----

  predicate IsDigit(c: char) {
    '0' <= c <= '9'
  }

  function DigitOf(n: nat): (c: char)
    requires n < 10
    ensures IsDigit(c)
  {
    ('0' as int + n) as char
  }

  function PrintNat(n: nat): (s: string)
    ensures s != [] && forall c <- s :: IsDigit(c)
  {
    if n < 10 then [DigitOf(n)] else PrintNat(n / 10) + [DigitOf(n % 10)]
  }

  /** `%d` */
  function PrintInt(n: int): (s: string)
    ensures s != [] && forall c <- s :: IsDigit(c) || c == '-'
    ensures IsDigit(s[|s| - 1])
  {
    if n < 0 then "-" + PrintNat(-n) else PrintNat(n)
  }

  function DigitsValue(s: string): nat
    requires forall c <- s :: IsDigit(c)
  {
    if s == [] then 0
    else
      assert IsDigit(s[|s| - 1]);
      10 * DigitsValue(s[..|s| - 1]) + (s[|s| - 1] as int - '0' as int)
  }

  const MIN_INT64: int := -0x8000_0000_0000_0000
  const MAX_INT64: int := 0x7fff_ffff_ffff_ffff

  predicate IsInt64(n: int) {
    MIN_INT64 <= n <= MAX_INT64
  }

  /** `strconv.ParseInt(s, 10, 64)`: an optional sign, then digits, in range. */
  function ParseInt(s: string): Option<int> {
    var signed := s != [] && (s[0] == '-' || s[0] == '+');
    var digits := if signed then s[1..] else s;
    if digits == [] || exists c <- digits :: !IsDigit(c) then None
    else
      var n := DigitsValue(digits);
      var v: int := if signed && s[0] == '-' then 0 - n else n;
      if IsInt64(v) then Some(v) else None
  }

  lemma {:induction false} PrintedValue(n: nat)
    ensures DigitsValue(PrintNat(n)) == n
  {
    if n < 10 {
      assert PrintNat(n)[..0] == [];
    } else {
      PrintedValue(n / 10);
      assert PrintNat(n)[..|PrintNat(n)| - 1] == PrintNat(n / 10);
    }
  }

  lemma {:induction false} ParsePrinted(n: int)
    requires IsInt64(n)
    ensures ParseInt(PrintInt(n)) == Some(n)
  {
    if n < 0 {
      PrintedValue(-n);
      assert PrintInt(n)[1..] == PrintNat(-n) && PrintInt(n)[0] == '-';
    } else {
      PrintedValue(n);
      assert IsDigit(PrintNat(n)[0]);
    }
  }

  function Noughts(k: nat): string {
    seq(k, _ => '0')
  }

  /** Digits are noughts before the printed number. */
  lemma {:induction false} DigitsAre(s: string) returns (k: nat)
    requires s != "" && forall c <- s :: IsDigit(c)
    ensures s == Noughts(k) + PrintNat(DigitsValue(s))
    decreases |s|
  {
    var n := |s| - 1;
    var front, last := s[..n], s[n];
    assert s == front + [last] && last in s;
    if front == "" {
      OneDigit(s, last);
      return 0;
    }
    assert forall c <- front :: c in s;
    k := DigitsAre(front);
    LastDigit(s, front, last);
    k := OneMoreDigit(front, k, DigitsValue(front), last as int - '0' as int);
  }

  lemma {:induction false} LastDigit(s: string, front: string, last: char)
    requires s == front + [last] && (forall c <- front :: IsDigit(c)) && IsDigit(last)
    ensures (forall c <- s :: IsDigit(c)) && last == DigitOf(last as int - '0' as int)
    ensures DigitsValue(s) == 10 * DigitsValue(front) + (last as int - '0' as int)
  {
    assert s[..|s| - 1] == front;
  }

  lemma {:induction false} OneDigit(s: string, c: char)
    requires s == [c] && IsDigit(c)
    ensures s == Noughts(0) + PrintNat(DigitsValue(s))
  {
    assert DigitsValue(s[..0]) == 0;
  }

  lemma {:induction false} OneMoreDigit(front: string, k: nat, v: nat, d: nat) returns (k': nat)
    requires front == Noughts(k) + PrintNat(v) && d < 10
    ensures front + [DigitOf(d)] == Noughts(k') + PrintNat(10 * v + d)
  {
    if v == 0 {
      k' := k + 1;
      assert PrintNat(0) == "0" && PrintNat(d) == [DigitOf(d)];
      assert Noughts(k + 1) == Noughts(k) + "0";
    } else {
      k' := k;
      assert (10 * v + d) / 10 == v && (10 * v + d) % 10 == d;
      assert PrintNat(10 * v + d) == PrintNat(v) + [DigitOf(d)];
    }
  }

  lemma {:induction false} NoughtsValue(k: nat, s: string)
    requires forall c <- s :: IsDigit(c)
    ensures DigitsValue(Noughts(k) + s) == DigitsValue(s)
    decreases |s|
  {
    var all := Noughts(k) + s;
    if s == "" {
      assert all == Noughts(k);
      OnlyNoughts(k);
    } else {
      var n := |s| - 1;
      assert s == s[..n] + [s[n]];
      assert all[..|all| - 1] == Noughts(k) + s[..n];
      NoughtsValue(k, s[..n]);
    }
  }

  lemma {:induction false} OnlyNoughts(k: nat)
    ensures DigitsValue(Noughts(k)) == 0
  {
    if k > 0 {
      assert Noughts(k)[..k - 1] == Noughts(k - 1);
      OnlyNoughts(k - 1);
    }
  }

  /** A number as `strconv.ParseInt` takes it: a sign or none, noughts, and the printed number. */
  ghost predicate IsNumeral(s: string, sign: string, k: nat, n: int) {
    && s == sign + (Noughts(k) + PrintNat(if n < 0 then -n else n))
    && (sign == "-" ==> n <= 0) && (sign != "-" ==> n >= 0) && (sign == "" || sign == "+" || sign == "-")
  }

  /** What is read is exactly a number in this form that fits in 64 bits. */
  lemma {:induction false} ParsedForm(s: string, n: int) returns (sign: string, k: nat)
    requires ParseInt(s) == Some(n)
    ensures IsNumeral(s, sign, k, n) && IsInt64(n)
  {
    if s[0] == '-' || s[0] == '+' {
      sign := s[..1];
      k := DigitsAre(s[1..]);
      assert s == sign + s[1..];
    } else {
      sign := "";
      k := DigitsAre(s);
      assert s == sign + s;
    }
  }

  lemma {:induction false} FormParsed(s: string, n: int, sign: string, k: nat)
    requires IsNumeral(s, sign, k, n) && IsInt64(n)
    ensures ParseInt(s) == Some(n)
  {
    var m := if n < 0 then -n else n;
    var digits := Noughts(k) + PrintNat(m);
    NoughtsValue(k, PrintNat(m));
    PrintedValue(m);
    assert s == sign + digits;
    AllDigits(k, PrintNat(m), digits);
    ParseDigits(s, sign, digits, m);
  }

  lemma {:induction false} AllDigits(k: nat, p: string, digits: string)
    requires p != "" && (forall c <- p :: IsDigit(c)) && digits == Noughts(k) + p
    ensures digits != "" && forall c <- digits :: IsDigit(c)
  {
  }

  lemma {:induction false} ParseDigits(s: string, sign: string, digits: string, m: nat)
    requires digits != "" && (forall c <- digits :: IsDigit(c)) && DigitsValue(digits) == m && s == sign + digits
    requires sign == "" || sign == "+" || sign == "-"
    ensures ParseInt(s) == var n := if sign == "-" then 0 - m else m; if IsInt64(n) then Some(n) else None
  {
    if sign == "" {
      assert s == digits && s[0] in digits;
    } else {
      assert s[1..] == digits && s[0] == sign[0];
    }
  }

  // ---- White space ----

  /** `unicode.IsSpace` */
  predicate IsSpace(c: char) {
    || c == ' ' || '\t' <= c <= '\r' || c == '\U{85}' || c == '\U{A0}' || c == '\U{1680}'
    || '\U{2000}' <= c <= '\U{200A}' || c == '\U{2028}' || c == '\U{2029}' || c == '\U{202F}'
    || c == '\U{205F}' || c == '\U{3000}'
  }

  /** The 25 characters, by their code points. */
  lemma {:induction false} SpaceCodes(c: char)
    ensures IsSpace(c) <==> c as int in [0x09, 0x0A, 0x0B, 0x0C, 0x0D, 0x20, 0x85, 0xA0, 0x1680, 0x2028, 0x2029, 0x202F,
                                         0x205F, 0x3000] || 0x2000 <= c as int <= 0x200A
  {
  }

  predicate Blank(s: string) {
    forall c <- s :: IsSpace(c)
  }

  predicate SpaceFree(s: string) {
    forall c <- s :: !IsSpace(c)
  }

  function TrimLeft(s: string): string {
    if s != "" && IsSpace(s[0]) then TrimLeft(s[1..]) else s
  }

  function TrimRight(s: string): string {
    if s != "" && IsSpace(s[|s| - 1]) then TrimRight(s[..|s| - 1]) else s
  }

  function TrimSpace(s: string): string {
    TrimRight(TrimLeft(s))
  }

  /** Nothing to trim. */
  predicate Trimmed(s: string) {
    s != "" ==> !IsSpace(s[0]) && !IsSpace(s[|s| - 1])
  }

  lemma {:induction false} TrimLeftIs(a: string, t: string)
    requires Blank(a) && (t == "" || !IsSpace(t[0]))
    ensures TrimLeft(a + t) == t
    decreases |a|
  {
    if a != "" {
      assert (a + t)[1..] == a[1..] + t;
      TrimLeftIs(a[1..], t);
    } else {
      assert a + t == t;
    }
  }

  lemma {:induction false} TrimRightIs(t: string, b: string)
    requires Blank(b) && (t == "" || !IsSpace(t[|t| - 1]))
    ensures TrimRight(t + b) == t
    decreases |b|
  {
    if b != "" {
      assert (t + b)[..|t + b| - 1] == t + b[..|b| - 1];
      TrimRightIs(t, b[..|b| - 1]);
    } else {
      assert t + b == t;
    }
  }

  /** White space around a trimmed string is what trimming removes. */
  lemma {:induction false} TrimIs(a: string, t: string, b: string)
    requires Blank(a) && Blank(b) && Trimmed(t)
    ensures TrimSpace(a + t + b) == t
  {
    if t == "" {
      assert a + t + b == (a + b) + "";
      TrimLeftIs(a + b, "");
      assert TrimRight("") == "";
    } else {
      assert a + t + b == a + (t + b);
      TrimLeftIs(a, t + b);
      TrimRightIs(t, b);
    }
  }

  lemma {:induction false} TrimLeftParts(s: string) returns (a: string)
    ensures s == a + TrimLeft(s) && Blank(a)
    ensures TrimLeft(s) == "" || !IsSpace(TrimLeft(s)[0])
    decreases |s|
  {
    if s != "" && IsSpace(s[0]) {
      var rest := TrimLeftParts(s[1..]);
      a := [s[0]] + rest;
      assert s == [s[0]] + s[1..];
      ConcatAssoc([s[0]], rest, TrimLeft(s));
    } else {
      a := "";
    }
  }

  lemma {:induction false} TrimRightParts(s: string) returns (b: string)
    ensures s == TrimRight(s) + b && Blank(b)
    ensures TrimRight(s) == "" || !IsSpace(TrimRight(s)[|TrimRight(s)| - 1])
    decreases |s|
  {
    if s != "" && IsSpace(s[|s| - 1]) {
      b := TrimRightParts(s[..|s| - 1]);
      b := b + [s[|s| - 1]];
    } else {
      b := "";
    }
  }

  lemma {:induction false} TrimParts(s: string) returns (a: string, b: string)
    ensures s == a + TrimSpace(s) + b && Blank(a) && Blank(b) && Trimmed(TrimSpace(s))
  {
    a := TrimLeftParts(s);
    b := TrimRightParts(TrimLeft(s));
    var t := TrimSpace(s);
    assert t != "" ==> t[0] == TrimLeft(s)[0];
    assert a + (t + b) == a + t + b;
  }

  lemma {:induction false} TrimTrimmed(s: string)
    requires Trimmed(s)
    ensures TrimSpace(s) == s
  {
    TrimIs("", s, "");
    assert "" + s + "" == s;
  }

  lemma {:induction false} TrimTwice(s: string)
    ensures Trimmed(TrimSpace(s)) && TrimSpace(TrimSpace(s)) == TrimSpace(s)
  {
    var _, _ := TrimParts(s);
    TrimTrimmed(TrimSpace(s));
  }

  lemma {:induction false} BlankIff(s: string)
    ensures Blank(s) <==> TrimSpace(s) == ""
  {
    if Blank(s) {
      TrimIs(s, "", "");
      assert s + "" + "" == s;
    } else {
      var a, b := TrimParts(s);
      assert TrimSpace(s) == "" ==> s == a + b;
    }
  }

  // ---- Words ----

  /** Where the first white space is, or the length. */
  function WordEnd(s: string): (n: nat)
    ensures n <= |s| && SpaceFree(s[..n]) && (n < |s| ==> IsSpace(s[n]))
  {
    if s == "" || IsSpace(s[0]) then 0
    else
      var n := 1 + WordEnd(s[1..]);
      assert s[..n] == [s[0]] + s[1..][..n - 1];
      n
  }

  /** `strings.Fields` */
  function Fields(s: string): seq<string>
    decreases |s|
  {
    if s == "" then []
    else if IsSpace(s[0]) then Fields(s[1..])
    else
      var n := WordEnd(s);
      assert n > 0;
      [s[..n]] + Fields(s[n..])
  }

  lemma {:induction false} WordEndIs(w: string, s: string)
    requires SpaceFree(w) && (s == "" || IsSpace(s[0]))
    ensures WordEnd(w + s) == |w|
    decreases |w|
  {
    if w != "" {
      assert (w + s)[1..] == w[1..] + s;
      WordEndIs(w[1..], s);
    } else {
      assert w + s == s;
    }
  }

  lemma {:induction false} FieldsFirst(w: string, s: string)
    requires w != "" && SpaceFree(w) && (s == "" || IsSpace(s[0]))
    ensures Fields(w + s) == [w] + Fields(s)
  {
    WordEndIs(w, s);
    assert (w + s)[..|w|] == w && (w + s)[|w|..] == s;
  }

  lemma {:induction false} FieldsSkip(a: string, s: string)
    requires Blank(a)
    ensures Fields(a + s) == Fields(s)
    decreases |a|
  {
    if a != "" {
      assert (a + s)[1..] == a[1..] + s;
      FieldsSkip(a[1..], s);
    } else {
      assert a + s == s;
    }
  }

  lemma {:induction false} FieldsTail(s: string, b: string)
    requires Blank(b)
    ensures Fields(s + b) == Fields(s)
    decreases |s|
  {
    if s == "" {
      FieldsSkip(b, "");
      assert s + b == b + "";
    } else if IsSpace(s[0]) {
      assert (s + b)[1..] == s[1..] + b;
      FieldsTail(s[1..], b);
    } else {
      var n := WordEnd(s);
      var w, rest := s[..n], s[n..];
      assert s + b == w + (rest + b) && s == w + rest;
      FieldsFirst(w, rest + b);
      FieldsTail(rest, b);
    }
  }

  /** Trimming does not change the words. */
  lemma {:induction false} FieldsTrimmed(s: string)
    ensures Fields(TrimSpace(s)) == Fields(s)
  {
    var a, b := TrimParts(s);
    var t := TrimSpace(s);
    assert s == a + (t + b);
    FieldsSkip(a, t + b);
    FieldsTail(t, b);
  }

  // ---- Lines ----

  /** `strings.Split` with a separator of one character. */
  function Split(s: string, c: char): (r: seq<string>)
    ensures |r| > 0
  {
    if s == "" then [""]
    else if s[0] == c then [""] + Split(s[1..], c)
    else
      var r := Split(s[1..], c);
      [[s[0]] + r[0]] + r[1..]
  }

  /** `strings.Join` with a separator of one character. */
  function Join(parts: seq<string>, c: char): string {
    if parts == [] then ""
    else if |parts| == 1 then parts[0]
    else parts[0] + [c] + Join(parts[1..], c)
  }

  lemma {:induction false} JoinSplit(s: string, c: char)
    ensures Join(Split(s, c), c) == s
    ensures forall p <- Split(s, c) :: c !in p
    decreases |s|
  {
    if s != "" {
      JoinSplit(s[1..], c);
      var r := Split(s[1..], c);
      if s[0] == c {
        assert ([""] + r)[1..] == r;
      } else {
        JoinLonger(s[0], r, c);
      }
      assert s == [s[0]] + s[1..];
    }
  }

  lemma {:induction false} JoinLonger(x: char, r: seq<string>, c: char)
    requires r != [] && x != c
    ensures Join([[x] + r[0]] + r[1..], c) == [x] + Join(r, c)
    ensures (forall p <- r :: c !in p) ==> forall p <- [[x] + r[0]] + r[1..] :: c !in p
  {
    assert ([[x] + r[0]] + r[1..])[1..] == r[1..];
  }

  lemma {:induction false} SplitFirst(p: string, c: char, s: string)
    requires c !in p
    ensures Split(p + [c] + s, c) == [p] + Split(s, c)
    decreases |p|
  {
    var whole := p + [c] + s;
    if p == "" {
      assert whole[1..] == s;
    } else {
      assert whole[1..] == p[1..] + [c] + s;
      SplitFirst(p[1..], c, s);
      assert [p[0]] + p[1..] == p;
    }
  }

  lemma {:induction false} SplitOne(p: string, c: char)
    requires c !in p
    ensures Split(p, c) == [p]
    decreases |p|
  {
    if p != "" {
      SplitOne(p[1..], c);
      assert [p[0]] + p[1..] == p;
    }
  }

  lemma {:induction false} SplitJoin(parts: seq<string>, c: char)
    requires parts != [] && forall p <- parts :: c !in p
    ensures Split(Join(parts, c), c) == parts
    decreases |parts|
  {
    if |parts| == 1 {
      SplitOne(parts[0], c);
    } else {
      SplitJoin(parts[1..], c);
      SplitFirst(parts[0], c, Join(parts[1..], c));
    }
  }

  lemma {:induction false} JoinAppend(a: seq<string>, b: seq<string>, c: char)
    requires a != [] && b != []
    ensures Join(a + b, c) == Join(a, c) + [c] + Join(b, c)
    decreases |a|
  {
    assert (a + b)[1..] == a[1..] + b;
    if |a| > 1 {
      JoinAppend(a[1..], b, c);
    } else {
      assert a[1..] + b == b;
    }
  }

  // ---- Letter case ----

  function LowerChar(c: char): char {
    if 'A' <= c <= 'Z' then (c as int + 32) as char else c
  }

  function ToLower(s: string): string {
    seq(|s|, i requires 0 <= i < |s| => LowerChar(s[i]))
  }

  /** Each capital letter becomes the small one, and every other character stays. */
  lemma {:induction false} LowerTable(c: char, i: nat)
    requires i < 26
    ensures ToLower(["ABCDEFGHIJKLMNOPQRSTUVWXYZ"[i]]) == ["abcdefghijklmnopqrstuvwxyz"[i]]
    ensures c !in "ABCDEFGHIJKLMNOPQRSTUVWXYZ" ==> ToLower([c]) == [c]
  {
    var capitals := "ABCDEFGHIJKLMNOPQRSTUVWXYZ";
    if 'A' <= c <= 'Z' {
      assert capitals[c as int - 'A' as int] == c;
    }
  }
}
