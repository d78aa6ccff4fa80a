/** The salt encoding of yescrypt password hashes: six bits a character, low bits first. */
module Encode64 {
  import opened Basics

  const ITOA64: string := QUARTER0 + QUARTER1 + QUARTER2 + QUARTER3
  const QUARTER0 := "./0123456789ABCD"
  const QUARTER1 := "EFGHIJKLMNOPQRST"
  const QUARTER2 := "UVWXYZabcdefghij"
  const QUARTER3 := "klmnopqrstuvwxyz"

  /** The value of a character of the alphabet. */
  function ValueOf(c: char): int {
    if c == '.' then 0
    else if c == '/' then 1
    else if '0' <= c <= '9' then c as int - '0' as int + 2
    else if 'A' <= c <= 'Z' then c as int - 'A' as int + 12
    else if 'a' <= c <= 'z' then c as int - 'a' as int + 38
    else -1
  }

  lemma {:induction false} AlphabetReadBack(i: nat)
    requires i < 64
    ensures |ITOA64| == 64 && ValueOf(ITOA64[i]) == i
  {
    if i < 16 {
      ReadBack0(i);
    } else if i < 32 {
      ReadBack1(i - 16);
    } else if i < 48 {
      ReadBack2(i - 32);
    } else {
      ReadBack3(i - 48);
    }
  }

  lemma {:induction false} ReadBack0(i: nat)
    requires i < 16
    ensures |QUARTER0| == 16 && ValueOf(QUARTER0[i]) == i
  {
  }

  lemma {:induction false} ReadBack1(i: nat)
    requires i < 16
    ensures |QUARTER1| == 16 && ValueOf(QUARTER1[i]) == 16 + i
  {
  }

  lemma {:induction false} ReadBack2(i: nat)
    requires i < 16
    ensures |QUARTER2| == 16 && ValueOf(QUARTER2[i]) == 32 + i
  {
  }

  lemma {:induction false} ReadBack3(i: nat)
    requires i < 16
    ensures |QUARTER3| == 16 && ValueOf(QUARTER3[i]) == 48 + i
  {
  }

  // ---- The specification: groups of three bytes ----

  /** Up to three bytes as one number, the first byte lowest. */
  function GroupValue(g: seq<Byte>): (v: nat)
    decreases |g|
  {
    if g == [] then 0 else g[0] + 256 * GroupValue(g[1..])
  }

  /** `k` characters, low bits first. */
  function Chars(v: nat, k: nat): (s: string)
    ensures |s| == k
    ensures forall c <- s :: c in ITOA64
    decreases k
  {
    if k == 0 then "" else [ITOA64[v % 64]] + Chars(v / 64, k - 1)
  }

  /** How many characters a group of `n` bytes takes. */
  function CharsOf(n: nat): nat
    requires n <= 3
  {
    if n == 0 then 0 else n + 1
  }

  function GroupSize(src: seq<Byte>): nat {
    if |src| < 3 then |src| else 3
  }

  function Encode(src: seq<Byte>): (s: string)
    ensures forall c <- s :: c in ITOA64
    decreases |src|
  {
    if src == [] then ""
    else
      var n := GroupSize(src);
      Chars(GroupValue(src[..n]), CharsOf(n)) + Encode(src[n..])
  }

  lemma {:induction false} EncodedLength(src: seq<Byte>)
    ensures |Encode(src)| == (8 * |src| + 5) / 6
    decreases |src|
  {
    if src != [] {
      EncodedLength(src[GroupSize(src)..]);
    }
  }

  // ---- Decoding ----

  function CharsValue(s: string): int
    decreases |s|
  {
    if s == "" then 0 else ValueOf(s[0]) + 64 * CharsValue(s[1..])
  }

  function BytesOf(v: nat, n: nat): (g: seq<Byte>)
    ensures |g| == n
    decreases n
  {
    if n == 0 then [] else [v % 256] + BytesOf(v / 256, n - 1)
  }

  /** The inverse: groups of four characters give three bytes, a last group of three or two
      characters gives two bytes or one. */
  function Decode(s: string): seq<Byte>
    decreases |s|
  {
    if |s| < 2 then []
    else
      var k := if |s| < 4 then |s| else 4;
      var v := CharsValue(s[..k]);
      BytesOf(if v < 0 then 0 else v, k - 1) + Decode(s[k..])
  }

  lemma {:induction false} CharsReadBack(v: nat, k: nat)
    ensures CharsValue(Chars(v, k)) == v % Pow64(k)
    decreases k
  {
    if k > 0 {
      CharsReadBack(v / 64, k - 1);
      AlphabetReadBack(v % 64);
      assert Chars(v, k)[1..] == Chars(v / 64, k - 1);
      SplitMod(v, k);
    } else {
      assert v % 1 == 0;
    }
  }

  function Pow64(k: nat): (p: nat)
    ensures p > 0
  {
    if k == 0 then 1 else 64 * Pow64(k - 1)
  }

  lemma {:induction false} SplitMod(v: nat, k: nat)
    requires k > 0
    ensures v % Pow64(k) == v % 64 + 64 * ((v / 64) % Pow64(k - 1))
  {
    var p := Pow64(k - 1);
    var q, r := (v / 64) / p, (v / 64) % p;
    assert v == 64 * (v / 64) + v % 64;
    assert v / 64 == p * q + r;
    var low := v % 64 + 64 * r;
    assert v == (64 * p) * q + low;
    assert 0 <= low < 64 * p;
    ModUnique(v, 64 * p, q, low);
  }

  lemma {:induction false} ModUnique(v: nat, d: nat, q: nat, r: nat)
    requires d > 0 && v == d * q + r && r < d
    ensures v % d == r
  {
    var q' := v / d;
    assert v == d * q' + v % d;
    assert d * (q' - q) == r - v % d;
    SmallMultiple(d, q' - q);
  }

  lemma {:induction false} SmallMultiple(d: int, k: int)
    requires -d < d * k < d
    ensures k == 0
  {
    assert k >= 1 ==> d * k >= d;
    assert k <= -1 ==> d * k <= -d;
  }

  lemma {:induction false} GroupBound(g: seq<Byte>)
    requires |g| <= 3
    ensures GroupValue(g) < (if |g| == 0 then 1 else if |g| == 1 then 256 else if |g| == 2 then 65536 else 16777216)
    decreases |g|
  {
    if g != [] {
      GroupBound(g[1..]);
    }
  }

  lemma {:induction false} BytesReadBack(g: seq<Byte>)
    ensures BytesOf(GroupValue(g), |g|) == g
    decreases |g|
  {
    if g != [] {
      BytesReadBack(g[1..]);
      LowByte(g[0], GroupValue(g[1..]));
    }
  }

  lemma {:induction false} LowByte(b: Byte, v: nat)
    ensures (b + 256 * v) % 256 == b && (b + 256 * v) / 256 == v
  {
  }

  lemma {:induction false} SmallPowers()
    ensures Pow64(2) == 4096 && Pow64(3) == 262144 && Pow64(4) == 16777216
  {
    assert Pow64(1) == 64 * Pow64(0);
    assert Pow64(2) == 64 * Pow64(1);
    assert Pow64(3) == 64 * Pow64(2);
  }

  lemma {:induction false} GroupReadBack(g: seq<Byte>)
    requires 0 < |g| <= 3
    ensures CharsValue(Chars(GroupValue(g), CharsOf(|g|))) == GroupValue(g)
  {
    var v, k := GroupValue(g), CharsOf(|g|);
    assert v < Pow64(k) by {
      GroupBound(g);
      SmallPowers();
    }
    CharsReadBack(v, k);
    SmallMod(v, Pow64(k));
  }

  lemma {:induction false} SmallMod(v: nat, d: nat)
    requires v < d
    ensures v % d == v
  {
  }

  /** Decoding an encoded byte string gives it back, whatever its length. */
  lemma {:induction false} RoundTrip(src: seq<Byte>)
    ensures Decode(Encode(src)) == src
    decreases |src|
  {
    if src != [] {
      var n := GroupSize(src);
      var g, rest := src[..n], src[n..];
      var head := Chars(GroupValue(g), CharsOf(n));
      var s := Encode(src);
      RoundTrip(rest);
      GroupReadBack(g);
      BytesReadBack(g);
      var k := if |s| < 4 then |s| else 4;
      assert n < 3 ==> rest == [] && Encode(rest) == "";
      assert k == CharsOf(n);
      assert s[..k] == head && s[k..] == Encode(rest);
      assert src == g + rest;
    }
  }

  lemma {:induction false} Injective(a: seq<Byte>, b: seq<Byte>)
    requires Encode(a) == Encode(b)
    ensures a == b
  {
    RoundTrip(a);
    RoundTrip(b);
  }

  // ---- Bit by bit ----

  /** Bit `p` of a number, the lowest being bit 0. */
  function Bit(v: nat, p: nat): nat {
    if p == 0 then v % 2 else Bit(v / 2, p - 1)
  }

  /** Bit `p` of a byte string, the lowest bit of each byte first; noughts follow. */
  function StreamBit(src: seq<Byte>, p: nat): nat {
    if p / 8 < |src| then Bit(src[p / 8], p % 8) else 0
  }

  function Pow2(n: nat): nat {
    if n == 0 then 1 else 2 * Pow2(n - 1)
  }

  lemma {:induction false} BitSplit(low: nat, high: nat, n: nat, p: nat)
    requires low < Pow2(n)
    ensures Bit(low + Pow2(n) * high, p) == if p < n then Bit(low, p) else Bit(high, p - n)
    decreases n
  {
    if n > 0 {
      var x := Pow2(n - 1) * high;
      assert Pow2(n) * high == 2 * x;
      assert (low + 2 * x) % 2 == low % 2 && (low + 2 * x) / 2 == low / 2 + x;
      if p > 0 {
        BitSplit(low / 2, high, n - 1, p - 1);
      }
    }
  }

  lemma {:induction false} SmallPow2()
    ensures Pow2(6) == 64 && Pow2(8) == 256
  {
    assert Pow2(2) == 4 && Pow2(4) == 4 * Pow2(2);
    assert Pow2(6) == 4 * Pow2(4);
    assert Pow2(8) == 4 * Pow2(6);
  }

  lemma {:induction false} ZeroBits(p: nat)
    ensures Bit(0, p) == 0
    decreases p
  {
    if p > 0 {
      ZeroBits(p - 1);
    }
  }

  lemma {:induction false} CharBit(v: nat, k: nat, i: nat, b: nat)
    requires i < k && b < 6
    ensures var x := ValueOf(Chars(v, k)[i]); 0 <= x < 64 && Bit(x, b) == Bit(v, 6 * i + b)
    decreases k
  {
    SmallPow2();
    AlphabetReadBack(v % 64);
    assert v == v % 64 + 64 * (v / 64);
    BitSplit(v % 64, v / 64, 6, 6 * i + b);
    if i > 0 {
      CharBit(v / 64, k - 1, i - 1, b);
      assert Chars(v, k)[i] == Chars(v / 64, k - 1)[i - 1];
    }
  }

  lemma {:induction false} GroupBit(g: seq<Byte>, p: nat)
    ensures Bit(GroupValue(g), p) == StreamBit(g, p)
    decreases |g|
  {
    if g == [] {
      ZeroBits(p);
    } else {
      SmallPow2();
      BitSplit(g[0], GroupValue(g[1..]), 8, p);
      if p >= 8 {
        GroupBit(g[1..], p - 8);
        assert p / 8 == (p - 8) / 8 + 1 && p % 8 == (p - 8) % 8;
      }
    }
  }

  lemma {:induction false} GroupOfStream(src: seq<Byte>, g: seq<Byte>, p: nat)
    requires g <= src && (g == src || p < 8 * |g|)
    ensures StreamBit(g, p) == StreamBit(src, p)
  {
  }

  /** What the characters mean: the bits of the byte string in order, the lowest bit of each byte first, six to a
      character. */
  lemma {:induction false} CharactersAreBits(src: seq<Byte>, i: nat, b: nat)
    requires i < |Encode(src)| && b < 6
    ensures Carries(Encode(src)[i], b, src, 6 * i + b)
  {
    var at, j, n, c := Locate(src, i);
    BitsAt(src, at, src[at..], src[at..][..n], j, CharsOf(n), c, b);
    assert 6 * i + b == 6 * j + b + 8 * at;
  }

  lemma {:induction false} BitsAt(src: seq<Byte>, at: nat, rest: seq<Byte>, g: seq<Byte>, j: nat, k: nat, c: char, b: nat)
    requires at <= |src| && rest == src[at..] && j < k && b < 6
    requires g <= rest && (g == rest || 6 * k <= 8 * |g|) && c == Chars(GroupValue(g), k)[j]
    ensures Carries(c, b, src, 6 * j + b + 8 * at)
  {
    CharBit(GroupValue(g), k, j, b);
    GroupBit(g, 6 * j + b);
    GroupOfStream(rest, g, 6 * j + b);
    LaterBits(c, src, at, 6 * j + b, b);
  }

  /** The group of a character: it begins at byte `at`, and the character is number `j` of it. */
  lemma {:induction false} Locate(src: seq<Byte>, i: nat) returns (at: nat, j: nat, n: nat, c: char)
    requires i < |Encode(src)|
    ensures c == Encode(src)[i] && at < |src| && 6 * i == 6 * j + 8 * at
    ensures n == GroupSize(src[at..]) && j < CharsOf(n) && c == Chars(GroupValue(src[at..][..n]), CharsOf(n))[j]
    decreases |src|
  {
    CharacterOf(src, GroupSize(src), i);
    if i >= CharsOf(GroupSize(src)) {
      at, j, n, c := Locate(src[3..], i - 4);
      assert src[3..][at..] == src[at + 3..];
      at := at + 3;
    } else {
      at, j, n, c := 0, i, GroupSize(src), Encode(src)[i];
      assert src[0..] == src;
    }
  }

  /** Bit `b` of the character's value is bit `p` of the byte string. */
  ghost predicate Carries(c: char, b: nat, src: seq<Byte>, p: nat) {
    0 <= ValueOf(c) < 64 && Bit(ValueOf(c), b) == StreamBit(src, p)
  }

  lemma {:induction false} LaterBits(c: char, src: seq<Byte>, at: nat, p: nat, b: nat)
    requires at <= |src| && Carries(c, b, src[at..], p)
    ensures Carries(c, b, src, p + 8 * at)
  {
    assert (p + 8 * at) / 8 == p / 8 + at && (p + 8 * at) % 8 == p % 8;
  }

  lemma {:induction false} CharacterOf(src: seq<Byte>, n: nat, i: nat)
    requires i < |Encode(src)| && n == GroupSize(src)
    ensures i < CharsOf(n) ==> Encode(src)[i] == Chars(GroupValue(src[..n]), CharsOf(n))[i]
    ensures i >= CharsOf(n) ==>
              n == 3 && 4 <= i && i - 4 < |Encode(src[3..])| && Encode(src)[i] == Encode(src[3..])[i - 4]
  {
  }

  /** The alphabet, and the value of each of its characters. */
  lemma {:induction false} Alphabet(i: nat)
    requires i < 64
    ensures var all := "./0123456789" + "ABCDEFGHIJKLMNOPQRSTUVWXYZ" + "abcdefghijklmnopqrstuvwxyz";
      |all| == 64 == |ITOA64| && ITOA64[i] == all[i] && ValueOf(all[i]) == i
  {
    AlphabetReadBack(i);
    var all := "./0123456789" + "ABCDEFGHIJKLMNOPQRSTUVWXYZ" + "abcdefghijklmnopqrstuvwxyz";
    CharacterAt(all, i);
    SameValue(ITOA64[i], all[i]);
  }

  lemma {:induction false} SameValue(c: char, d: char)
    requires ValueOf(c) == ValueOf(d) >= 0
    ensures c == d
  {
  }

  lemma {:induction false} CharacterAt(all: string, i: nat)
    requires i < 64 && all == "./0123456789" + "ABCDEFGHIJKLMNOPQRSTUVWXYZ" + "abcdefghijklmnopqrstuvwxyz"
    ensures |all| == 64 && ValueOf(all[i]) == i
  {
    if i < 12 {
    } else if i < 38 {
      Letter("ABCDEFGHIJKLMNOPQRSTUVWXYZ", 'A', i - 12);
    } else {
      Letter("abcdefghijklmnopqrstuvwxyz", 'a', i - 38);
    }
  }

  lemma {:induction false} Letter(letters: string, first: char, j: nat)
    requires letters == if first == 'A' then "ABCDEFGHIJKLMNOPQRSTUVWXYZ" else "abcdefghijklmnopqrstuvwxyz"
    requires first == 'A' || first == 'a'
    requires j < 26
    ensures |letters| == 26 && letters[j] as int == first as int + j
  {
  }

  // ---- The loops ----

  /** `encode64`: every round of the outer loop collects up to 24 bits and then emits them. The value
      stays below 2^24, so that 32 bits are enough. */
  method EncodeBytes(src: seq<Byte>) returns (dst: string)
    ensures dst == Encode(src)
    ensures |dst| == (8 * |src| + 5) / 6
    ensures forall c <- dst :: c in ITOA64
  {
    dst := "";
    var i := 0;
    while i < |src|
      invariant 0 <= i <= |src|
      invariant dst + Encode(src[i..]) == Encode(src)
    {
      var group;
      group, i := EmitGroup(src, i);
      dst := dst + group;
    }
    EncodedLength(src);
  }

  /** One round: at most three bytes from position `i`. */
  method EmitGroup(src: seq<Byte>, i: nat) returns (group: string, i': nat)
    requires i < |src|
    ensures i' == i + GroupSize(src[i..])
    ensures group + Encode(src[i'..]) == Encode(src[i..])
  {
    var value, bits;
    value, bits, i' := Collect(src, i);
    group := Spell(value, bits, i' - i);
    assert src[i..][..i' - i] == src[i..i'] && src[i..][i' - i..] == src[i'..];
  }

  /** The first inner loop. The next byte goes above the bits collected so far, so that the
      program's bitwise or is a sum. */
  method Collect(src: seq<Byte>, i: nat) returns (value: nat, bits: int, i': nat)
    requires i < |src|
    ensures i' == i + GroupSize(src[i..]) && bits == 8 * (i' - i)
    ensures value == GroupValue(src[i..i']) < 0x1_0000_0000
  {
    value, bits, i' := 0, 0, i;
    while bits < 24 && i' < |src|
      invariant i <= i' <= |src| && bits == 8 * (i' - i) <= 24
      invariant value == GroupValue(src[i..i']) < 0x1_0000_0000
      decreases |src| - i'
    {
      var g := src[i..i'];
      AppendByte(g, src[i']);
      assert src[i..i' + 1] == g + [src[i']];
      GroupBound(src[i..i' + 1]);
      value := value + src[i'] * Shift(bits);
      i' := i' + 1;
      bits := bits + 8;
    }
  }

  /** The second inner loop, for a group of `n` bytes. */
  method Spell(whole: nat, size: int, n: nat) returns (group: string)
    requires 0 < n <= 3 && size == 8 * n
    ensures group == Chars(whole, CharsOf(n))
  {
    var value, bits := whole, size;
    group := "";
    ghost var left := CharsOf(n);
    while bits > 0
      invariant (bits > 0 <==> left > 0) && 0 <= left
      invariant bits == 8 * n - 6 * (CharsOf(n) - left)
      invariant group + Chars(value, left) == Chars(whole, CharsOf(n))
      decreases left
    {
      ghost var rest := Chars(value / 64, left - 1);
      assert Chars(value, left) == [ITOA64[value % 64]] + rest;
      ConcatAssoc(group, [ITOA64[value % 64]], rest);
      group := group + [ITOA64[value % 64]];
      value := value / 64;
      bits := bits - 6;
      left := left - 1;
    }
  }

  /** `1 << bits` */
  function Shift(bits: int): nat {
    if bits == 0 then 1 else if bits == 8 then 256 else if bits == 16 then 65536 else 16777216
  }

  lemma {:induction false} AppendByte(g: seq<Byte>, b: Byte)
    requires |g| <= 2
    ensures GroupValue(g + [b]) == GroupValue(g) + b * Shift(8 * |g|)
    decreases |g|
  {
    if g == [] {
      assert ([b])[1..] == [];
      assert g + [b] == [b];
    } else {
      assert (g + [b])[1..] == g[1..] + [b];
      AppendByte(g[1..], b);
    }
  }
}
