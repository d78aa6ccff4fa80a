/** The length-hiding padding of stored passwords: the text, a 0x01 marker, then zeros. */
module Padding {
  import opened Basics

  function Zeros(n: nat): (z: Bytes)
    ensures |z| == n && forall k :: 0 <= k < n ==> z[k] == 0
  {
    seq(n, _ => 0)
  }

  /** What padding makes of a byte string: at least 64 bytes. */
  function Padded(data: Bytes): Bytes {
    data + [1] + Zeros(if |data| < 63 then 63 - |data| else 0)
  }

  /** What unpadding makes of a byte string, read from its end. */
  function Unpadded(data: Bytes): (r: Option<Bytes>)
    ensures r.Some? ==> |r.value| < |data|
    decreases |data|
  {
    if data == [] then None
    else
      var last, front := data[|data| - 1], data[..|data| - 1];
      if last == 0 then Unpadded(front)
      else if last == 1 then Some(front)
      else None
  }

  /** Unpadding gives `text` exactly for `text`, a marker and any number of zeros. */
  lemma {:induction false} UnpaddedIff(data: Bytes, text: Bytes)
    ensures Unpadded(data) == Some(text)
       <==> |data| > |text| && data == text + [1] + Zeros(|data| - |text| - 1)
    decreases |data|
  {
    if |data| > |text| {
      var last, front := data[|data| - 1], data[..|data| - 1];
      var tail := |data| - |text| - 1;
      if tail > 0 {
        UnpaddedIff(front, text);
        assert Zeros(tail)[..tail - 1] == Zeros(tail - 1);
        if data == text + [1] + Zeros(tail) {
          assert front == text + [1] + Zeros(tail - 1);
        }
        if last == 0 && front == text + [1] + Zeros(tail - 1) {
          assert data == front + [0];
          assert Zeros(tail) == Zeros(tail - 1) + [0];
        }
      } else {
        assert data == front + [last];
        assert (text + [1] + Zeros(0))[|text|] == 1;
        assert |Zeros(0)| == 0 && text + [1] + Zeros(0) == text + [1];
        assert last == 0 ==> Unpadded(data) == Unpadded(front);
      }
    }
  }

  /** Every byte string comes back, and up to 63 bytes all padded strings have the same length. */
  lemma {:induction false} UnpadPad(text: Bytes)
    ensures Unpadded(Padded(text)) == Some(text)
    ensures |Padded(text)| == if |text| <= 63 then 64 else |text| + 1
  {
    UnpaddedIff(Padded(text), text);
  }

  method Pad(data: Bytes) returns (res: array<Byte>)
    ensures fresh(res) && res[..] == Padded(data)
  {
    var L := |data|;
    if L < 63 {
      res := new Byte[64](_ => 0);
      Copy(res, data);
      res[L] := 0x01;
      assert res[..] == Padded(data);
      return;
    }
    res := new Byte[L + 1](_ => 0);
    Copy(res, data);
    res[L] := 0x01;
    assert res[..] == Padded(data);
  }

  /** The built-in `copy`. */
  method Copy(dst: array<Byte>, src: Bytes)
    requires |src| <= dst.Length
    modifies dst
    ensures dst[..] == src + old(dst[|src|..])
  {
    var i := 0;
    while i < |src|
      invariant 0 <= i <= |src|
      invariant dst[..i] == src[..i] && dst[i..] == old(dst[i..])
    {
      dst[i] := src[i];
      i := i + 1;
    }
  }

  method Unpad(data: array<Byte>) returns (r: Option<Bytes>)
    ensures r == Unpadded(data[..])
  {
    var L := data.Length;
    if L == 0 {
      return None;
    }
    var i := L - 1;
    assert data[..i + 1] == data[..];
    while i >= 0 && data[i] == 0x00
      invariant -1 <= i < L
      invariant Unpadded(data[..]) == Unpadded(data[..i + 1])
      decreases i
    {
      assert data[..i + 1][..i] == data[..i];
      i := i - 1;
    }
    if i < 0 {
      return None;
    }
    assert data[..i + 1][..i] == data[..i];
    if data[i] != 0x01 {
      return None;
    }
    return Some(data[..i]);
  }
}
