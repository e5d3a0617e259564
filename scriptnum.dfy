/** Script numbers: the minimal sign-magnitude little-endian encoding that
    `push_int` emits for values other than -1..16 (rust-bitcoin's
    `write_scriptint`), and the decoder the stack analyzer applies to data
    pushes (rust-bitcoin's `read_scriptint`: at most 4 bytes, minimally
    encoded, as in Bitcoin Core's CScriptNum). */
module ScriptNum {
  import opened Wrappers
  import opened Opcodes

  function Pow256(j: nat): (p: nat)
    ensures p >= 1
  {
    if j == 0 then 1 else 0x100 * Pow256(j - 1)
  }

  /** Little-endian bytes of the magnitude `m`, with no trailing zero byte. */
  function MagnitudeBytes(m: nat): seq<byte>
  {
    if m == 0 then [] else [m % 0x100] + MagnitudeBytes(m / 0x100)
  }

  /** The unsigned little-endian value of `bs`. */
  function Value(bs: seq<byte>): nat
  {
    if bs == [] then 0 else bs[0] + 0x100 * Value(bs[1..])
  }

  /** `write_scriptint`: empty for 0; otherwise the magnitude bytes, with the
      sign in the top bit of the last byte, or in an extra byte when the
      magnitude already uses that bit. */
  function WriteScriptInt(n: int): seq<byte>
  {
    if n == 0 then []
    else
      var b := MagnitudeBytes(if n < 0 then -n else n);
      if |b| == 0 then []
      else
        var last := b[|b| - 1];
        if last >= 0x80 then b + [if n < 0 then 0x80 else 0]
        else b[..|b| - 1] + [if n < 0 then last + 0x80 else last]
  }

  /** `read_scriptint`: the empty vector is 0; more than four bytes overflow;
      a last byte without magnitude bits is refused unless the byte before it
      needs its top bit (minimal encoding). */
  function ReadScriptInt(v: seq<byte>): Result<int>
  {
    if v == [] then Ok(0)
    else if |v| > 4 then Err("numeric overflow")
    else
      var last := v[|v| - 1];
      if last % 0x80 == 0 && (|v| <= 1 || v[|v| - 2] < 0x80) then Err("non-minimal push")
      else
        var mag: int := Value(v[..|v| - 1] + [last % 0x80]);
        Ok(if last >= 0x80 then -mag else mag)
  }

  lemma {:induction false} ValueOfMagnitude(m: nat)
    ensures Value(MagnitudeBytes(m)) == m
    ensures m > 0 ==> |MagnitudeBytes(m)| > 0 && MagnitudeBytes(m)[|MagnitudeBytes(m)| - 1] != 0
  {
    if m > 0 {
      ValueOfMagnitude(m / 0x100);
      var b := MagnitudeBytes(m);
      assert b[1..] == MagnitudeBytes(m / 0x100);
    }
  }

  /** A magnitude below 128 * 256^j takes at most j + 1 bytes, and when it
      takes exactly j + 1 the top bit of the last one is clear. */
  lemma {:induction false} MagnitudeWidth(m: nat, j: nat)
    requires 0 < m < 0x80 * Pow256(j)
    ensures |MagnitudeBytes(m)| <= j + 1
    ensures |MagnitudeBytes(m)| == j + 1 ==> MagnitudeBytes(m)[j] < 0x80
  {
    if m < 0x100 {
      assert MagnitudeBytes(m / 0x100) == [];
      assert MagnitudeBytes(m) == [m];
    } else {
      assert j > 0;
      assert m / 0x100 < 0x80 * Pow256(j - 1);
      MagnitudeWidth(m / 0x100, j - 1);
    }
  }

  lemma {:induction false} ValueAppendZero(p: seq<byte>)
    ensures Value(p + [0]) == Value(p)
  {
    if p == [] {
      assert Value([0]) == 0 + 0x100 * Value([]);
    } else {
      assert (p + [0])[1..] == p[1..] + [0];
      ValueAppendZero(p[1..]);
    }
  }

  /** Decoding what `write_scriptint` wrote gives the number back, for every
      value that fits the decoder's four bytes. */
  lemma RoundTrip(n: int)
    requires -0x8000_0000 < n < 0x8000_0000
    ensures ReadScriptInt(WriteScriptInt(n)) == Ok(n)
  {
    if n != 0 {
      var m: nat := if n < 0 then -n else n;
      var b := MagnitudeBytes(m);
      ValueOfMagnitude(m);
      assert Pow256(3) == 0x100_0000;
      MagnitudeWidth(m, 3);
      var k := |b|;
      var last := b[k - 1];
      var v := WriteScriptInt(n);
      if last >= 0x80 {
        var s: byte := if n < 0 then 0x80 else 0;
        assert v == b + [s];
        assert v[..|v| - 1] + [s % 0x80] == b + [0];
        ValueAppendZero(b);
      } else {
        var t: byte := if n < 0 then last + 0x80 else last;
        assert v == b[..k - 1] + [t];
        assert v[..|v| - 1] + [t % 0x80] == b;
      }
    }
  }

  lemma WriteScriptIntVectors()
    ensures WriteScriptInt(1234) == [210, 4]
    ensures WriteScriptInt(-1234) == [210, 132]
    ensures WriteScriptInt(255) == [255, 0]
    ensures WriteScriptInt(-255) == [255, 128]
    ensures WriteScriptInt(0xd2) == [210, 0]
  {
    assert MagnitudeBytes(4) == [4] by { assert MagnitudeBytes(0) == []; }
    assert MagnitudeBytes(1234) == [210, 4];
    assert MagnitudeBytes(255) == [255] by { assert MagnitudeBytes(0) == []; }
    assert MagnitudeBytes(0xd2) == [210] by { assert MagnitudeBytes(0) == []; }
  }

  /** Every i64 other than i64::MIN encodes in at most eight bytes, the size
      of the buffer `push_int_non_minimal` hands to `write_scriptint`; only 0
      encodes as the empty vector. */
  lemma WriteScriptIntWidth(n: int)
    requires -0x8000_0000_0000_0000 < n < 0x8000_0000_0000_0000
    ensures |WriteScriptInt(n)| <= 8
    ensures (|WriteScriptInt(n)| == 0) == (n == 0)
  {
    if n != 0 {
      var m: nat := if n < 0 then -n else n;
      ValueOfMagnitude(m);
      assert Pow256(7) == 0x100_0000_0000_0000;
      MagnitudeWidth(m, 7);
    }
  }
}
