/** The bit-level reader the parser runs on.

    The repository takes its reader (`ilo::CBitParser`) from an external
    library; it is modelled here as a constant sequence of bits, most
    significant bit of every byte first, and a cursor. `read(n)` returns the
    next `n` bits as an unsigned number (first bit most significant) and fails
    when fewer than `n` bits are left; `read(0)` returns 0 and moves nothing. */
module Bits {
  import opened Results

  type byte = x: int | 0 <= x < 256

  /** 2 to the power `n`. */
  function Pow2(n: nat): (r: nat)
    ensures r >= 1
  {
    if n == 0 then 1 else 2 * Pow2(n - 1)
  }

  /** A wider field holds larger numbers. */
  lemma {:induction false} Pow2Monotone(a: nat, b: nat)
    requires a <= b
    ensures Pow2(a) <= Pow2(b)
  {
    if a < b {
      Pow2Monotone(a, b - 1);
    }
  }

  /** The powers the field widths of the parser need. */
  lemma Pow2Values()
    ensures Pow2(2) == 4 && Pow2(3) == 8 && Pow2(4) == 16 && Pow2(5) == 32
    ensures Pow2(6) == 64 && Pow2(7) == 128 && Pow2(8) == 256 && Pow2(16) == 65536
  {
    assert Pow2(1) == 2;
    assert Pow2(2) == 4;
    assert Pow2(3) == 8;
    assert Pow2(4) == 16;
    assert Pow2(5) == 32;
    assert Pow2(6) == 64;
    assert Pow2(7) == 128;
    assert Pow2(8) == 256;
    assert Pow2(9) == 512;
    assert Pow2(10) == 1024;
    assert Pow2(11) == 2048;
    assert Pow2(12) == 4096;
    assert Pow2(13) == 8192;
    assert Pow2(14) == 16384;
    assert Pow2(15) == 32768;
  }

  /** The unsigned number the `n` bits from `pos` on spell, first bit most
      significant. */
  function FieldValue(bits: seq<bool>, pos: nat, n: nat): nat
    requires pos + n <= |bits|
  {
    if n == 0 then 0
    else 2 * FieldValue(bits, pos, n - 1) + (if bits[pos + n - 1] then 1 else 0)
  }

  /** Every one of the `n` bits from `pos` on is set: the escape marker of an
      escaped value. */
  predicate AllSet(bits: seq<bool>, pos: nat, n: nat)
    requires pos + n <= |bits|
  {
    forall i | pos <= i < pos + n :: bits[i]
  }

  /** The field `w` stands in `bits` from position `pos` on. */
  predicate At(bits: seq<bool>, pos: nat, w: seq<bool>)
    decreases |w|
  {
    pos + |w| <= |bits| && (|w| == 0 || (bits[pos] == w[0] && At(bits, pos + 1, w[1..])))
  }

  /** Every bit of a field that stands somewhere is there. */
  lemma {:induction false} AtIndex(bits: seq<bool>, pos: nat, w: seq<bool>, i: nat)
    requires At(bits, pos, w) && i < |w|
    ensures bits[pos + i] == w[i]
    decreases i
  {
    if i > 0 {
      AtIndex(bits, pos + 1, w[1..], i - 1);
    }
  }

  /** A field stands where all its bits are. */
  lemma {:induction false} AtOfIndices(bits: seq<bool>, pos: nat, w: seq<bool>)
    requires pos + |w| <= |bits|
    requires forall i | 0 <= i < |w| :: bits[pos + i] == w[i]
    ensures At(bits, pos, w)
    decreases |w|
  {
    if |w| > 0 {
      assert bits[pos + 0] == w[0];
      forall i | 0 <= i < |w[1..]|
        ensures bits[pos + 1 + i] == w[1..][i]
      {
        assert bits[pos + (i + 1)] == w[i + 1];
      }
      AtOfIndices(bits, pos + 1, w[1..]);
    }
  }

  /** The value of a field depends only on the bits standing there. */
  lemma {:induction false} FieldOfWritten(bits: seq<bool>, pos: nat, w: seq<bool>, n: nat)
    requires At(bits, pos, w) && n <= |w|
    ensures FieldValue(bits, pos, n) == FieldValue(w, 0, n)
  {
    if n > 0 {
      FieldOfWritten(bits, pos, w, n - 1);
      AtIndex(bits, pos, w, n - 1);
    }
  }

  /** The field of `n` bits that spells the low `n` bits of `v`, so `v`
      itself when it fits (EncodeValue). */
  function Encode(v: nat, n: nat): (s: seq<bool>)
    ensures |s| == n
  {
    if n == 0 then [] else Encode(v / 2, n - 1) + [v % 2 == 1]
  }

  /** Encode is the inverse of FieldValue on numbers that fit. */
  lemma {:induction false} EncodeValue(v: nat, n: nat)
    requires v < Pow2(n)
    ensures FieldValue(Encode(v, n), 0, n) == v
  {
    if n > 0 {
      var prefix := Encode(v / 2, n - 1);
      var s := prefix + [v % 2 == 1];
      assert At(s, 0, prefix) by {
        forall i | 0 <= i < |prefix| ensures s[0 + i] == prefix[i] {
          assert s[i] == prefix[i];
        }
        AtOfIndices(s, 0, prefix);
      }
      FieldOfWritten(s, 0, prefix, n - 1);
      EncodeValue(v / 2, n - 1);
    }
  }

  /** A field of `n` bits spells a number below 2^n. */
  lemma {:induction false} FieldValueBound(bits: seq<bool>, pos: nat, n: nat)
    requires pos + n <= |bits|
    ensures FieldValue(bits, pos, n) < Pow2(n)
  {
    if n > 0 {
      FieldValueBound(bits, pos, n - 1);
    }
  }

  /** A field spells the largest `n`-bit number exactly when all its bits are
      set. */
  lemma {:induction false} AllSetIffMax(bits: seq<bool>, pos: nat, n: nat)
    requires pos + n <= |bits|
    ensures FieldValue(bits, pos, n) == Pow2(n) - 1 <==> AllSet(bits, pos, n)
  {
    if n > 0 {
      AllSetIffMax(bits, pos, n - 1);
      FieldValueBound(bits, pos, n - 1);
    }
  }

  /** Two adjacent fields stand one after the other; `mid` is where the
      second one starts. */
  lemma AtSplit(bits: seq<bool>, pos: nat, a: seq<bool>, b: seq<bool>, mid: nat)
    requires At(bits, pos, a + b) && mid == pos + |a|
    ensures At(bits, pos, a) && At(bits, mid, b)
  {
    forall i | 0 <= i < |a|
      ensures bits[pos + i] == a[i]
    {
      AtIndex(bits, pos, a + b, i);
      assert (a + b)[i] == a[i];
    }
    AtOfIndices(bits, pos, a);
    forall i | 0 <= i < |b|
      ensures bits[mid + i] == b[i]
    {
      AtIndex(bits, pos, a + b, |a| + i);
      assert (a + b)[|a| + i] == b[i];
    }
    AtOfIndices(bits, mid, b);
  }

  /** Three adjacent fields stand one after the other, the second from `p1`
      on and the third from `p2` on. */
  lemma AtSplit3(bits: seq<bool>, pos: nat, a: seq<bool>, b: seq<bool>, c: seq<bool>, p1: nat, p2: nat)
    requires At(bits, pos, a + b + c) && p1 == pos + |a| && p2 == p1 + |b|
    ensures At(bits, pos, a) && At(bits, p1, b) && At(bits, p2, c)
  {
    AtSplit(bits, pos, a + b, c, p2);
    AtSplit(bits, pos, a, b, p1);
  }

  /** A field placed between two sequences stands right after the first. */
  lemma AtConcat(before: seq<bool>, w: seq<bool>, after: seq<bool>)
    ensures At(before + w + after, |before|, w)
  {
    forall i | 0 <= i < |w|
      ensures (before + w + after)[|before| + i] == w[i]
    {
    }
    AtOfIndices(before + w + after, |before|, w);
  }

  /** A field written by Encode is read back. */
  lemma AtEncode(bits: seq<bool>, pos: nat, v: nat, n: nat)
    requires v < Pow2(n) && At(bits, pos, Encode(v, n))
    ensures ReadAt(bits, pos, n) == Ok(Parsed(v, pos + n))
  {
    FieldOfWritten(bits, pos, Encode(v, n), n);
    EncodeValue(v, n);
  }

  /** The bits of a byte buffer, every byte most significant bit first. */
  function BitsOfBytes(buffer: seq<byte>): (bits: seq<bool>)
    ensures |bits| == 8 * |buffer|
  {
    if |buffer| == 0 then []
    else Encode(buffer[0], 8) + BitsOfBytes(buffer[1..])
  }

  /** read(n) at position `pos`: the value of the next `n` bits and the
      position after them, or ReaderExhausted when fewer than `n` are left. */
  function ReadAt(bits: seq<bool>, pos: nat, n: nat): (r: Result<Parsed<nat>>)
    ensures r.Ok? <==> pos + n <= |bits|
    ensures r.Ok? ==> r.value.next == pos + n && r.value.item < Pow2(n)
    ensures r.Fail? ==> r.error == ReaderExhausted
  {
    if pos + n <= |bits| then
      FieldValueBound(bits, pos, n);
      Ok(Parsed(FieldValue(bits, pos, n), pos + n))
    else Fail(ReaderExhausted)
  }

  /** The reader object every parse function advances. */
  class BitParser {
    const bits: seq<bool>
    var pos: nat

    ghost predicate Valid()
      reads this
    {
      pos <= |bits|
    }

    constructor (buffer: seq<bool>)
      ensures Valid() && bits == buffer && pos == 0
    {
      bits := buffer;
      pos := 0;
    }

    /** tell(): the current bit position. */
    function Tell(): (p: nat)
      reads this
      ensures p == pos
    {
      pos
    }

    /** nofBitsLeft(): the number of bits not read yet. */
    function NofBitsLeft(): (n: nat)
      reads this
      requires Valid()
      ensures n + pos == |bits|
    {
      |bits| - pos
    }

    /** read(n): the next `n` bits as a number; the cursor moves on by `n`. */
    method Read(n: nat) returns (res: Result<nat>)
      requires Valid()
      modifies this
      ensures Valid()
      ensures Matches(res, ReadAt(bits, old(pos), n), pos)
    {
      var r := ReadAt(bits, pos, n);
      if r.Fail? {
        return Fail(r.error);
      }
      pos := r.value.next;
      res := Ok(r.value.item);
    }

    /** seek(p) from the beginning; a position past the end fails and leaves
        the cursor where it was. */
    method Seek(p: nat) returns (res: Result<()>)
      requires Valid()
      modifies this
      ensures Valid()
      ensures p <= |bits| ==> res == Ok(()) && pos == p
      ensures p > |bits| ==> res == Fail(ReaderExhausted) && pos == old(pos)
    {
      if p > |bits| {
        return Fail(ReaderExhausted);
      }
      pos := p;
      res := Ok(());
    }
  }
}
