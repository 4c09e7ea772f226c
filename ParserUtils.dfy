/** The bit-reader helpers of src/parserutils.cpp: skipBits, readBool and the
    escaped-value decoder (escapedValue() of ISO/IEC 23003-3), as
    specification functions over (bits, pos) and as methods that advance a
    BitParser and are proved to agree with them. */
module ParserUtils {
  import opened Results
  import opened Bits

  const UINT32_MAX: nat := 0xFFFF_FFFF

  // ---------------------------------------------------------------------
  // Specification

  /** skipBits: zero bits leave the cursor alone; otherwise the cursor is set
      `n` bits further on, which fails past the end of the buffer. */
  function SkipBitsAt(bits: seq<bool>, pos: nat, n: nat): (r: Result<Parsed<()>>)
    ensures n == 0 ==> r == Ok(Parsed((), pos))
    ensures r.Ok? ==> r.value.next == pos + n
    ensures n > 0 ==> (r.Ok? <==> pos + n <= |bits|)
    ensures r.Fail? ==> r.error == ReaderExhausted
  {
    if n == 0 then Ok(Parsed((), pos))
    else if pos + n <= |bits| then Ok(Parsed((), pos + n))
    else Fail(ReaderExhausted)
  }

  /** readBool: one bit, true exactly when it is set. */
  function ReadBoolAt(bits: seq<bool>, pos: nat): (r: Result<Parsed<bool>>)
    ensures r.Ok? <==> pos < |bits|
    ensures r.Ok? ==> r.value.next == pos + 1 && r.value.item == bits[pos]
    ensures r.Fail? ==> r.error == ReaderExhausted
  {
    var b :- ReadAt(bits, pos, 1);
    Ok(Parsed(b.item == 1, b.next))
  }

  /** The field widths the escaped-value decoder accepts: the escape marker
      of the first two stages is computed with a 32-bit shift and the third
      stage is read into 32 bits. */
  predicate EscapeWidthsOk(n1: nat, n2: nat, n3: nat)
  {
    n1 < 32 && n2 < 32 && n3 <= 32
  }

  /** The largest value an escaped field of the given stage widths can hold. */
  function EscapedMax(n1: nat, n2: nat, n3: nat): nat
  {
    (Pow2(n1) - 1) + (Pow2(n2) - 1) + (Pow2(n3) - 1)
  }

  /** The number of bits the escaped coding of `v` occupies: one, two or three
      stages depending on the value alone. */
  function EscapedWidth(v: nat, n1: nat, n2: nat, n3: nat): nat
  {
    if v < Pow2(n1) - 1 then n1
    else if v - (Pow2(n1) - 1) < Pow2(n2) - 1 then n1 + n2
    else n1 + n2 + n3
  }

  /** escapedValue(nBits1, nBits2, nBits3): read `n1` bits; if they hold the
      largest `n1`-bit number, add the next `n2` bits; if those hold the
      largest `n2`-bit number too, add the next `n3` bits. Never more than
      three stages. */
  function EscapedValue(bits: seq<bool>, pos: nat, n1: nat, n2: nat, n3: nat): (r: Result<Parsed<nat>>)
    requires EscapeWidthsOk(n1, n2, n3)
    ensures r.Fail? ==> r.error == ReaderExhausted
    ensures r.Ok? ==> r.value.item <= EscapedMax(n1, n2, n3)
    ensures r.Ok? ==> r.value.next == pos + EscapedWidth(r.value.item, n1, n2, n3)
  {
    EscapedStages(bits, pos, n1, n2, n3, Pow2(n1) - 1, Pow2(n2) - 1)
  }

  /** The three stages of escapedValue, with the escape markers `m1` and `m2`
      of the first two stages given. */
  function EscapedStages(bits: seq<bool>, pos: nat, n1: nat, n2: nat, n3: nat, m1: nat, m2: nat)
    : Result<Parsed<nat>>
  {
    match ReadAt(bits, pos, n1)
    case Fail(e) => Fail(e)
    case Ok(a) =>
      if a.item != m1 then Ok(a)
      else
        match ReadAt(bits, a.next, n2)
        case Fail(e) => Fail(e)
        case Ok(b) =>
          if b.item != m2 then Ok(Parsed(a.item + b.item, b.next))
          else
            match ReadAt(bits, b.next, n3)
            case Fail(e) => Fail(e)
            case Ok(c) => Ok(Parsed(a.item + b.item + c.item, c.next))
  }

  /** escapedValueTo32Bit: the escaped value when it fits into 32 bits,
      ValueOutOfRange otherwise. */
  function EscapedValue32(bits: seq<bool>, pos: nat, n1: nat, n2: nat, n3: nat): (r: Result<Parsed<nat>>)
    requires EscapeWidthsOk(n1, n2, n3)
    ensures r.Ok? ==> r.value.item <= UINT32_MAX
    ensures EscapedValue(bits, pos, n1, n2, n3).Ok? && EscapedValue(bits, pos, n1, n2, n3).value.item <= UINT32_MAX
            ==> r == EscapedValue(bits, pos, n1, n2, n3)
    ensures EscapedValue(bits, pos, n1, n2, n3).Ok? && EscapedValue(bits, pos, n1, n2, n3).value.item > UINT32_MAX
            ==> r == Fail(ValueOutOfRange)
    ensures EscapedValue(bits, pos, n1, n2, n3).Fail? ==> r == Fail(ReaderExhausted)
  {
    var v :- EscapedValue(bits, pos, n1, n2, n3);
    if v.item <= UINT32_MAX then Ok(v) else Fail(ValueOutOfRange)
  }

  /** The bits that encode `v` as an escaped value (the writer's side). */
  function EncodeEscaped(v: nat, n1: nat, n2: nat, n3: nat): (s: seq<bool>)
    ensures |s| == EscapedWidth(v, n1, n2, n3)
  {
    var m1, m2 := Pow2(n1) - 1, Pow2(n2) - 1;
    if v < m1 then Encode(v, n1)
    else if v - m1 < m2 then Encode(m1, n1) + Encode(v - m1, n2)
    else Encode(m1, n1) + Encode(m2, n2) + Encode(v - m1 - m2, n3)
  }

  /** `count` fields of `width` bits each, read one after the other and
      appended to `acc`: the push_back loops of the parser (the CICP
      loudspeaker indices, the compatible-set indications, the fill bytes). */
  function ReadFieldsFrom(bits: seq<bool>, pos: nat, count: nat, width: nat, acc: seq<nat>): (r: Result<Parsed<seq<nat>>>)
    ensures r.Ok? <==> count == 0 || pos + count * width <= |bits|
    ensures r.Ok? ==> r.value.next == pos + count * width
    ensures r.Ok? ==> |r.value.item| == |acc| + count && r.value.item[..|acc|] == acc
    ensures r.Ok? ==> forall k | |acc| <= k < |r.value.item| :: r.value.item[k] < Pow2(width)
    ensures r.Fail? ==> r.error == ReaderExhausted
    decreases count
  {
    if count == 0 then Ok(Parsed(acc, pos))
    else
      match ReadAt(bits, pos, width)
      case Fail(e) => Fail(e)
      case Ok(v) =>
        var r := ReadFieldsFrom(bits, v.next, count - 1, width, acc + [v.item]);
        assert (acc + [v.item])[..|acc|] == acc;
        r
  }

  /** `count` fields of `width` bits each. */
  function ReadFields(bits: seq<bool>, pos: nat, count: nat, width: nat): Result<Parsed<seq<nat>>>
  {
    ReadFieldsFrom(bits, pos, count, width, [])
  }

  /** Every value fits into a field of `width` bits. */
  predicate FitWidth(values: seq<nat>, width: nat)
  {
    forall k | 0 <= k < |values| :: values[k] < Pow2(width)
  }

  /** The fields that spell `values`, `width` bits each (the writer's side). */
  function EncodeFields(values: seq<nat>, width: nat): (s: seq<bool>)
    ensures |s| == |values| * width
  {
    if |values| == 0 then [] else Encode(values[0], width) + EncodeFields(values[1..], width)
  }

  // ---------------------------------------------------------------------
  // Properties

  /** A first read that is not the marker is the value. */
  lemma FirstFromReads(bits: seq<bool>, pos: nat, n1: nat, n2: nat, n3: nat, m1: nat, m2: nat, x: nat)
    requires ReadAt(bits, pos, n1) == Ok(Parsed(x, pos + n1)) && x != m1
    ensures EscapedStages(bits, pos, n1, n2, n3, m1, m2) == Ok(Parsed(x, pos + n1))
  {
  }

  /** A marker read, then a second read that is not its marker. */
  lemma SecondFromReads(bits: seq<bool>, pos: nat, n1: nat, n2: nat, n3: nat, m1: nat, m2: nat, x: nat)
    requires ReadAt(bits, pos, n1) == Ok(Parsed(m1, pos + n1))
    requires ReadAt(bits, pos + n1, n2) == Ok(Parsed(x, pos + n1 + n2)) && x != m2
    ensures EscapedStages(bits, pos, n1, n2, n3, m1, m2) == Ok(Parsed(m1 + x, pos + n1 + n2))
  {
  }

  /** Two marker reads, then a third read of any value. */
  lemma ThirdFromReads(bits: seq<bool>, pos: nat, n1: nat, n2: nat, n3: nat, m1: nat, m2: nat, x: nat)
    requires ReadAt(bits, pos, n1) == Ok(Parsed(m1, pos + n1))
    requires ReadAt(bits, pos + n1, n2) == Ok(Parsed(m2, pos + n1 + n2))
    requires ReadAt(bits, pos + n1 + n2, n3) == Ok(Parsed(x, pos + n1 + n2 + n3))
    ensures EscapedStages(bits, pos, n1, n2, n3, m1, m2) == Ok(Parsed(m1 + m2 + x, pos + n1 + n2 + n3))
  {
  }

  /** A first field that is not all set is the value; `n1` bits are read. */
  lemma EscapedFirstStage(bits: seq<bool>, pos: nat, n1: nat, n2: nat, n3: nat)
    requires EscapeWidthsOk(n1, n2, n3)
    requires pos + n1 <= |bits| && !AllSet(bits, pos, n1)
    ensures EscapedValue(bits, pos, n1, n2, n3) == Ok(Parsed(FieldValue(bits, pos, n1), pos + n1))
  {
    AllSetIffMax(bits, pos, n1);
    FirstFromReads(bits, pos, n1, n2, n3, Pow2(n1) - 1, Pow2(n2) - 1, FieldValue(bits, pos, n1));
  }

  /** An all-set first field followed by a second field that is not all set
      gives 2^n1 - 1 plus the second field; `n1 + n2` bits are read. */
  lemma EscapedSecondStage(bits: seq<bool>, pos: nat, n1: nat, n2: nat, n3: nat)
    requires EscapeWidthsOk(n1, n2, n3)
    requires pos + n1 + n2 <= |bits|
    requires AllSet(bits, pos, n1) && !AllSet(bits, pos + n1, n2)
    ensures EscapedValue(bits, pos, n1, n2, n3)
         == Ok(Parsed(Pow2(n1) - 1 + FieldValue(bits, pos + n1, n2), pos + n1 + n2))
  {
    AllSetIffMax(bits, pos, n1);
    AllSetIffMax(bits, pos + n1, n2);
    SecondFromReads(bits, pos, n1, n2, n3, Pow2(n1) - 1, Pow2(n2) - 1, FieldValue(bits, pos + n1, n2));
  }

  /** Two all-set fields give (2^n1 - 1) + (2^n2 - 1) plus the third field,
      whatever the third field holds: there is no fourth stage. */
  lemma EscapedThirdStage(bits: seq<bool>, pos: nat, n1: nat, n2: nat, n3: nat)
    requires EscapeWidthsOk(n1, n2, n3)
    requires pos + n1 + n2 + n3 <= |bits|
    requires AllSet(bits, pos, n1) && AllSet(bits, pos + n1, n2)
    ensures EscapedValue(bits, pos, n1, n2, n3)
         == Ok(Parsed(Pow2(n1) - 1 + Pow2(n2) - 1 + FieldValue(bits, pos + n1 + n2, n3), pos + n1 + n2 + n3))
  {
    AllSetIffMax(bits, pos, n1);
    AllSetIffMax(bits, pos + n1, n2);
    ThirdFromReads(bits, pos, n1, n2, n3, Pow2(n1) - 1, Pow2(n2) - 1, FieldValue(bits, pos + n1 + n2, n3));
  }

  /** With stage widths of at most 16 bits (every call site of the parser)
      the 32-bit variant never reports ValueOutOfRange. */
  lemma EscapedValue32Fits(bits: seq<bool>, pos: nat, n1: nat, n2: nat, n3: nat)
    requires n1 <= 16 && n2 <= 16 && n3 <= 16
    ensures EscapedValue32(bits, pos, n1, n2, n3) == EscapedValue(bits, pos, n1, n2, n3)
  {
    Pow2Monotone(n1, 16);
    Pow2Monotone(n2, 16);
    Pow2Monotone(n3, 16);
    Pow2Values();
  }

  /** A written bit is read back. */
  lemma ReadBoolWritten(bits: seq<bool>, pos: nat, b: bool)
    requires At(bits, pos, [b])
    ensures ReadBoolAt(bits, pos) == Ok(Parsed(b, pos + 1))
  {
    AtIndex(bits, pos, [b], 0);
  }

  /** Decoding the writer's encoding of `v` gives back `v` and consumes
      exactly its width. */
  lemma EscapedRoundTrip(bits: seq<bool>, pos: nat, v: nat, n1: nat, n2: nat, n3: nat)
    requires EscapeWidthsOk(n1, n2, n3) && 0 < n1 && 0 < n2 && 0 < n3 && v <= EscapedMax(n1, n2, n3)
    requires At(bits, pos, EncodeEscaped(v, n1, n2, n3))
    ensures EscapedValue(bits, pos, n1, n2, n3) == Ok(Parsed(v, pos + EscapedWidth(v, n1, n2, n3)))
  {
    var m1, m2 := Pow2(n1) - 1, Pow2(n2) - 1;
    if v < m1 {
      AtEncode(bits, pos, v, n1);
      FirstFromReads(bits, pos, n1, n2, n3, m1, m2, v);
    } else if v - m1 < m2 {
      SecondStageWritten(bits, pos, n1, n2, n3, m1, m2, v - m1);
    } else {
      ThirdStageWritten(bits, pos, n1, n2, n3, m1, m2, v - m1 - m2);
    }
  }

  /** Two encoded fields side by side are read back one after the other. */
  lemma TwoFieldsWritten(bits: seq<bool>, pos: nat, n1: nat, n2: nat, v1: nat, v2: nat)
    requires n1 > 0 && n2 > 0 && v1 < Pow2(n1) && v2 < Pow2(n2)
    requires At(bits, pos, Encode(v1, n1) + Encode(v2, n2))
    ensures ReadAt(bits, pos, n1) == Ok(Parsed(v1, pos + n1))
    ensures ReadAt(bits, pos + n1, n2) == Ok(Parsed(v2, pos + n1 + n2))
  {
    AtSplit(bits, pos, Encode(v1, n1), Encode(v2, n2), pos + n1);
    AtEncode(bits, pos, v1, n1);
    AtEncode(bits, pos + n1, v2, n2);
  }

  /** A first-stage marker followed by a second stage that is not its marker. */
  lemma SecondStageWritten(bits: seq<bool>, pos: nat, n1: nat, n2: nat, n3: nat, m1: nat, m2: nat, x: nat)
    requires n1 > 0 && n2 > 0 && m1 < Pow2(n1) && x < Pow2(n2) && x != m2
    requires At(bits, pos, Encode(m1, n1) + Encode(x, n2))
    ensures EscapedStages(bits, pos, n1, n2, n3, m1, m2) == Ok(Parsed(m1 + x, pos + n1 + n2))
  {
    TwoFieldsWritten(bits, pos, n1, n2, m1, x);
    SecondFromReads(bits, pos, n1, n2, n3, m1, m2, x);
  }

  /** Both markers followed by a third stage. */
  lemma ThirdStageWritten(bits: seq<bool>, pos: nat, n1: nat, n2: nat, n3: nat, m1: nat, m2: nat, x: nat)
    requires n1 > 0 && n2 > 0 && n3 > 0 && m1 < Pow2(n1) && m2 < Pow2(n2) && x < Pow2(n3)
    requires At(bits, pos, Encode(m1, n1) + Encode(m2, n2) + Encode(x, n3))
    ensures EscapedStages(bits, pos, n1, n2, n3, m1, m2) == Ok(Parsed(m1 + m2 + x, pos + n1 + n2 + n3))
  {
    AtSplit(bits, pos, Encode(m1, n1) + Encode(m2, n2), Encode(x, n3), pos + n1 + n2);
    AtEncode(bits, pos + n1 + n2, x, n3);
    TwoFieldsWritten(bits, pos, n1, n2, m1, m2);
    ThirdFromReads(bits, pos, n1, n2, n3, m1, m2, x);
  }

  /** The same, for an encoding placed anywhere in a stream. */
  lemma EscapedRoundTripIn(v: nat, n1: nat, n2: nat, n3: nat, before: seq<bool>, after: seq<bool>)
    requires EscapeWidthsOk(n1, n2, n3) && 0 < n1 && 0 < n2 && 0 < n3 && v <= EscapedMax(n1, n2, n3)
    ensures EscapedValue(before + EncodeEscaped(v, n1, n2, n3) + after, |before|, n1, n2, n3)
         == Ok(Parsed(v, |before| + EscapedWidth(v, n1, n2, n3)))
  {
    AtConcat(before, EncodeEscaped(v, n1, n2, n3), after);
    EscapedRoundTrip(before + EncodeEscaped(v, n1, n2, n3) + after, |before|, v, n1, n2, n3);
  }

  /** One field read, then the rest of the loop. */
  lemma FieldsStep(bits: seq<bool>, pos: nat, count: nat, width: nat, acc: seq<nat>, v: nat)
    requires count > 0 && ReadAt(bits, pos, width) == Ok(Parsed(v, pos + width))
    ensures ReadFieldsFrom(bits, pos, count, width, acc) == ReadFieldsFrom(bits, pos + width, count - 1, width, acc + [v])
  {
  }

  /** Reading back a written list of fields gives the list. */
  lemma {:induction false} FieldsRoundTrip(bits: seq<bool>, pos: nat, values: seq<nat>, width: nat, acc: seq<nat>)
    requires FitWidth(values, width) && At(bits, pos, EncodeFields(values, width))
    ensures ReadFieldsFrom(bits, pos, |values|, width, acc) == Ok(Parsed(acc + values, pos + |values| * width))
    decreases |values|
  {
    if |values| == 0 {
      assert acc + values == acc;
    } else {
      var rest := values[1..];
      var mid := pos + width;
      AtSplit(bits, pos, Encode(values[0], width), EncodeFields(rest, width), mid);
      AtEncode(bits, pos, values[0], width);
      FieldsStep(bits, pos, |values|, width, acc, values[0]);
      assert FitWidth(rest, width) by {
        forall k | 0 <= k < |rest| ensures rest[k] < Pow2(width) {
          assert rest[k] == values[k + 1];
        }
      }
      FieldsRoundTrip(bits, mid, rest, width, acc + [values[0]]);
      assert acc + [values[0]] + rest == acc + values;
      FieldsWidthStep(|values|, width);
    }
  }

  /** One more field of the same width. */
  lemma FieldsWidthStep(count: nat, width: nat)
    requires count > 0
    ensures width + (count - 1) * width == count * width
  {
  }


  // ---------------------------------------------------------------------
  // The reader helpers as the source runs them

  method SkipBits(r: BitParser, numBits: nat) returns (res: Result<()>)
    requires r.Valid()
    modifies r
    ensures r.Valid()
    ensures Matches(res, SkipBitsAt(r.bits, old(r.pos), numBits), r.pos)
  {
    if numBits == 0 {
      return Ok(());
    }
    var pos := r.Tell();
    pos := pos + numBits;
    res := r.Seek(pos);
  }

  method ReadBool(r: BitParser) returns (res: Result<bool>)
    requires r.Valid()
    modifies r
    ensures r.Valid()
    ensures Matches(res, ReadBoolAt(r.bits, old(r.pos)), r.pos)
  {
    var v :- r.Read(1);
    res := Ok(v == 1);
  }

  method EscapedValueTo32Bit(r: BitParser, n1: nat, n2: nat, n3: nat) returns (res: Result<nat>)
    requires r.Valid() && EscapeWidthsOk(n1, n2, n3)
    modifies r
    ensures r.Valid()
    ensures Matches(res, EscapedValue32(r.bits, old(r.pos), n1, n2, n3), r.pos)
  {
    var v :- EscapedValueTo64Bit(r, n1, n2, n3);
    if v > UINT32_MAX {
      return Fail(ValueOutOfRange);
    }
    res := Ok(v);
  }

  method EscapedValueTo64Bit(r: BitParser, n1: nat, n2: nat, n3: nat) returns (res: Result<nat>)
    requires r.Valid() && EscapeWidthsOk(n1, n2, n3)
    modifies r
    ensures r.Valid()
    ensures Matches(res, EscapedValue(r.bits, old(r.pos), n1, n2, n3), r.pos)
  {
    var value :- r.Read(n1);
    if value == Pow2(n1) - 1 {
      var valueAdd :- r.Read(n2);
      value := value + valueAdd;
      if valueAdd == Pow2(n2) - 1 {
        valueAdd :- r.Read(n3);
        value := value + valueAdd;
      }
    }
    res := Ok(value);
  }
}
