/** mpegh3daConfigExtension(): the configuration extensions and the one kind
    the parser looks into, the compatible profile level set. */
module ExtensionSyntax {
  import opened Results
  import opened Bits
  import opened ParserUtils
  import opened MpeghTypes

  // ---------------------------------------------------------------------
  // Specification

  /** mpegh3daCompatibleProfileLevelSet(configExtLength): the 4-bit number of
      sets minus one, four reserved bits, then one 8-bit indication per set.
      The configuration extension length is stored, not used. */
  function CompatibleSetAt(bits: seq<bool>, pos: nat, configExtLength: nat): (r: Result<Parsed<SingleConfigExtension>>)
    ensures r.Fail? ==> r.error == ReaderExhausted
  {
    var numCompatibleSets :- ReadAt(bits, pos, 4);
    var reserved :- ReadAt(bits, numCompatibleSets.next, 4);
    var indications :- ReadFields(bits, reserved.next, numCompatibleSets.item + 1, 8);
    Ok(Parsed(CompatibleProfileLevelSet(configExtLength, indications.item), indications.next))
  }

  /** The payload of a fill extension: `length` bytes read one by one and
      dropped. */
  function FillBytesAt(bits: seq<bool>, pos: nat, length: nat): (r: Result<Parsed<()>>)
    ensures r.Fail? ==> r.error == ReaderExhausted
  {
    var bytes :- ReadFields(bits, pos, length, 8);
    Ok(Parsed((), bytes.next))
  }

  /** One configuration extension: the escaped type and length; a fill
      extension has its bytes read, a compatible profile level set is parsed,
      any other type has its `length` bytes skipped. */
  function SingleExtensionAt(bits: seq<bool>, pos: nat): (r: Result<Parsed<SingleConfigExtension>>)
  {
    var extType :- EscapedValue32(bits, pos, 4, 8, 16);
    var extLength :- EscapedValue32(bits, extType.next, 4, 8, 16);
    if extType.item == ID_CONFIG_EXT_FILL then
      var fill :- FillBytesAt(bits, extLength.next, extLength.item);
      Ok(Parsed(PlainExtension(extType.item, extLength.item), fill.next))
    else if extType.item == ID_CONFIG_EXT_COMPATIBLE_PROFILELVL_SET then
      CompatibleSetAt(bits, extLength.next, extLength.item)
    else
      var skipped :- SkipBitsAt(bits, extLength.next, extLength.item * 8);
      Ok(Parsed(PlainExtension(extType.item, extLength.item), skipped.next))
  }

  /** The extension loop: `remaining` more extensions appended to `acc`. */
  function ExtensionsLoop(bits: seq<bool>, pos: nat, remaining: nat, acc: seq<SingleConfigExtension>)
    : (r: Result<Parsed<seq<SingleConfigExtension>>>)
    decreases remaining
  {
    if remaining == 0 then Ok(Parsed(acc, pos))
    else
      match SingleExtensionAt(bits, pos)
      case Fail(e) => Fail(e)
      case Ok(x) => ExtensionsLoop(bits, x.next, remaining - 1, acc + [x.item])
  }

  /** mpegh3daConfigExtension(): the escaped number of extensions minus one,
      then the extensions. */
  function ConfigExtensionAt(bits: seq<bool>, pos: nat): (r: Result<Parsed<ConfigExtension>>)
  {
    var numConfigExtensions :- EscapedValue32(bits, pos, 2, 4, 8);
    var extensions :- ExtensionsLoop(bits, numConfigExtensions.next, numConfigExtensions.item + 1, []);
    Ok(Parsed(ConfigExtension(extensions.item), extensions.next))
  }

  // ---------------------------------------------------------------------
  // What a parsed extension looks like

  /** The extensions the parser yields: type and length fit the escaped
      fields, a plain extension is never of the compatible set type, and a
      compatible set has between 1 and 16 byte-sized indications. */
  predicate ExtensionWf(x: SingleConfigExtension)
  {
    match x
    case PlainExtension(extType, length) =>
      extType != ID_CONFIG_EXT_COMPATIBLE_PROFILELVL_SET && extType <= EscapedMax(4, 8, 16) && length <= EscapedMax(4, 8, 16)
    case CompatibleProfileLevelSet(length, indications) =>
      length <= EscapedMax(4, 8, 16) && 1 <= |indications| <= 16 && FitWidth(indications, 8)
  }

  /** Every extension is one the parser yields. */
  predicate ExtensionsWf(xs: seq<SingleConfigExtension>)
  {
    forall k | 0 <= k < |xs| :: ExtensionWf(xs[k])
  }

  /** The number of bits the payload of an extension takes: its declared
      length in bytes, except for a compatible set, whose payload is its own
      byte of count and reserved bits and one byte per indication whatever
      the declared length. */
  function PayloadWidth(x: SingleConfigExtension): nat
  {
    match x
    case PlainExtension(_, length) => length * 8
    case CompatibleProfileLevelSet(_, indications) => 8 + |indications| * 8
  }

  /** The bits of a compatible profile level set, reserved bits 0 (the
      writer's side). */
  function EncodeCompatibleSet(indications: seq<nat>): (s: seq<bool>)
    requires |indications| >= 1
  {
    Encode(|indications| - 1, 4) + Encode(0, 4) + EncodeFields(indications, 8)
  }

  // ---------------------------------------------------------------------
  // Properties

  /** A parsed compatible set has as many byte-sized indications as its
      4-bit count field plus one (so between 1 and 16), and takes exactly
      its width. */
  lemma CompatibleSetSound(bits: seq<bool>, pos: nat, length: nat, res: Parsed<SingleConfigExtension>)
    requires CompatibleSetAt(bits, pos, length) == Ok(res)
    ensures res.item.CompatibleProfileLevelSet? && res.item.usacConfigExtLength == length
    ensures pos + 4 <= |bits| && |res.item.compatibleSetIndications| == FieldValue(bits, pos, 4) + 1
    ensures 1 <= |res.item.compatibleSetIndications| <= 16 && FitWidth(res.item.compatibleSetIndications, 8)
    ensures res.next == pos + PayloadWidth(res.item)
  {
    Pow2Values();
  }

  /** A compatible set is read back from its bits. */
  lemma CompatibleSetRoundTrip(bits: seq<bool>, pos: nat, length: nat, indications: seq<nat>)
    requires 1 <= |indications| <= 16 && FitWidth(indications, 8)
    requires At(bits, pos, EncodeCompatibleSet(indications))
    ensures CompatibleSetAt(bits, pos, length)
         == Ok(Parsed(CompatibleProfileLevelSet(length, indications), pos + 8 + |indications| * 8))
  {
    AtSplit3(bits, pos, Encode(|indications| - 1, 4), Encode(0, 4), EncodeFields(indications, 8), pos + 4, pos + 8);
    CompatibleSetFromFields(bits, pos, length, indications, pos + 8, pos + 8 + |indications| * 8);
  }

  /** The three fields of a compatible set, each where it stands. */
  lemma CompatibleSetFromFields(bits: seq<bool>, pos: nat, length: nat, indications: seq<nat>, mid: nat, next: nat)
    requires 1 <= |indications| <= 16 && FitWidth(indications, 8) && mid == pos + 8 && next == mid + |indications| * 8
    requires At(bits, pos, Encode(|indications| - 1, 4)) && At(bits, pos + 4, Encode(0, 4))
    requires At(bits, mid, EncodeFields(indications, 8))
    ensures CompatibleSetAt(bits, pos, length) == Ok(Parsed(CompatibleProfileLevelSet(length, indications), next))
  {
    assert |indications| - 1 < Pow2(4) && 0 < Pow2(4) by { Pow2Values(); }
    AtEncode(bits, pos, |indications| - 1, 4);
    AtEncode(bits, pos + 4, 0, 4);
    FieldsRoundTrip(bits, mid, indications, 8, []);
    assert [] + indications == indications;
    CompatibleSetFromReads(bits, pos, length, |indications| - 1, mid, indications, next);
  }

  /** A compatible set is its count, its reserved bits and its
      indications. */
  lemma CompatibleSetFromReads(bits: seq<bool>, pos: nat, length: nat, count: nat, mid: nat, indications: seq<nat>, next: nat)
    requires ReadAt(bits, pos, 4) == Ok(Parsed(count, pos + 4)) && mid == pos + 8 && mid <= |bits|
    requires ReadFields(bits, mid, count + 1, 8) == Ok(Parsed(indications, next))
    ensures CompatibleSetAt(bits, pos, length) == Ok(Parsed(CompatibleProfileLevelSet(length, indications), next))
  {
  }

  /** A parsed extension is well formed, and it takes exactly the two
      escaped fields and its payload width. */
  lemma SingleExtensionSound(bits: seq<bool>, pos: nat, res: Parsed<SingleConfigExtension>)
    requires SingleExtensionAt(bits, pos) == Ok(res)
    ensures ExtensionWf(res.item)
    ensures res.next == pos + EscapedWidth(res.item.UsacConfigExtType(), 4, 8, 16)
                            + EscapedWidth(res.item.usacConfigExtLength, 4, 8, 16) + PayloadWidth(res.item)
  {
    EscapedValue32Fits(bits, pos, 4, 8, 16);
    var extType := EscapedValue32(bits, pos, 4, 8, 16).value;
    EscapedValue32Fits(bits, extType.next, 4, 8, 16);
    var extLength := EscapedValue32(bits, extType.next, 4, 8, 16).value;
    if extType.item == ID_CONFIG_EXT_COMPATIBLE_PROFILELVL_SET {
      CompatibleSetSound(bits, extLength.next, extLength.item, res);
    }
  }

  /** An extension fails only for want of bits: its escaped fields always
      fit into 32 bits. */
  lemma SingleExtensionFailure(bits: seq<bool>, pos: nat)
    requires SingleExtensionAt(bits, pos).Fail?
    ensures SingleExtensionAt(bits, pos).error == ReaderExhausted
  {
    EscapedValue32Fits(bits, pos, 4, 8, 16);
    var extType := EscapedValue32(bits, pos, 4, 8, 16);
    if extType.Ok? {
      EscapedValue32Fits(bits, extType.value.next, 4, 8, 16);
    }
  }

  /** The extension loop fails only for want of bits. */
  lemma {:induction false} ExtensionsLoopFailure(bits: seq<bool>, pos: nat, remaining: nat, acc: seq<SingleConfigExtension>,
                                                 e: Error)
    requires ExtensionsLoop(bits, pos, remaining, acc) == Fail(e)
    ensures e == ReaderExhausted
    decreases remaining
  {
    var x := SingleExtensionAt(bits, pos);
    if x.Fail? {
      SingleExtensionFailure(bits, pos);
      ExtensionsLoopFail(bits, pos, remaining, acc, x.error);
    } else {
      var step := x.value;
      var next := acc + [step.item];
      ExtensionsLoopStep(bits, pos, remaining, acc, step, next);
      ExtensionsLoopFailure(bits, step.next, remaining - 1, next, e);
    }
  }

  /** mpegh3daConfigExtension() fails only for want of bits. */
  lemma ConfigExtensionFailure(bits: seq<bool>, pos: nat)
    requires ConfigExtensionAt(bits, pos).Fail?
    ensures ConfigExtensionAt(bits, pos).error == ReaderExhausted
  {
    EscapedValue32Fits(bits, pos, 2, 4, 8);
    var n := EscapedValue32(bits, pos, 2, 4, 8);
    if n.Ok? {
      ExtensionsLoopFailure(bits, n.value.next, n.value.item + 1, [], ConfigExtensionAt(bits, pos).error);
    }
  }

  /** The extension loop keeps every extension well formed and adds exactly
      `remaining` of them after the ones in `acc`. */
  lemma {:induction false} ExtensionsLoopSound(bits: seq<bool>, pos: nat, remaining: nat, acc: seq<SingleConfigExtension>,
                                               res: Parsed<seq<SingleConfigExtension>>)
    requires ExtensionsWf(acc)
    requires ExtensionsLoop(bits, pos, remaining, acc) == Ok(res)
    ensures ExtensionsWf(res.item)
    ensures |res.item| == |acc| + remaining
    ensures res.item[..|acc|] == acc
    decreases remaining
  {
    if remaining > 0 {
      var step := SingleExtensionAt(bits, pos).value;
      SingleExtensionSound(bits, pos, step);
      var next := acc + [step.item];
      assert next[|acc|] == step.item;
      ExtensionsLoopStep(bits, pos, remaining, acc, step, next);
      ExtensionsLoopSound(bits, step.next, remaining - 1, next, res);
      assert res.item[..|acc|] == res.item[..|next|][..|acc|];
      assert next[..|acc|] == acc;
    }
  }

  /** One pass of the extension loop: an extension read, the loop goes on
      after it. */
  lemma ExtensionsLoopStep(bits: seq<bool>, pos: nat, remaining: nat, acc: seq<SingleConfigExtension>,
                           step: Parsed<SingleConfigExtension>, next: seq<SingleConfigExtension>)
    requires remaining > 0 && SingleExtensionAt(bits, pos) == Ok(step) && next == acc + [step.item]
    ensures ExtensionsLoop(bits, pos, remaining, acc) == ExtensionsLoop(bits, step.next, remaining - 1, next)
  {
  }

  /** An extension that cannot be read ends the extension loop with its
      failure. */
  lemma ExtensionsLoopFail(bits: seq<bool>, pos: nat, remaining: nat, acc: seq<SingleConfigExtension>, e: Error)
    requires remaining > 0 && SingleExtensionAt(bits, pos) == Fail(e)
    ensures ExtensionsLoop(bits, pos, remaining, acc) == Fail(e)
  {
  }

  /** mpegh3daConfigExtension() yields as many extensions as its escaped
      count plus one (so between 1 and 274), each well formed. */
  lemma ConfigExtensionSound(bits: seq<bool>, pos: nat, res: Parsed<ConfigExtension>)
    requires ConfigExtensionAt(bits, pos) == Ok(res)
    ensures ExtensionsWf(res.item.singleConfigExtensions)
    ensures EscapedValue32(bits, pos, 2, 4, 8).Ok?
    ensures |res.item.singleConfigExtensions| == EscapedValue32(bits, pos, 2, 4, 8).value.item + 1
    ensures 1 <= |res.item.singleConfigExtensions| <= 274
  {
    Pow2Values();
    EscapedValue32Fits(bits, pos, 2, 4, 8);
    var n := EscapedValue32(bits, pos, 2, 4, 8).value;
    var xs := ExtensionsLoop(bits, n.next, n.item + 1, []).value;
    ExtensionsLoopSound(bits, n.next, n.item + 1, [], xs);
  }
}
