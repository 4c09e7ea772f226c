/** mpegh3daDecoderConfig() and the element configurations it reads: the core
    coder configuration, the single channel, channel pair, LFE and extension
    element configurations. The SBR and MPS 2-1-2 configurations are not
    implemented by the parser: it raises an error wherever the stream calls
    for one, and so does the model. */
module DecoderSyntax {
  import opened Results
  import opened Bits
  import opened ParserUtils
  import opened MpeghTypes

  // ---------------------------------------------------------------------
  // Specification

  /** mpegh3daCoreConfig(): four flags; with enhanced noise filling, four IGF
      flags, the 5-bit IGF start index and the 4-bit IGF stop index follow,
      and without it they are all false or 0. */
  function CoreConfigAt(bits: seq<bool>, pos: nat): (r: Result<Parsed<CoreConfig>>)
    ensures r.Fail? ==> r.error == ReaderExhausted
  {
    var twMdct :- ReadBoolAt(bits, pos);
    var fullbandLpd :- ReadBoolAt(bits, twMdct.next);
    var noiseFilling :- ReadBoolAt(bits, fullbandLpd.next);
    var enf :- ReadBoolAt(bits, noiseFilling.next);
    if enf.item then
      var igfUseEnf :- ReadBoolAt(bits, enf.next);
      var igfUseHighRes :- ReadBoolAt(bits, igfUseEnf.next);
      var igfUseWhitening :- ReadBoolAt(bits, igfUseHighRes.next);
      var igfAfterTnsSynth :- ReadBoolAt(bits, igfUseWhitening.next);
      var igfStartIndex :- ReadAt(bits, igfAfterTnsSynth.next, 5);
      var igfStopIndex :- ReadAt(bits, igfStartIndex.next, 4);
      Ok(Parsed(CoreConfig(twMdct.item, fullbandLpd.item, noiseFilling.item, true, igfUseEnf.item, igfUseHighRes.item,
                           igfUseWhitening.item, igfAfterTnsSynth.item, igfStartIndex.item, igfStopIndex.item),
                igfStopIndex.next))
    else
      Ok(Parsed(CoreConfig(twMdct.item, fullbandLpd.item, noiseFilling.item, false, false, false, false, false, 0, 0),
                enf.next))
  }

  /** mpegh3daSingleChannelElementConfig(sbrRatioIndex): the core
      configuration; a nonzero SBR ratio calls for an SBR configuration,
      which the parser does not implement. */
  function SingleChannelAt(bits: seq<bool>, pos: nat, sbrRatioIndex: nat): (r: Result<Parsed<ElementConfig>>)
  {
    var core :- CoreConfigAt(bits, pos);
    if sbrRatioIndex > 0 then Fail(NotImplemented)
    else Ok(Parsed(SingleChannelElement(core.item), core.next))
  }

  /** The number of bits of `n`: floor(log2(n)) + 1, the width of a shift
      channel field. */
  function BitLength(n: nat): (r: nat)
    requires n >= 1
    ensures r >= 1 && Pow2(r - 1) <= n < Pow2(r)
  {
    if n == 1 then 1 else 1 + BitLength(n / 2)
  }

  /** A shift index flag and, when it is set, the `nBits`-bit shift channel;
      0 otherwise. */
  function ShiftAt(bits: seq<bool>, pos: nat, nBits: nat): (r: Result<Parsed<(bool, nat)>>)
  {
    var shiftIndex :- ReadBoolAt(bits, pos);
    if shiftIndex.item then
      var shiftChannel :- ReadAt(bits, shiftIndex.next, nBits);
      Ok(Parsed((true, shiftChannel.item), shiftChannel.next))
    else Ok(Parsed((false, 0), shiftIndex.next))
  }

  /** mpegh3daChannelPairElementConfig(sbrRatioIndex, numChannels): fewer
      than two channels are refused before anything is read; then the core
      configuration, the IGF independent tiling flag when enhanced noise
      filling is on, and the error of the missing SBR configuration for a
      nonzero SBR ratio. Without SBR the stereo configuration index is 0, so
      no MPS 2-1-2 configuration follows; then the 2-bit QCE index, the first
      shift (only for a nonzero QCE index), the second shift, and the LPD
      stereo flag (only for a zero QCE index), with shift channels of
      floor(log2(numChannels - 1)) + 1 bits. */
  function ChannelPairAt(bits: seq<bool>, pos: nat, sbrRatioIndex: nat, numChannels: nat)
    : (r: Result<Parsed<ElementConfig>>)
  {
    if numChannels <= 1 then Fail(InvalidChannelCount)
    else
      var core :- CoreConfigAt(bits, pos);
      var igfIndependentTiling :-
        if core.item.enhancedNoiseFilling then ReadBoolAt(bits, core.next) else Ok(Parsed(false, core.next));
      if sbrRatioIndex > 0 then Fail(NotImplemented)
      else
        var nBits := BitLength(numChannels - 1);
        var qceIndex :- ReadAt(bits, igfIndependentTiling.next, 2);
        var shift0 :- if qceIndex.item > 0 then ShiftAt(bits, qceIndex.next, nBits) else Ok(Parsed((false, 0), qceIndex.next));
        var shift1 :- ShiftAt(bits, shift0.next, nBits);
        var lpdStereoIndex :- if qceIndex.item == 0 then ReadBoolAt(bits, shift1.next) else Ok(Parsed(false, shift1.next));
        Ok(Parsed(ChannelPairElement(core.item, igfIndependentTiling.item, 0, qceIndex.item, shift0.item.0,
                                     shift0.item.1, shift1.item.0, shift1.item.1, lpdStereoIndex.item),
                  lpdStereoIndex.next))
  }

  /** usacExtElementDefaultLength: present, the escaped value plus one. */
  function DefaultLengthAt(bits: seq<bool>, pos: nat): (r: Result<Parsed<nat>>)
  {
    var v :- EscapedValue32(bits, pos, 8, 16, 0);
    Ok(Parsed(v.item + 1, v.next))
  }

  /** The fields of mpegh3daExtElementConfig(): the escaped type and
      configuration length, the default length (0 when absent) and the
      payload fragmentation flag. */
  function ExtFieldsAt(bits: seq<bool>, pos: nat): (r: Result<Parsed<ElementConfig>>)
  {
    var extType :- EscapedValue32(bits, pos, 4, 8, 16);
    var configLength :- EscapedValue32(bits, extType.next, 4, 8, 16);
    var defaultLengthPresent :- ReadBoolAt(bits, configLength.next);
    var defaultLength :-
      if defaultLengthPresent.item then DefaultLengthAt(bits, defaultLengthPresent.next)
      else Ok(Parsed(0, defaultLengthPresent.next));
    var payloadFrag :- ReadBoolAt(bits, defaultLength.next);
    Ok(Parsed(ExtElement(extType.item, configLength.item, defaultLengthPresent.item, defaultLength.item, payloadFrag.item),
              payloadFrag.next))
  }

  /** A fill or audio pre-roll extension element has no configuration. */
  predicate WithoutConfig(extType: nat)
  {
    extType == ID_EXT_ELE_FILL || extType == ID_EXT_ELE_AUDIOPREROLL
  }

  /** mpegh3daExtElementConfig(): the fields; a fill or audio pre-roll
      element must have configuration length 0, any other type has its
      configuration skipped, `length` bytes of it. */
  function ExtElementAt(bits: seq<bool>, pos: nat): (r: Result<Parsed<ElementConfig>>)
  {
    var fields :- ExtFieldsAt(bits, pos);
    var e := fields.item;
    if WithoutConfig(e.usacExtElementType) then
      if e.usacExtElementConfigLength != 0 then Fail(MalformedExtension) else Ok(fields)
    else
      var skipped :- SkipBitsAt(bits, fields.next, e.usacExtElementConfigLength * 8);
      Ok(Parsed(e, skipped.next))
  }

  /** mpegh3daLfeElementConfig(): an LFE element reads nothing; its core
      configuration has every flag false and both IGF indices 0. */
  function LfeElementConfig(): (e: ElementConfig)
    ensures e.LfeElement? && CoreWf(e.core)
    ensures !e.core.twMdct && !e.core.fullbandLpd && !e.core.noiseFilling && !e.core.enhancedNoiseFilling
  {
    LfeElement(DefaultCoreConfig)
  }

  /** One element configuration: the 2-bit usacElementType selects it. */
  function ElementAt(bits: seq<bool>, pos: nat, sbrRatioIndex: nat, numChannels: nat): (r: Result<Parsed<ElementConfig>>)
  {
    var elementType :- ReadAt(bits, pos, 2);
    if elementType.item == ID_USAC_SCE then SingleChannelAt(bits, elementType.next, sbrRatioIndex)
    else if elementType.item == ID_USAC_CPE then ChannelPairAt(bits, elementType.next, sbrRatioIndex, numChannels)
    else if elementType.item == ID_USAC_LFE then Ok(Parsed(LfeElementConfig(), elementType.next))
    else ExtElementAt(bits, elementType.next)
  }

  /** The element loop of mpegh3daDecoderConfig(): `remaining` more elements
      appended to `acc`. */
  function ElementsLoop(bits: seq<bool>, pos: nat, remaining: nat, sbrRatioIndex: nat, numChannels: nat,
                        acc: seq<ElementConfig>): (r: Result<Parsed<seq<ElementConfig>>>)
    decreases remaining
  {
    if remaining == 0 then Ok(Parsed(acc, pos))
    else
      match ElementAt(bits, pos, sbrRatioIndex, numChannels)
      case Fail(e) => Fail(e)
      case Ok(el) => ElementsLoop(bits, el.next, remaining - 1, sbrRatioIndex, numChannels, acc + [el.item])
  }

  /** mpegh3daDecoderConfig(sbrRatioIndex, numChannels): the escaped number
      of elements minus one, the element length flag, then the elements. */
  function DecoderConfigAt(bits: seq<bool>, pos: nat, sbrRatioIndex: nat, numChannels: nat)
    : (r: Result<Parsed<DecoderConfig>>)
  {
    var numElements :- EscapedValue32(bits, pos, 4, 8, 16);
    var elementLengthPresent :- ReadBoolAt(bits, numElements.next);
    var elements :- ElementsLoop(bits, elementLengthPresent.next, numElements.item + 1, sbrRatioIndex, numChannels, []);
    Ok(Parsed(DecoderConfig(elementLengthPresent.item, elements.item), elements.next))
  }

  /** An audio pre-roll extension element. */
  predicate IsPreRoll(e: ElementConfig)
  {
    e.ExtElement? && e.usacExtElementType == ID_EXT_ELE_AUDIOPREROLL
  }

  /** Some element is an audio pre-roll extension element: what the parser
      records in audioPreRollPresent. */
  predicate HasPreRoll(elements: seq<ElementConfig>)
  {
    exists k | 0 <= k < |elements| :: IsPreRoll(elements[k])
  }

  // ---------------------------------------------------------------------
  // What a parsed element looks like

  /** A core configuration the parser yields: the IGF fields are set only
      with enhanced noise filling, and each index fits its field. */
  predicate CoreWf(c: CoreConfig)
  {
    && c.igfStartIndex < 32 && c.igfStopIndex < 16
    && (!c.enhancedNoiseFilling ==>
          !c.igfUseEnf && !c.igfUseHighRes && !c.igfUseWhitening && !c.igfAfterTnsSynth
          && c.igfStartIndex == 0 && c.igfStopIndex == 0)
  }

  /** The number of bits a core configuration takes. */
  function CoreWidth(c: CoreConfig): nat
  {
    if c.enhancedNoiseFilling then 17 else 4
  }

  /** The bits of a core configuration (the writer's side). */
  function EncodeCore(c: CoreConfig): (s: seq<bool>)
  {
    [c.twMdct, c.fullbandLpd, c.noiseFilling, c.enhancedNoiseFilling]
    + if c.enhancedNoiseFilling then
        [c.igfUseEnf, c.igfUseHighRes, c.igfUseWhitening, c.igfAfterTnsSynth]
        + Encode(c.igfStartIndex, 5) + Encode(c.igfStopIndex, 4)
      else []
  }

  /** The element configurations the parser yields for the given SBR ratio
      and channel count. A single channel or channel pair element exists
      only without SBR. A channel pair element needs two channels, has its
      IGF tiling flag only with enhanced noise filling, stereo configuration
      index 0, a first shift only with a nonzero QCE index, a shift channel
      only with its shift flag and within floor(log2(numChannels - 1)) + 1
      bits, and an LPD stereo flag only with QCE index 0. An LFE element has
      the default core. An extension element's type and length fit the
      escaped fields, its default length is present exactly when it is
      nonzero, and a fill or pre-roll element has length 0. */
  predicate ElementWf(e: ElementConfig, sbrRatioIndex: nat, numChannels: nat)
  {
    match e
    case SingleChannelElement(core) => CoreWf(core) && sbrRatioIndex == 0
    case ChannelPairElement(core, igf, stereoConfigIdx, qce, shift0, channel0, shift1, channel1, lpd) =>
      && CoreWf(core) && sbrRatioIndex == 0 && numChannels > 1
      && (igf ==> core.enhancedNoiseFilling)
      && stereoConfigIdx == 0 && qce < 4
      && (shift0 ==> qce > 0)
      && (shift0 || channel0 == 0) && (shift1 || channel1 == 0)
      && channel0 < Pow2(BitLength(numChannels - 1)) && channel1 < Pow2(BitLength(numChannels - 1))
      && (lpd ==> qce == 0)
    case LfeElement(core) => core == DefaultCoreConfig
    case ExtElement(extType, configLength, defaultLengthPresent, defaultLength, _) =>
      && extType <= EscapedMax(4, 8, 16) && configLength <= EscapedMax(4, 8, 16)
      && (defaultLengthPresent <==> defaultLength > 0)
      && defaultLength <= EscapedMax(8, 16, 0) + 1
      && (WithoutConfig(extType) ==> configLength == 0)
  }

  /** The number of bits a shift takes. */
  function ShiftWidth(shiftIndex: bool, nBits: nat): nat
  {
    1 + if shiftIndex then nBits else 0
  }

  /** The number of bits the fields of an extension element take. */
  function ExtFieldsWidth(e: ElementConfig): nat
    requires e.ExtElement?
  {
    EscapedWidth(e.usacExtElementType, 4, 8, 16) + EscapedWidth(e.usacExtElementConfigLength, 4, 8, 16) + 1
    + (if e.usacExtElementDefaultLength > 0 then EscapedWidth(e.usacExtElementDefaultLength - 1, 8, 16, 0) else 0)
    + 1
  }

  /** The number of bits an element configuration takes after its type:
      an extension element's configuration included, `length` bytes. */
  function ElementBodyWidth(e: ElementConfig, numChannels: nat): nat
    requires numChannels > 1 || !e.ChannelPairElement?
  {
    match e
    case SingleChannelElement(core) => CoreWidth(core)
    case ChannelPairElement(core, _, _, qce, shift0, _, shift1, _, _) =>
      var nBits := BitLength(numChannels - 1);
      CoreWidth(core) + (if core.enhancedNoiseFilling then 1 else 0) + 2
      + (if qce > 0 then ShiftWidth(shift0, nBits) else 0) + ShiftWidth(shift1, nBits)
      + (if qce == 0 then 1 else 0)
    case LfeElement(_) => 0
    case ExtElement(extType, configLength, _, _, _) =>
      ExtFieldsWidth(e) + if WithoutConfig(extType) then 0 else configLength * 8
  }

  /** Every element is one the parser yields. */
  predicate ElementsWf(elements: seq<ElementConfig>, sbrRatioIndex: nat, numChannels: nat)
  {
    forall k | 0 <= k < |elements| :: ElementWf(elements[k], sbrRatioIndex, numChannels)
  }

  // ---------------------------------------------------------------------
  // Properties

  /** A parsed core configuration is well formed and takes exactly its
      width. */
  lemma CoreSound(bits: seq<bool>, pos: nat, res: Parsed<CoreConfig>)
    requires CoreConfigAt(bits, pos) == Ok(res)
    ensures CoreWf(res.item)
    ensures res.next == pos + CoreWidth(res.item)
  {
    Pow2Values();
  }

  /** The core configuration is read back from its bits. */
  lemma CoreRoundTrip(bits: seq<bool>, pos: nat, c: CoreConfig)
    requires CoreWf(c) && At(bits, pos, EncodeCore(c))
    ensures CoreConfigAt(bits, pos) == Ok(Parsed(c, pos + CoreWidth(c)))
  {
    var w := EncodeCore(c);
    AtIndex(bits, pos, w, 0);
    AtIndex(bits, pos, w, 1);
    AtIndex(bits, pos, w, 2);
    AtIndex(bits, pos, w, 3);
    if c.enhancedNoiseFilling {
      CoreIgfFields(bits, pos, c);
    }
  }

  /** With enhanced noise filling on, the four IGF flags and the two IGF
      indices stand after the four core flags. */
  lemma CoreIgfFields(bits: seq<bool>, pos: nat, c: CoreConfig)
    requires CoreWf(c) && c.enhancedNoiseFilling && At(bits, pos, EncodeCore(c))
    ensures pos + 17 <= |bits|
    ensures bits[pos + 4] == c.igfUseEnf && bits[pos + 5] == c.igfUseHighRes
    ensures bits[pos + 6] == c.igfUseWhitening && bits[pos + 7] == c.igfAfterTnsSynth
    ensures ReadAt(bits, pos + 8, 5) == Ok(Parsed(c.igfStartIndex, pos + 13))
    ensures ReadAt(bits, pos + 13, 4) == Ok(Parsed(c.igfStopIndex, pos + 17))
  {
    var w := EncodeCore(c);
    var flags := [c.twMdct, c.fullbandLpd, c.noiseFilling, c.enhancedNoiseFilling];
    var igf := [c.igfUseEnf, c.igfUseHighRes, c.igfUseWhitening, c.igfAfterTnsSynth];
    Pow2Values();
    assert w == flags + igf + Encode(c.igfStartIndex, 5) + Encode(c.igfStopIndex, 4);
    AtIndex(bits, pos, w, 4);
    AtIndex(bits, pos, w, 5);
    AtIndex(bits, pos, w, 6);
    AtIndex(bits, pos, w, 7);
    AtSplit3(bits, pos, flags + igf, Encode(c.igfStartIndex, 5), Encode(c.igfStopIndex, 4), pos + 8, pos + 13);
    AtEncode(bits, pos + 8, c.igfStartIndex, 5);
    AtEncode(bits, pos + 13, c.igfStopIndex, 4);
  }

  /** A core configuration cannot be read exactly when the four flags are
      not there, or enhanced noise filling is on and the thirteen IGF bits
      are not all there. */
  lemma CoreFailure(bits: seq<bool>, pos: nat)
    ensures CoreConfigAt(bits, pos).Fail? <==> pos + 4 > |bits| || (bits[pos + 3] && pos + 17 > |bits|)
  {
  }

  /** BitLength is floor(log2(n)) + 1: the only width `k` with
      2^(k-1) <= n < 2^k. */
  lemma BitLengthUnique(n: nat, k: nat)
    requires n >= 1 && k >= 1 && Pow2(k - 1) <= n < Pow2(k)
    ensures BitLength(n) == k
  {
    var b := BitLength(n);
    if b < k {
      Pow2Monotone(b, k - 1);
    } else if b > k {
      Pow2Monotone(k, b - 1);
    }
  }

  /** A parsed shift is its flag and a channel that fits, and takes exactly
      its width. */
  lemma ShiftSound(bits: seq<bool>, pos: nat, nBits: nat, res: Parsed<(bool, nat)>)
    requires ShiftAt(bits, pos, nBits) == Ok(res)
    ensures res.item.0 || res.item.1 == 0
    ensures res.item.1 < Pow2(nBits)
    ensures res.next == pos + ShiftWidth(res.item.0, nBits)
  {
  }

  /** A parsed single channel element is well formed and takes exactly its
      width. */
  lemma SingleChannelSound(bits: seq<bool>, pos: nat, sbrRatioIndex: nat, numChannels: nat, res: Parsed<ElementConfig>)
    requires SingleChannelAt(bits, pos, sbrRatioIndex) == Ok(res)
    ensures res.item.SingleChannelElement?
    ensures ElementWf(res.item, sbrRatioIndex, numChannels)
    ensures res.next == pos + ElementBodyWidth(res.item, numChannels)
  {
    CoreSound(bits, pos, CoreConfigAt(bits, pos).value);
  }

  /** A parsed channel pair element is well formed and takes exactly its
      width. */
  lemma ChannelPairSound(bits: seq<bool>, pos: nat, sbrRatioIndex: nat, numChannels: nat, res: Parsed<ElementConfig>)
    requires ChannelPairAt(bits, pos, sbrRatioIndex, numChannels) == Ok(res)
    ensures res.item.ChannelPairElement?
    ensures ElementWf(res.item, sbrRatioIndex, numChannels)
    ensures res.next == pos + ElementBodyWidth(res.item, numChannels)
  {
    var core := CoreConfigAt(bits, pos).value;
    CoreSound(bits, pos, core);
    var igf := if core.item.enhancedNoiseFilling then ReadBoolAt(bits, core.next).value else Parsed(false, core.next);
    var nBits := BitLength(numChannels - 1);
    var qce := ReadAt(bits, igf.next, 2).value;
    Pow2Values();
    var shift0 := if qce.item > 0 then ShiftAt(bits, qce.next, nBits).value else Parsed((false, 0), qce.next);
    if qce.item > 0 {
      ShiftSound(bits, qce.next, nBits, shift0);
    }
    var shift1 := ShiftAt(bits, shift0.next, nBits).value;
    ShiftSound(bits, shift0.next, nBits, shift1);
  }

  /** The parsed fields of an extension element fit their escaped fields,
      its default length is present exactly when it is nonzero, and they
      take exactly their width. */
  lemma ExtFieldsSound(bits: seq<bool>, pos: nat, res: Parsed<ElementConfig>)
    requires ExtFieldsAt(bits, pos) == Ok(res)
    ensures res.item.ExtElement?
    ensures res.item.usacExtElementType <= EscapedMax(4, 8, 16)
    ensures res.item.usacExtElementConfigLength <= EscapedMax(4, 8, 16)
    ensures res.item.usacExtElementDefaultLengthPresent <==> res.item.usacExtElementDefaultLength > 0
    ensures res.item.usacExtElementDefaultLength <= EscapedMax(8, 16, 0) + 1
    ensures res.next == pos + ExtFieldsWidth(res.item)
  {
    EscapedValue32Fits(bits, pos, 4, 8, 16);
    var extType := EscapedValue32(bits, pos, 4, 8, 16).value;
    EscapedValue32Fits(bits, extType.next, 4, 8, 16);
    var configLength := EscapedValue32(bits, extType.next, 4, 8, 16).value;
    if bits[configLength.next] {
      EscapedValue32Fits(bits, configLength.next + 1, 8, 16, 0);
    }
  }

  /** A parsed extension element is well formed and takes exactly its
      width: a fill or pre-roll element its fields, any other its fields
      and `length` bytes of configuration. */
  lemma ExtElementSound(bits: seq<bool>, pos: nat, sbrRatioIndex: nat, numChannels: nat, res: Parsed<ElementConfig>)
    requires ExtElementAt(bits, pos) == Ok(res)
    ensures res.item.ExtElement?
    ensures ElementWf(res.item, sbrRatioIndex, numChannels)
    ensures res.next == pos + ElementBodyWidth(res.item, numChannels)
  {
    var fields := ExtFieldsAt(bits, pos).value;
    ExtFieldsSound(bits, pos, fields);
  }

  /** A parsed element is well formed and takes exactly its width after the
      2-bit type, and the type it was read with is its usacElementType. */
  lemma ElementSound(bits: seq<bool>, pos: nat, sbrRatioIndex: nat, numChannels: nat, res: Parsed<ElementConfig>)
    requires ElementAt(bits, pos, sbrRatioIndex, numChannels) == Ok(res)
    ensures ElementWf(res.item, sbrRatioIndex, numChannels)
    ensures res.next == pos + 2 + ElementBodyWidth(res.item, numChannels)
    ensures res.item.UsacElementType() == FieldValue(bits, pos, 2)
  {
    var t := ReadAt(bits, pos, 2).value;
    var body := t.next;
    if t.item == ID_USAC_SCE {
      SingleChannelSound(bits, body, sbrRatioIndex, numChannels, res);
    } else if t.item == ID_USAC_CPE {
      ChannelPairSound(bits, body, sbrRatioIndex, numChannels, res);
    } else if t.item == ID_USAC_EXT {
      ExtElementSound(bits, body, sbrRatioIndex, numChannels, res);
    }
  }

  /** A single channel element fails with NotImplemented exactly when SBR
      is on and its core configuration could be read. */
  lemma SingleChannelNeedsSbr(bits: seq<bool>, pos: nat, sbrRatioIndex: nat)
    ensures SingleChannelAt(bits, pos, sbrRatioIndex) == Fail(NotImplemented)
        <==> sbrRatioIndex > 0 && CoreConfigAt(bits, pos).Ok?
  {
  }

  /** A channel pair element fails with InvalidChannelCount exactly when
      there are fewer than two channels, whatever the bits. */
  lemma ChannelPairNeedsTwoChannels(bits: seq<bool>, pos: nat, sbrRatioIndex: nat, numChannels: nat)
    ensures ChannelPairAt(bits, pos, sbrRatioIndex, numChannels) == Fail(InvalidChannelCount) <==> numChannels <= 1
  {
  }

  /** An extension element fails with MalformedExtension exactly when its
      fields could be read and it is a fill or pre-roll element with a
      nonzero configuration length. */
  lemma ExtElementMalformed(bits: seq<bool>, pos: nat)
    ensures ExtElementAt(bits, pos) == Fail(MalformedExtension)
        <==> ExtFieldsAt(bits, pos).Ok?
             && WithoutConfig(ExtFieldsAt(bits, pos).value.item.usacExtElementType)
             && ExtFieldsAt(bits, pos).value.item.usacExtElementConfigLength != 0
  {
    var fields := ExtFieldsAt(bits, pos);
    if fields.Fail? {
      ExtFieldsFailure(bits, pos);
    }
  }

  /** The fields of an extension element fail only for want of bits: every
      escaped field of theirs fits into 32 bits. */
  lemma ExtFieldsFailure(bits: seq<bool>, pos: nat)
    requires ExtFieldsAt(bits, pos).Fail?
    ensures ExtFieldsAt(bits, pos).error == ReaderExhausted
  {
    EscapedValue32Fits(bits, pos, 4, 8, 16);
    var extType := EscapedValue32(bits, pos, 4, 8, 16);
    if extType.Ok? {
      EscapedValue32Fits(bits, extType.value.next, 4, 8, 16);
      var configLength := EscapedValue32(bits, extType.value.next, 4, 8, 16);
      if configLength.Ok? && configLength.value.next < |bits| && bits[configLength.value.next] {
        EscapedValue32Fits(bits, configLength.value.next + 1, 8, 16, 0);
      }
    }
  }

  /** The errors mpegh3daDecoderConfig() can end with: the buffer runs out,
      an element calls for the missing SBR configuration, a channel pair
      element comes with fewer than two channels, or a fill or pre-roll
      element has a configuration length. */
  predicate DecoderError(e: Error)
  {
    e == ReaderExhausted || e == NotImplemented || e == InvalidChannelCount || e == MalformedExtension
  }

  /** An element that cannot be read ends with one of those errors. */
  lemma ElementErrors(bits: seq<bool>, pos: nat, sbrRatioIndex: nat, numChannels: nat)
    requires ElementAt(bits, pos, sbrRatioIndex, numChannels).Fail?
    ensures DecoderError(ElementAt(bits, pos, sbrRatioIndex, numChannels).error)
  {
    if pos + 2 <= |bits| && FieldValue(bits, pos, 2) == ID_USAC_EXT && ExtFieldsAt(bits, pos + 2).Fail? {
      ExtFieldsFailure(bits, pos + 2);
    }
  }

  /** The element loop ends with one of those errors when it fails. */
  lemma {:induction false} ElementsLoopErrors(bits: seq<bool>, pos: nat, remaining: nat, sbrRatioIndex: nat,
                                              numChannels: nat, acc: seq<ElementConfig>, e: Error)
    requires ElementsLoop(bits, pos, remaining, sbrRatioIndex, numChannels, acc) == Fail(e)
    ensures DecoderError(e)
    decreases remaining
  {
    var el := ElementAt(bits, pos, sbrRatioIndex, numChannels);
    if el.Fail? {
      ElementErrors(bits, pos, sbrRatioIndex, numChannels);
      ElementsLoopFail(bits, pos, remaining, sbrRatioIndex, numChannels, acc, el.error);
    } else {
      var step := el.value;
      var k, next := remaining - 1, acc + [step.item];
      ElementsLoopStep(bits, pos, remaining, sbrRatioIndex, numChannels, acc, step, k, next);
      ElementsLoopErrors(bits, step.next, k, sbrRatioIndex, numChannels, next, e);
    }
  }

  /** mpegh3daDecoderConfig() ends with one of those errors when it fails. */
  lemma DecoderErrors(bits: seq<bool>, pos: nat, sbrRatioIndex: nat, numChannels: nat, e: Error)
    requires DecoderConfigAt(bits, pos, sbrRatioIndex, numChannels) == Fail(e)
    ensures DecoderError(e)
  {
    EscapedValue32Fits(bits, pos, 4, 8, 16);
    match EscapedValue32(bits, pos, 4, 8, 16)
    case Fail(_) =>
    case Ok(n) =>
      match ReadBoolAt(bits, n.next)
      case Fail(_) =>
      case Ok(elp) =>
        ElementsLoopErrors(bits, elp.next, n.item + 1, sbrRatioIndex, numChannels, [], e);
  }

  /** One more element keeps a pre-roll element or adds it. */
  lemma HasPreRollAppend(elements: seq<ElementConfig>, e: ElementConfig)
    ensures HasPreRoll(elements + [e]) <==> HasPreRoll(elements) || IsPreRoll(e)
  {
    if IsPreRoll(e) {
      assert (elements + [e])[|elements|] == e;
    }
    if HasPreRoll(elements) {
      var k :| 0 <= k < |elements| && IsPreRoll(elements[k]);
      assert (elements + [e])[k] == elements[k];
    }
    if HasPreRoll(elements + [e]) {
      var k :| 0 <= k < |elements + [e]| && IsPreRoll((elements + [e])[k]);
      if k < |elements| {
        assert elements[k] == (elements + [e])[k];
      }
    }
  }

  /** The element loop keeps every element well formed and adds exactly
      `remaining` elements after the ones in `acc`. */
  lemma {:induction false} ElementsLoopSound(bits: seq<bool>, pos: nat, remaining: nat, sbrRatioIndex: nat,
                                             numChannels: nat, acc: seq<ElementConfig>, res: Parsed<seq<ElementConfig>>)
    requires ElementsWf(acc, sbrRatioIndex, numChannels)
    requires ElementsLoop(bits, pos, remaining, sbrRatioIndex, numChannels, acc) == Ok(res)
    ensures ElementsWf(res.item, sbrRatioIndex, numChannels)
    ensures |res.item| == |acc| + remaining
    ensures res.item[..|acc|] == acc
    decreases remaining
  {
    if remaining > 0 {
      var p, k, next := ElementsLoopFirst(bits, pos, remaining, sbrRatioIndex, numChannels, acc, res);
      ElementsLoopSound(bits, p, k, sbrRatioIndex, numChannels, next, res);
      assert res.item[..|acc|] == res.item[..|next|][..|acc|];
    }
  }

  /** The first element of a loop that succeeds: well formed, after which the
      loop goes on from `p` with `k` elements to go and the elements
      `next`. */
  lemma ElementsLoopFirst(bits: seq<bool>, pos: nat, remaining: nat, sbrRatioIndex: nat, numChannels: nat,
                          acc: seq<ElementConfig>, res: Parsed<seq<ElementConfig>>)
    returns (p: nat, k: nat, next: seq<ElementConfig>)
    requires remaining > 0 && ElementsWf(acc, sbrRatioIndex, numChannels)
    requires ElementsLoop(bits, pos, remaining, sbrRatioIndex, numChannels, acc) == Ok(res)
    ensures ElementsWf(next, sbrRatioIndex, numChannels)
    ensures k == remaining - 1 && |next| == |acc| + 1 && next[..|acc|] == acc
    ensures ElementsLoop(bits, p, k, sbrRatioIndex, numChannels, next) == Ok(res)
  {
    var step := ElementAt(bits, pos, sbrRatioIndex, numChannels).value;
    ElementSound(bits, pos, sbrRatioIndex, numChannels, step);
    p, k, next := step.next, remaining - 1, acc + [step.item];
    ElementsLoopStep(bits, pos, remaining, sbrRatioIndex, numChannels, acc, step, k, next);
    assert next[..|acc|] == acc;
    assert next[|acc|] == step.item;
  }

  /** One pass of the element loop: an element read, the loop goes on after
      it. */
  lemma ElementsLoopStep(bits: seq<bool>, pos: nat, remaining: nat, sbrRatioIndex: nat, numChannels: nat,
                         acc: seq<ElementConfig>, step: Parsed<ElementConfig>, k: nat, next: seq<ElementConfig>)
    requires remaining > 0 && ElementAt(bits, pos, sbrRatioIndex, numChannels) == Ok(step)
    requires k == remaining - 1 && next == acc + [step.item]
    ensures ElementsLoop(bits, pos, remaining, sbrRatioIndex, numChannels, acc)
         == ElementsLoop(bits, step.next, k, sbrRatioIndex, numChannels, next)
  {
    match ElementAt(bits, pos, sbrRatioIndex, numChannels)
    case Ok(el) =>
      assert el == step;
  }

  /** An element that cannot be read ends the element loop with its
      failure. */
  lemma ElementsLoopFail(bits: seq<bool>, pos: nat, remaining: nat, sbrRatioIndex: nat, numChannels: nat,
                         acc: seq<ElementConfig>, e: Error)
    requires remaining > 0 && ElementAt(bits, pos, sbrRatioIndex, numChannels) == Fail(e)
    ensures ElementsLoop(bits, pos, remaining, sbrRatioIndex, numChannels, acc) == Fail(e)
  {
  }

  /** mpegh3daDecoderConfig() once its count and flag are read: what the
      element loop after them yields. */
  lemma DecoderFromParts(bits: seq<bool>, pos: nat, sbrRatioIndex: nat, numChannels: nat,
                         count: nat, p1: nat, elementLengthPresent: bool, p2: nat)
    requires EscapedValue32(bits, pos, 4, 8, 16) == Ok(Parsed(count, p1))
    requires ReadBoolAt(bits, p1) == Ok(Parsed(elementLengthPresent, p2))
    ensures ElementsLoop(bits, p2, count + 1, sbrRatioIndex, numChannels, []).Fail? ==>
              DecoderConfigAt(bits, pos, sbrRatioIndex, numChannels)
              == Fail(ElementsLoop(bits, p2, count + 1, sbrRatioIndex, numChannels, []).error)
    ensures ElementsLoop(bits, p2, count + 1, sbrRatioIndex, numChannels, []).Ok? ==>
              DecoderConfigAt(bits, pos, sbrRatioIndex, numChannels)
              == Ok(Parsed(DecoderConfig(elementLengthPresent, ElementsLoop(bits, p2, count + 1, sbrRatioIndex, numChannels, []).value.item),
                           ElementsLoop(bits, p2, count + 1, sbrRatioIndex, numChannels, []).value.next))
  {
  }

  /** mpegh3daDecoderConfig() yields as many elements as its escaped count
      plus one (so between 1 and 65806), each well formed; with SBR on, each
      of them is an LFE or extension element. */
  lemma DecoderSound(bits: seq<bool>, pos: nat, sbrRatioIndex: nat, numChannels: nat, res: Parsed<DecoderConfig>)
    requires DecoderConfigAt(bits, pos, sbrRatioIndex, numChannels) == Ok(res)
    ensures ElementsWf(res.item.elementConfigs, sbrRatioIndex, numChannels)
    ensures EscapedValue32(bits, pos, 4, 8, 16).Ok?
    ensures |res.item.elementConfigs| == EscapedValue32(bits, pos, 4, 8, 16).value.item + 1
    ensures 1 <= |res.item.elementConfigs| <= EscapedMax(4, 8, 16) + 1
    ensures sbrRatioIndex > 0 ==>
              forall k | 0 <= k < |res.item.elementConfigs| ::
                res.item.elementConfigs[k].LfeElement? || res.item.elementConfigs[k].ExtElement?
  {
    var n := EscapedValue32(bits, pos, 4, 8, 16).value;
    var elp := ReadBoolAt(bits, n.next).value;
    var els := ElementsLoop(bits, elp.next, n.item + 1, sbrRatioIndex, numChannels, []).value;
    assert res.item.elementConfigs == els.item;
    ElementsLoopSound(bits, elp.next, n.item + 1, sbrRatioIndex, numChannels, [], els);
    SbrElements(els.item, sbrRatioIndex, numChannels);
  }

  /** With SBR on, the only well-formed elements are LFE and extension
      elements. */
  lemma SbrElements(elements: seq<ElementConfig>, sbrRatioIndex: nat, numChannels: nat)
    requires ElementsWf(elements, sbrRatioIndex, numChannels)
    ensures sbrRatioIndex > 0 ==>
              forall k | 0 <= k < |elements| :: elements[k].LfeElement? || elements[k].ExtElement?
  {
  }
}
