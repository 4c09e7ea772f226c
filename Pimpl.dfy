/** CMpeghParser::CMpeghPimpl: the parse functions as the source runs them,
    each advancing a BitParser and each proved to yield what the syntax
    modules say, and the configuration the object keeps. */
module Pimpl {
  import opened Results
  import opened Bits
  import opened ParserUtils
  import opened MpeghTypes
  import opened MpeghTables
  import opened SpeakerSyntax
  import opened LayoutSyntax
  import opened SignalsSyntax
  import opened DecoderSyntax
  import opened ExtensionSyntax
  import opened ConfigSyntax

  class MpeghPimpl {
    /** m_config: the configuration of the last buffer that parsed. */
    var config: Config

    constructor ()
      ensures config == DefaultConfig
    {
      config := DefaultConfig;
    }

    /** mpegh3daSpeakerDescription(angularPrecision): a CICP loudspeaker
        index looked up in the tables, or an explicit position. */
    method Mpegh3daSpeakerDescription(r: BitParser, angularPrecision: bool) returns (res: Result<SpeakerDescription>)
      requires r.Valid()
      modifies r
      ensures r.Valid()
      ensures Matches(res, SpeakerSyntax.Mpegh3daSpeakerDescription(r.bits, old(r.pos), angularPrecision), r.pos)
    {
      var isCicpSpeakerIdx :- ReadBool(r);
      if isCicpSpeakerIdx {
        var idx :- r.Read(7);
        Pow2Values();
        return Ok(CicpDescription(idx));
      }
      var elevation :- ReadElevation(r, angularPrecision);
      var azimuth :- ReadAzimuth(r, angularPrecision);
      var isLfe :- ReadBool(r);
      res := Ok(ExplicitDescription(elevation, azimuth, isLfe, angularPrecision));
    }

    /** The elevation part of mpegh3daSpeakerDescription(): ElevationClass,
        and for class 3 the angle index and, for a nonzero index, the
        direction. */
    method ReadElevation(r: BitParser, angularPrecision: bool) returns (res: Result<(nat, nat, bool)>)
      requires r.Valid()
      modifies r
      ensures r.Valid()
      ensures Matches(res, ElevationFields(r.bits, old(r.pos), angularPrecision), r.pos)
    {
      var elevationClass :- r.Read(2);
      var elevationAngleIdx, elevationDirection := 0, false;
      if elevationClass == 3 {
        if angularPrecision {
          elevationAngleIdx :- r.Read(7);
        } else {
          elevationAngleIdx :- r.Read(5);
        }
        if elevationAngleIdx != 0 {
          elevationDirection :- ReadBool(r);
        }
      }
      res := Ok((elevationClass, elevationAngleIdx, elevationDirection));
    }

    /** The azimuth part of mpegh3daSpeakerDescription(): the angle index and,
        for an azimuth other than 0 and 180 degrees, the direction. */
    method ReadAzimuth(r: BitParser, angularPrecision: bool) returns (res: Result<(nat, bool)>)
      requires r.Valid()
      modifies r
      ensures r.Valid()
      ensures Matches(res, AzimuthFields(r.bits, old(r.pos), angularPrecision), r.pos)
    {
      var azimuthAngleIdx;
      if angularPrecision {
        azimuthAngleIdx :- r.Read(8);
      } else {
        azimuthAngleIdx :- r.Read(6);
      }
      var azimuthAngle := if angularPrecision then azimuthAngleIdx else azimuthAngleIdx * 5;
      var azimuthDirection := false;
      if azimuthAngle != 0 && azimuthAngle != 180 {
        azimuthDirection :- ReadBool(r);
      }
      res := Ok((azimuthAngleIdx, azimuthDirection));
    }

    /** One pass of the loop of mpegh3daFlexibleSpeakerConfig(): a
        description, appended, and for an azimuth other than 0 and 180
        degrees the alsoAddSymmetricPair flag, appended too; the counter
        moves on by one, or by two when the flag is set. */
    method ReadSpeaker(r: BitParser, numSpeakers: nat, i: nat, angularPrecision: bool,
                       descriptions: seq<SpeakerDescription>, alsoAddSymmetricPair: seq<bool>)
      returns (res: Result<(nat, seq<SpeakerDescription>, seq<bool>)>)
      requires r.Valid() && i < numSpeakers
      modifies r
      ensures r.Valid()
      ensures res.Ok? ==> res.value.0 > i
      ensures res.Ok? ==>
        SpeakerLoop(r.bits, old(r.pos), numSpeakers, i, angularPrecision, descriptions, alsoAddSymmetricPair)
        == SpeakerLoop(r.bits, r.pos, numSpeakers, res.value.0, angularPrecision, res.value.1, res.value.2)
      ensures res.Fail? ==>
        SpeakerLoop(r.bits, old(r.pos), numSpeakers, i, angularPrecision, descriptions, alsoAddSymmetricPair)
        == Fail(res.error)
    {
      ghost var pos := r.pos;
      var newSpeakerDescription :- Mpegh3daSpeakerDescription(r, angularPrecision);
      ghost var description := Parsed(newSpeakerDescription, r.pos);
      if newSpeakerDescription.azimuthAngle != 0 && newSpeakerDescription.azimuthAngle != 180 {
        var tmp :- ReadBool(r);
        SpeakerLoopMirror(r.bits, pos, numSpeakers, i, angularPrecision, descriptions, alsoAddSymmetricPair,
                          description, Parsed(tmp, r.pos));
        res := Ok((if tmp then i + 2 else i + 1, descriptions + [newSpeakerDescription], alsoAddSymmetricPair + [tmp]));
      } else {
        SpeakerLoopPlain(r.bits, pos, numSpeakers, i, angularPrecision, descriptions, alsoAddSymmetricPair,
                         description);
        res := Ok((i + 1, descriptions + [newSpeakerDescription], alsoAddSymmetricPair));
      }
    }

    /** mpegh3daFlexibleSpeakerConfig(numSpeakers): angularPrecision, then one
        description per loudspeaker; a description with an azimuth other than
        0 and 180 degrees is followed by alsoAddSymmetricPair, which when set
        counts its partner as well (the extra `i++`). */
    method Mpegh3daFlexibleSpeakerConfig(r: BitParser, numSpeakers: nat) returns (res: Result<FlexibleSpeakerConfig>)
      requires r.Valid()
      modifies r
      ensures r.Valid()
      ensures Matches(res, LayoutSyntax.Mpegh3daFlexibleSpeakerConfig(r.bits, old(r.pos), numSpeakers), r.pos)
    {
      var angularPrecision :- ReadBool(r);
      var start := r.pos;
      SpeakerLoopFromStart(r.bits, start, numSpeakers, angularPrecision);
      var descriptions: seq<SpeakerDescription> := [];
      var alsoAddSymmetricPair: seq<bool> := [];
      var i := 0;
      while i < numSpeakers
        invariant r.Valid()
        invariant SpeakerLoop(r.bits, start, numSpeakers, 0, angularPrecision, [], [])
               == SpeakerLoop(r.bits, r.pos, numSpeakers, i, angularPrecision, descriptions, alsoAddSymmetricPair)
        decreases numSpeakers - i
      {
        var step :- ReadSpeaker(r, numSpeakers, i, angularPrecision, descriptions, alsoAddSymmetricPair);
        i, descriptions, alsoAddSymmetricPair := step.0, step.1, step.2;
      }
      res := Ok(FlexibleSpeakerConfig(angularPrecision, descriptions, alsoAddSymmetricPair));
    }

    /** speakerConfig3d(): the layout type; for type 0 a CICP layout index,
        which must have a NUM_SPEAKERS entry; otherwise the escaped
        loudspeaker count minus one and what that count calls for. */
    method SpeakerConfig3d(r: BitParser) returns (res: Result<SpeakerConfig>)
      requires r.Valid()
      modifies r
      ensures r.Valid()
      ensures Matches(res, LayoutSyntax.SpeakerConfig3d(r.bits, old(r.pos)), r.pos)
    {
      var speakerLayoutType :- r.Read(2);
      if speakerLayoutType == 0 {
        var cicpSpeakerLayoutIdx :- r.Read(6);
        if cicpSpeakerLayoutIdx !in NumSpeakersMap {
          return Fail(InvalidLayoutIndex);
        }
        return Ok(SpeakerConfig(0, cicpSpeakerLayoutIdx, NumSpeakersMap[cicpSpeakerLayoutIdx], [],
                                DefaultFlexibleSpeakerConfig));
      }
      var count :- EscapedValueTo32Bit(r, 5, 8, 16);
      res := ReadCountedLayout(r, speakerLayoutType, count + 1);
    }

    /** The part of speakerConfig3d() after the loudspeaker count: one 7-bit
        CICP loudspeaker index per loudspeaker (type 1), the flexible layout
        (type 2), or nothing (type 3). */
    method ReadCountedLayout(r: BitParser, speakerLayoutType: nat, numSpeakers: nat) returns (res: Result<SpeakerConfig>)
      requires r.Valid()
      modifies r
      ensures r.Valid()
      ensures Matches(res, CountedLayout(r.bits, old(r.pos), speakerLayoutType, numSpeakers), r.pos)
    {
      var cicpSpeakerIdx: seq<nat> := [];
      var flexibleSpeakerConfig := DefaultFlexibleSpeakerConfig;
      if speakerLayoutType == 1 {
        var i := 0;
        while i < numSpeakers
          invariant r.Valid() && i <= numSpeakers
          invariant ReadFields(r.bits, old(r.pos), numSpeakers, 7)
                 == ReadFieldsFrom(r.bits, r.pos, numSpeakers - i, 7, cicpSpeakerIdx)
        {
          ghost var pos := r.pos;
          var idx :- r.Read(7);
          FieldsStep(r.bits, pos, numSpeakers - i, 7, cicpSpeakerIdx, idx);
          cicpSpeakerIdx := cicpSpeakerIdx + [idx];
          i := i + 1;
        }
      }
      if speakerLayoutType == 2 {
        flexibleSpeakerConfig :- Mpegh3daFlexibleSpeakerConfig(r, numSpeakers);
      }
      res := Ok(SpeakerConfig(speakerLayoutType, 0, numSpeakers, cicpSpeakerIdx, flexibleSpeakerConfig));
    }

    /** The metadata element IDs of one group: `count` pushes of the 8-bit
        counter `id`, which goes up by one after each push and wraps from 255
        to 0; `issued` is the number of IDs handed out before. */
    method PushMetaDataElementIds(id: byte, count: nat, ghost issued: nat) returns (ids: seq<byte>, nextId: byte)
      requires id == issued % 256
      ensures ids == IdsFrom(issued, count)
      ensures nextId == (issued + count) % 256
    {
      ids, nextId := [], id;
      var offset := 0;
      while offset < count
        invariant offset <= count
        invariant ids == IdsFrom(issued, offset) && nextId == (issued + offset) % 256
      {
        ids := ids + [nextId];
        CounterStep(issued + offset);
        nextId := (nextId + 1) % 256;
        offset := offset + 1;
      }
    }

    /** A presence flag and, when it is set, a speakerConfig3d(). */
    method ReadOptionalLayout(r: BitParser) returns (res: Result<(bool, SpeakerConfig)>)
      requires r.Valid()
      modifies r
      ensures r.Valid()
      ensures Matches(res, OptionalLayout(r.bits, old(r.pos)), r.pos)
    {
      var present :- ReadBool(r);
      if present {
        var layout :- SpeakerConfig3d(r);
        return Ok((true, layout));
      }
      res := Ok((false, DefaultSpeakerConfig));
    }

    /** One signal group of signals3d(): its type, its signal count, the
        optional layout of a channel or SAOC group and the IDs of a channel,
        object or HOA group, taken from the counter `id`. */
    method ReadSignalGroup(r: BitParser, id: byte, ghost issued: nat) returns (res: Result<SignalGroup>, nextId: byte)
      requires r.Valid() && id == issued % 256
      modifies r
      ensures r.Valid()
      ensures Matches(res, SignalGroupAt(r.bits, old(r.pos), issued), r.pos)
      ensures res.Ok? ==> nextId == (issued + |res.value.metaDataElementIds|) % 256
    {
      nextId := id;
      var signalGroupType :- r.Read(3);
      var bsNumberOfSignals :- EscapedValueTo32Bit(r, 5, 8, 16);
      if signalGroupType > SIGNAL_GROUP_TYPE_HOA {
        return Fail(InvalidSignalGroupType), nextId;
      }
      var ids: seq<byte> := [];
      if signalGroupType == SIGNAL_GROUP_TYPE_CHANNELS || signalGroupType == SIGNAL_GROUP_TYPE_SAOC {
        var layout :- ReadOptionalLayout(r);
        if signalGroupType == SIGNAL_GROUP_TYPE_CHANNELS {
          ids, nextId := PushMetaDataElementIds(id, bsNumberOfSignals + 1, issued);
          res := Ok(SignalGroup(signalGroupType, bsNumberOfSignals, layout.0, layout.1, false, DefaultSpeakerConfig, ids));
        } else {
          res := Ok(SignalGroup(signalGroupType, bsNumberOfSignals, false, DefaultSpeakerConfig, layout.0, layout.1, ids));
        }
      } else {
        ids, nextId := PushMetaDataElementIds(id, IdCount(signalGroupType, bsNumberOfSignals), issued);
        res := Ok(SignalGroup(signalGroupType, bsNumberOfSignals, false, DefaultSpeakerConfig, false, DefaultSpeakerConfig, ids));
      }
    }

    /** One pass of the group loop of signals3d(): a group read, the total
        of its type raised by its number of signals and the group appended;
        `remaining` groups are still to come before it. */
    method SignalsPass(r: BitParser, ghost remaining: nat, signals: Signals, id: byte, ghost issued: nat)
      returns (res: Result<(Signals, byte)>, ghost newIssued: nat)
      requires r.Valid() && remaining > 0 && id == issued % 256
      modifies r
      ensures r.Valid()
      ensures res.Fail? ==> SignalsLoop(r.bits, old(r.pos), remaining, issued, signals) == Fail(res.error)
      ensures res.Ok? ==> res.value.1 == newIssued % 256
      ensures res.Ok? ==>
                SignalsLoop(r.bits, old(r.pos), remaining, issued, signals)
                == SignalsLoop(r.bits, r.pos, remaining - 1, newIssued, res.value.0)
    {
      ghost var pos := r.pos;
      newIssued := issued;
      var group, nextId := ReadSignalGroup(r, id, issued);
      if group.Fail? {
        SignalsLoopFail(r.bits, pos, remaining, issued, signals, group.error);
        return Fail(group.error), newIssued;
      }
      var signalGroup := group.value;
      var n := signalGroup.bsNumberOfSignals + 1;
      var next := signals;
      if signalGroup.signalGroupType == SIGNAL_GROUP_TYPE_CHANNELS {
        next := next.(numAudioChannels := next.numAudioChannels + n);
      } else if signalGroup.signalGroupType == SIGNAL_GROUP_TYPE_OBJECT {
        next := next.(numAudioObjects := next.numAudioObjects + n);
      } else if signalGroup.signalGroupType == SIGNAL_GROUP_TYPE_SAOC {
        next := next.(numSaocTransportChannels := next.numSaocTransportChannels + n);
      } else {
        next := next.(numHoaTransportChannels := next.numHoaTransportChannels + n);
      }
      next := next.(signalGroups := next.signalGroups + [signalGroup]);
      newIssued := issued + |signalGroup.metaDataElementIds|;
      SignalsLoopStep(r.bits, pos, remaining, issued, signals, Parsed(signalGroup, r.pos), remaining - 1, newIssued, next);
      res := Ok((next, nextId));
    }

    /** signals3d(): the 5-bit group count minus one, then the groups, the
        8-bit ID counter starting at 0. */
    method Signals3d(r: BitParser) returns (res: Result<Signals>)
      requires r.Valid()
      modifies r
      ensures r.Valid()
      ensures Matches(res, SignalsSyntax.Signals3d(r.bits, old(r.pos)), r.pos)
    {
      ghost var pos := r.pos;
      var numGroups :- r.Read(5);
      ghost var left: nat := numGroups + 1;
      SignalsFromCount(r.bits, pos, numGroups, r.pos, left);
      ghost var total := SignalsLoop(r.bits, r.pos, left, 0, DefaultSignals);
      var signals := DefaultSignals;
      var currentMetaDataElementId: byte := 0;
      ghost var issued: nat := 0;
      var i := 0;
      while i < numGroups + 1
        invariant r.Valid() && i <= numGroups + 1 && left == numGroups + 1 - i
        invariant currentMetaDataElementId == issued % 256
        invariant total == SignalsLoop(r.bits, r.pos, left, issued, signals)
      {
        var pass;
        pass, issued := SignalsPass(r, left, signals, currentMetaDataElementId, issued);
        if pass.Fail? {
          return Fail(pass.error);
        }
        signals, currentMetaDataElementId := pass.value.0, pass.value.1;
        i, left := i + 1, left - 1;
      }
      res := Ok(signals);
    }

    /** mpegh3daCoreConfig(): four flags, and with enhanced noise filling the
        IGF flags and indices. */
    method Mpegh3daCoreConfig(r: BitParser) returns (res: Result<CoreConfig>)
      requires r.Valid()
      modifies r
      ensures r.Valid()
      ensures Matches(res, CoreConfigAt(r.bits, old(r.pos)), r.pos)
    {
      var twMdct :- ReadBool(r);
      var fullbandLpd :- ReadBool(r);
      var noiseFilling :- ReadBool(r);
      var enhancedNoiseFilling :- ReadBool(r);
      if enhancedNoiseFilling {
        var igfUseEnf :- ReadBool(r);
        var igfUseHighRes :- ReadBool(r);
        var igfUseWhitening :- ReadBool(r);
        var igfAfterTnsSynth :- ReadBool(r);
        var igfStartIndex :- r.Read(5);
        var igfStopIndex :- r.Read(4);
        return Ok(CoreConfig(twMdct, fullbandLpd, noiseFilling, true, igfUseEnf, igfUseHighRes, igfUseWhitening,
                             igfAfterTnsSynth, igfStartIndex, igfStopIndex));
      }
      res := Ok(CoreConfig(twMdct, fullbandLpd, noiseFilling, false, false, false, false, false, 0, 0));
    }

    /** mpegh3daSingleChannelElementConfig(sbrRatioIndex): the core
        configuration; sbrConfig() fails for a nonzero SBR ratio. */
    method Mpegh3daSingleChannelElementConfig(r: BitParser, sbrRatioIndex: nat) returns (res: Result<ElementConfig>)
      requires r.Valid()
      modifies r
      ensures r.Valid()
      ensures Matches(res, SingleChannelAt(r.bits, old(r.pos), sbrRatioIndex), r.pos)
    {
      var core :- Mpegh3daCoreConfig(r);
      if sbrRatioIndex > 0 {
        return Fail(NotImplemented);
      }
      res := Ok(SingleChannelElement(core));
    }

    /** A shift index flag and, when set, the `nBits`-bit shift channel. */
    method ReadShift(r: BitParser, nBits: nat) returns (res: Result<(bool, nat)>)
      requires r.Valid()
      modifies r
      ensures r.Valid()
      ensures Matches(res, ShiftAt(r.bits, old(r.pos), nBits), r.pos)
    {
      var shiftIndex :- ReadBool(r);
      var shiftChannel := 0;
      if shiftIndex {
        shiftChannel :- r.Read(nBits);
      }
      res := Ok((shiftIndex, shiftChannel));
    }

    /** mpegh3daChannelPairElementConfig(sbrRatioIndex, numChannels): at
        least two channels, the core configuration, the IGF tiling flag,
        sbrConfig() failing for a nonzero SBR ratio, then the QCE index, the
        shifts and the LPD stereo flag. */
    method Mpegh3daChannelPairElementConfig(r: BitParser, sbrRatioIndex: nat, numChannels: nat)
      returns (res: Result<ElementConfig>)
      requires r.Valid()
      modifies r
      ensures r.Valid()
      ensures Matches(res, ChannelPairAt(r.bits, old(r.pos), sbrRatioIndex, numChannels), r.pos)
    {
      if numChannels <= 1 {
        return Fail(InvalidChannelCount);
      }
      var core :- Mpegh3daCoreConfig(r);
      var igfIndependentTiling := false;
      if core.enhancedNoiseFilling {
        igfIndependentTiling :- ReadBool(r);
      }
      if sbrRatioIndex > 0 {
        return Fail(NotImplemented);
      }
      var stereoConfigIdx := 0;
      var nBits := BitLength(numChannels - 1);
      var qceIndex :- r.Read(2);
      var shift0 := (false, 0);
      if qceIndex > 0 {
        shift0 :- ReadShift(r, nBits);
      }
      var shift1 :- ReadShift(r, nBits);
      var lpdStereoIndex := false;
      if sbrRatioIndex == 0 && qceIndex == 0 {
        lpdStereoIndex :- ReadBool(r);
      }
      res := Ok(ChannelPairElement(core, igfIndependentTiling, stereoConfigIdx, qceIndex, shift0.0, shift0.1,
                                   shift1.0, shift1.1, lpdStereoIndex));
    }

    /** mpegh3daExtElementConfig(): the fields; a fill or audio pre-roll
        element must not have a configuration, any other has its
        configuration bytes skipped. An audio pre-roll element sets the
        audioPreRollPresent flag of the configuration being read, passed in
        and out here. */
    method Mpegh3daExtElementConfig(r: BitParser, audioPreRollPresent: bool)
      returns (res: Result<ElementConfig>, preRoll: bool)
      requires r.Valid()
      modifies r
      ensures r.Valid()
      ensures Matches(res, ExtElementAt(r.bits, old(r.pos)), r.pos)
      ensures res.Ok? ==> preRoll == (audioPreRollPresent || IsPreRoll(res.value))
    {
      preRoll := audioPreRollPresent;
      var extElement :- ReadExtFields(r);
      var configLength := extElement.usacExtElementConfigLength;
      if extElement.usacExtElementType == ID_EXT_ELE_FILL {
        if configLength != 0 {
          return Fail(MalformedExtension), preRoll;
        }
      } else if extElement.usacExtElementType == ID_EXT_ELE_AUDIOPREROLL {
        preRoll := true;
        if configLength != 0 {
          return Fail(MalformedExtension), preRoll;
        }
      } else {
        var skipped :- SkipBits(r, configLength * 8);
      }
      res := Ok(extElement);
    }

    /** The fields of mpegh3daExtElementConfig(). */
    method ReadExtFields(r: BitParser) returns (res: Result<ElementConfig>)
      requires r.Valid()
      modifies r
      ensures r.Valid()
      ensures Matches(res, ExtFieldsAt(r.bits, old(r.pos)), r.pos)
    {
      var usacExtElementType :- EscapedValueTo32Bit(r, 4, 8, 16);
      var usacExtElementConfigLength :- EscapedValueTo32Bit(r, 4, 8, 16);
      var usacExtElementDefaultLengthPresent :- ReadBool(r);
      var usacExtElementDefaultLength := 0;
      if usacExtElementDefaultLengthPresent {
        var v :- EscapedValueTo32Bit(r, 8, 16, 0);
        usacExtElementDefaultLength := v + 1;
      }
      var usacExtElementPayloadFrag :- ReadBool(r);
      res := Ok(ExtElement(usacExtElementType, usacExtElementConfigLength, usacExtElementDefaultLengthPresent,
                           usacExtElementDefaultLength, usacExtElementPayloadFrag));
    }

    /** One element of mpegh3daDecoderConfig(): the 2-bit usacElementType
        and the configuration it selects. */
    method ReadElement(r: BitParser, sbrRatioIndex: nat, numChannels: nat, audioPreRollPresent: bool)
      returns (res: Result<ElementConfig>, preRoll: bool)
      requires r.Valid()
      modifies r
      ensures r.Valid()
      ensures Matches(res, ElementAt(r.bits, old(r.pos), sbrRatioIndex, numChannels), r.pos)
      ensures res.Ok? ==> preRoll == (audioPreRollPresent || IsPreRoll(res.value))
    {
      preRoll := audioPreRollPresent;
      var usacElementType :- r.Read(2);
      if usacElementType == ID_USAC_SCE {
        res := Mpegh3daSingleChannelElementConfig(r, sbrRatioIndex);
      } else if usacElementType == ID_USAC_CPE {
        res := Mpegh3daChannelPairElementConfig(r, sbrRatioIndex, numChannels);
      } else if usacElementType == ID_USAC_LFE {
        res := Ok(LfeElementConfig());
      } else {
        res, preRoll := Mpegh3daExtElementConfig(r, audioPreRollPresent);
      }
    }

    /** One pass of the element loop of mpegh3daDecoderConfig(): an element
        read and appended; `remaining` elements are still to come before
        it. The pre-roll flag was `initial` before the loop. */
    method ElementPass(r: BitParser, ghost total: Result<Parsed<seq<ElementConfig>>>, ghost remaining: nat,
                       sbrRatioIndex: nat, numChannels: nat,
                       elementConfigs: seq<ElementConfig>, audioPreRollPresent: bool, ghost initial: bool)
      returns (res: Result<seq<ElementConfig>>, preRoll: bool)
      requires r.Valid() && remaining > 0
      requires total == ElementsLoop(r.bits, r.pos, remaining, sbrRatioIndex, numChannels, elementConfigs)
      requires audioPreRollPresent == (initial || HasPreRoll(elementConfigs))
      modifies r
      ensures r.Valid()
      ensures res.Fail? ==> total == Fail(res.error)
      ensures res.Ok? ==> total == ElementsLoop(r.bits, r.pos, remaining - 1, sbrRatioIndex, numChannels, res.value)
      ensures res.Ok? ==> preRoll == (initial || HasPreRoll(res.value))
    {
      ghost var pos := r.pos;
      var element;
      element, preRoll := ReadElement(r, sbrRatioIndex, numChannels, audioPreRollPresent);
      if element.Fail? {
        ElementsLoopFail(r.bits, pos, remaining, sbrRatioIndex, numChannels, elementConfigs, element.error);
        return Fail(element.error), preRoll;
      }
      var next := elementConfigs + [element.value];
      ElementsLoopStep(r.bits, pos, remaining, sbrRatioIndex, numChannels, elementConfigs, Parsed(element.value, r.pos),
                       remaining - 1, next);
      HasPreRollAppend(elementConfigs, element.value);
      res := Ok(next);
    }

    /** mpegh3daDecoderConfig(sbrRatioIndex, numChannels): the escaped
        number of elements minus one, the element length flag and the
        elements; an audio pre-roll element among them sets the flag. */
    method Mpegh3daDecoderConfig(r: BitParser, sbrRatioIndex: nat, numChannels: nat, audioPreRollPresent: bool)
      returns (res: Result<DecoderConfig>, preRoll: bool)
      requires r.Valid()
      modifies r
      ensures r.Valid()
      ensures Matches(res, DecoderConfigAt(r.bits, old(r.pos), sbrRatioIndex, numChannels), r.pos)
      ensures res.Ok? ==> preRoll == (audioPreRollPresent || HasPreRoll(res.value.elementConfigs))
    {
      preRoll := audioPreRollPresent;
      ghost var pos := r.pos;
      var numElements :- EscapedValueTo32Bit(r, 4, 8, 16);
      ghost var p1 := r.pos;
      var elementLengthPresent :- ReadBool(r);
      ghost var p2 := r.pos;
      var elementConfigs;
      elementConfigs, preRoll := ReadElements(r, numElements + 1, sbrRatioIndex, numChannels, audioPreRollPresent);
      DecoderFromParts(r.bits, pos, sbrRatioIndex, numChannels, numElements, p1, elementLengthPresent, p2);
      if elementConfigs.Fail? {
        return Fail(elementConfigs.error), preRoll;
      }
      res := Ok(DecoderConfig(elementLengthPresent, elementConfigs.value));
    }

    /** The element loop of mpegh3daDecoderConfig(): `numElements` elements
        read one after the other. */
    method ReadElements(r: BitParser, numElements: nat, sbrRatioIndex: nat, numChannels: nat, audioPreRollPresent: bool)
      returns (res: Result<seq<ElementConfig>>, preRoll: bool)
      requires r.Valid()
      modifies r
      ensures r.Valid()
      ensures Matches(res, ElementsLoop(r.bits, old(r.pos), numElements, sbrRatioIndex, numChannels, []), r.pos)
      ensures res.Ok? ==> preRoll == (audioPreRollPresent || HasPreRoll(res.value))
    {
      preRoll := audioPreRollPresent;
      ghost var total := ElementsLoop(r.bits, r.pos, numElements, sbrRatioIndex, numChannels, []);
      var elementConfigs: seq<ElementConfig> := [];
      var elemIdx := 0;
      ghost var left := numElements;
      while elemIdx < numElements
        invariant r.Valid() && elemIdx <= numElements && left == numElements - elemIdx
        invariant total == ElementsLoop(r.bits, r.pos, left, sbrRatioIndex, numChannels, elementConfigs)
        invariant preRoll == (audioPreRollPresent || HasPreRoll(elementConfigs))
      {
        var pass;
        pass, preRoll := ElementPass(r, total, left, sbrRatioIndex, numChannels, elementConfigs,
                                     preRoll, audioPreRollPresent);
        if pass.Fail? {
          return Fail(pass.error), preRoll;
        }
        elementConfigs := pass.value;
        elemIdx, left := elemIdx + 1, left - 1;
      }
      res := Ok(elementConfigs);
    }

    /** mpegh3daCompatibleProfileLevelSet(configExtLength): the number of
        sets minus one, four reserved bits and one indication per set. */
    method Mpegh3daCompatibleProfileLevelSet(r: BitParser, configExtLength: nat)
      returns (res: Result<SingleConfigExtension>)
      requires r.Valid()
      modifies r
      ensures r.Valid()
      ensures Matches(res, CompatibleSetAt(r.bits, old(r.pos), configExtLength), r.pos)
    {
      var numCompatibleSets :- r.Read(4);
      var reserved :- r.Read(4);
      var count := numCompatibleSets + 1;
      ghost var total := ReadFields(r.bits, r.pos, count, 8);
      var compatibleSetIndications: seq<nat> := [];
      var i := 0;
      while i < count
        invariant r.Valid() && i <= count
        invariant total == ReadFieldsFrom(r.bits, r.pos, count - i, 8, compatibleSetIndications)
      {
        ghost var pos := r.pos;
        var indication :- r.Read(8);
        FieldsStep(r.bits, pos, count - i, 8, compatibleSetIndications, indication);
        compatibleSetIndications := compatibleSetIndications + [indication];
        i := i + 1;
      }
      res := Ok(CompatibleProfileLevelSet(configExtLength, compatibleSetIndications));
    }

    /** The payload of a fill configuration extension: `length` bytes read
        one by one. Each should be 0xA5; a different one is only reported to
        the log, which is not part of this model. */
    method ReadFillBytes(r: BitParser, length: nat) returns (res: Result<()>)
      requires r.Valid()
      modifies r
      ensures r.Valid()
      ensures Matches(res, FillBytesAt(r.bits, old(r.pos), length), r.pos)
    {
      ghost var total := ReadFields(r.bits, r.pos, length, 8);
      ghost var values: seq<nat> := [];
      var j := 0;
      while j < length
        invariant r.Valid() && j <= length
        invariant total == ReadFieldsFrom(r.bits, r.pos, length - j, 8, values)
      {
        ghost var pos := r.pos;
        var val :- r.Read(8);
        FieldsStep(r.bits, pos, length - j, 8, values, val);
        values := values + [val];
        j := j + 1;
      }
      res := Ok(());
    }

    /** One configuration extension of mpegh3daConfigExtension(): the
        escaped type and length, then the fill bytes, the compatible profile
        level set, or the skipped payload. */
    method ReadSingleConfigExtension(r: BitParser) returns (res: Result<SingleConfigExtension>)
      requires r.Valid()
      modifies r
      ensures r.Valid()
      ensures Matches(res, SingleExtensionAt(r.bits, old(r.pos)), r.pos)
    {
      var configExtType :- EscapedValueTo32Bit(r, 4, 8, 16);
      var configExtLength :- EscapedValueTo32Bit(r, 4, 8, 16);
      if configExtType == ID_CONFIG_EXT_FILL {
        var filled :- ReadFillBytes(r, configExtLength);
        res := Ok(PlainExtension(configExtType, configExtLength));
      } else if configExtType == ID_CONFIG_EXT_COMPATIBLE_PROFILELVL_SET {
        res := Mpegh3daCompatibleProfileLevelSet(r, configExtLength);
      } else {
        var skipped :- SkipBits(r, configExtLength * 8);
        res := Ok(PlainExtension(configExtType, configExtLength));
      }
    }

    /** One pass of the extension loop: an extension read and appended;
        `remaining` extensions are still to come before it. */
    method ExtensionPass(r: BitParser, ghost remaining: nat, singleConfigExtensions: seq<SingleConfigExtension>)
      returns (res: Result<seq<SingleConfigExtension>>)
      requires r.Valid() && remaining > 0
      modifies r
      ensures r.Valid()
      ensures res.Fail? ==> ExtensionsLoop(r.bits, old(r.pos), remaining, singleConfigExtensions) == Fail(res.error)
      ensures res.Ok? ==>
                ExtensionsLoop(r.bits, old(r.pos), remaining, singleConfigExtensions)
                == ExtensionsLoop(r.bits, r.pos, remaining - 1, res.value)
    {
      ghost var pos := r.pos;
      var extension := ReadSingleConfigExtension(r);
      if extension.Fail? {
        ExtensionsLoopFail(r.bits, pos, remaining, singleConfigExtensions, extension.error);
        return Fail(extension.error);
      }
      var next := singleConfigExtensions + [extension.value];
      ExtensionsLoopStep(r.bits, pos, remaining, singleConfigExtensions, Parsed(extension.value, r.pos), next);
      res := Ok(next);
    }

    /** mpegh3daConfigExtension(): the escaped number of extensions minus
        one, then the extensions. */
    method Mpegh3daConfigExtension(r: BitParser) returns (res: Result<ConfigExtension>)
      requires r.Valid()
      modifies r
      ensures r.Valid()
      ensures Matches(res, ConfigExtensionAt(r.bits, old(r.pos)), r.pos)
    {
      var numConfigExtensions :- EscapedValueTo32Bit(r, 2, 4, 8);
      var count := numConfigExtensions + 1;
      ghost var total := ExtensionsLoop(r.bits, r.pos, count, []);
      var singleConfigExtensions: seq<SingleConfigExtension> := [];
      var i := 0;
      ghost var left := count;
      while i < count
        invariant r.Valid() && i <= count && left == count - i
        invariant total == ExtensionsLoop(r.bits, r.pos, left, singleConfigExtensions)
      {
        singleConfigExtensions :- ExtensionPass(r, left, singleConfigExtensions);
        i, left := i + 1, left - 1;
      }
      res := Ok(ConfigExtension(singleConfigExtensions));
    }

    /** The fields at the head of mpegh3daConfig(): profile and level, the
        frequency index and the frequency it announces, the core SBR frame
        length index and two flags. */
    method ReadConfigHeader(r: BitParser) returns (res: Result<Config>)
      requires r.Valid()
      modifies r
      ensures r.Valid()
      ensures Matches(res, ConfigHeaderAt(r.bits, old(r.pos)), r.pos)
    {
      var mpegh3daProfileLevelIndicator :- r.Read(8);
      var usacSamplingFrequencyIndex :- r.Read(5);
      var usacSamplingFrequency;
      if usacSamplingFrequencyIndex == EXPLICIT_FREQUENCY {
        usacSamplingFrequency :- r.Read(24);
      } else {
        usacSamplingFrequency := SamplingFrequency(usacSamplingFrequencyIndex);
      }
      var coreSbrFrameLengthIndex :- r.Read(3);
      var cfgReserved :- ReadBool(r);
      var receiverDelayCompensation :- ReadBool(r);
      res := Ok(DefaultConfig.(mpegh3daProfileLevelIndicator := mpegh3daProfileLevelIndicator,
                               usacSamplingFrequencyIndex := usacSamplingFrequencyIndex,
                               usacSamplingFrequency := usacSamplingFrequency,
                               coreSbrFrameLengthIndex := coreSbrFrameLengthIndex, cfgReserved := cfgReserved,
                               receiverDelayCompensation := receiverDelayCompensation));
    }

    /** The part of mpegh3daConfig() after signals3d(), on the configuration
        `c` read so far: the frame length index check and the SBR ratio it
        maps to, mpegh3daDecoderConfig(), the extension flag and
        mpegh3daConfigExtension(). */
    method ReadConfigTail(r: BitParser, c: Config) returns (res: Result<Config>)
      requires r.Valid()
      modifies r
      ensures r.Valid()
      ensures Matches(res, ConfigTailAt(r.bits, old(r.pos), c), r.pos)
    {
      var numberChannels := c.signals.numAudioChannels + c.signals.numAudioObjects
                            + c.signals.numHoaTransportChannels + c.signals.numSaocTransportChannels;
      if c.coreSbrFrameLengthIndex > 4 {
        return Fail(InvalidFrameLengthIndex);
      }
      var sbrRatioIndex := SbrRatioIndex(c.coreSbrFrameLengthIndex);
      // The flag of the configuration being read starts cleared.
      var decoderConfig, audioPreRollPresent := Mpegh3daDecoderConfig(r, sbrRatioIndex, numberChannels, false);
      if decoderConfig.Fail? {
        return Fail(decoderConfig.error);
      }
      var usacConfigExtensionPresent :- ReadBool(r);
      var configExtension := DefaultConfigExtension;
      if usacConfigExtensionPresent {
        configExtension :- Mpegh3daConfigExtension(r);
      }
      res := Ok(c.(decoderConfig := decoderConfig.value, usacConfigExtensionPresent := usacConfigExtensionPresent,
                   configExtension := configExtension, audioPreRollPresent := audioPreRollPresent));
    }

    /** mpegh3daConfig(): the header, the reference layout, the signals and
        the rest. */
    method Mpegh3daConfig(r: BitParser) returns (res: Result<Config>)
      requires r.Valid()
      modifies r
      ensures r.Valid()
      ensures Matches(res, Mpegh3daConfigAt(r.bits, old(r.pos)), r.pos)
    {
      var mpegh3daConfig :- ReadConfigHeader(r);
      var referenceLayout :- SpeakerConfig3d(r);
      var signals :- Signals3d(r);
      res := ReadConfigTail(r, mpegh3daConfig.(referenceLayout := referenceLayout, signals := signals));
    }

    /** CMpeghPimpl::addConfig(config): a reader over the buffer, and the
        configuration it yields stored; then at most 7 bits may be left, or
        the call fails with the new configuration already stored. When the
        configuration cannot be read, the stored one is kept. */
    method AddConfig(buffer: seq<byte>) returns (res: Result<()>)
      modifies this
      ensures AddConfigOf(buffer).Fail? ==> res == Fail(AddConfigOf(buffer).error) && config == old(config)
      ensures AddConfigOf(buffer).Ok? ==>
                && config == AddConfigOf(buffer).value.0
                && res == (if AddConfigOf(buffer).value.1 then Ok(()) else Fail(TrailingData))
    {
      var bitParser := new BitParser(BitsOfBytes(buffer));
      var parsed :- Mpegh3daConfig(bitParser);
      config := parsed;
      var bitsLeft := bitParser.NofBitsLeft();
      if bitsLeft >= 8 {
        return Fail(TrailingData);
      }
      res := Ok(());
    }
  }
}
