/** mpegh3daConfig(): the header fields, the reference layout, the signals,
    the decoder configuration and the optional configuration extension, and
    the check CMpeghPimpl::addConfig makes on the bits left over. */
module ConfigSyntax {
  import opened Results
  import opened Bits
  import opened ParserUtils
  import opened MpeghTypes
  import opened MpeghTables
  import opened LayoutSyntax
  import opened SignalsSyntax
  import opened DecoderSyntax
  import opened ExtensionSyntax

  /** The usacSamplingFrequencyIndex that announces an explicit 24-bit
      frequency. */
  const EXPLICIT_FREQUENCY: nat := 0x1f

  // ---------------------------------------------------------------------
  // Specification

  /** The fields of mpegh3daConfig() up to the reference layout, filled into
      the default configuration: the 8-bit profile and level, the 5-bit
      frequency index with a 24-bit frequency after the index 0x1f and the
      table entry otherwise, the 3-bit core SBR frame length index, the
      reserved flag and the receiver delay compensation flag. */
  function ConfigHeaderAt(bits: seq<bool>, pos: nat): (r: Result<Parsed<Config>>)
    ensures r.Fail? ==> r.error == ReaderExhausted
  {
    var profile :- ReadAt(bits, pos, 8);
    var index :- ReadAt(bits, profile.next, 5);
    var frequency :-
      if index.item == EXPLICIT_FREQUENCY then ReadAt(bits, index.next, 24)
      else Ok(Parsed(SamplingFrequency(index.item), index.next));
    var frameLengthIndex :- ReadAt(bits, frequency.next, 3);
    var cfgReserved :- ReadBoolAt(bits, frameLengthIndex.next);
    var receiverDelayCompensation :- ReadBoolAt(bits, cfgReserved.next);
    Ok(Parsed(DefaultConfig.(mpegh3daProfileLevelIndicator := profile.item, usacSamplingFrequencyIndex := index.item,
                             usacSamplingFrequency := frequency.item, coreSbrFrameLengthIndex := frameLengthIndex.item,
                             cfgReserved := cfgReserved.item, receiverDelayCompensation := receiverDelayCompensation.item),
              receiverDelayCompensation.next))
  }

  /** The SBR ratio index of a core SBR frame length index from 0 to 4. */
  function SbrRatioIndex(coreSbrFrameLengthIndex: nat): (r: nat)
    requires coreSbrFrameLengthIndex <= 4
    ensures r < 4
    ensures r == 0 <==> coreSbrFrameLengthIndex <= 1
  {
    match coreSbrFrameLengthIndex
    case 0 => 0
    case 1 => 0
    case 2 => 2
    case 3 => 3
    case 4 => 1
  }

  /** numberChannels: the four totals of the signals added up. */
  function NumberChannels(s: Signals): nat
  {
    s.numAudioChannels + s.numAudioObjects + s.numHoaTransportChannels + s.numSaocTransportChannels
  }

  /** mpegh3daConfig(): the header, speakerConfig3d() and signals3d(), then
      the rest (ConfigTailAt). */
  function Mpegh3daConfigAt(bits: seq<bool>, pos: nat): (r: Result<Parsed<Config>>)
  {
    var header :- ConfigHeaderAt(bits, pos);
    var referenceLayout :- SpeakerConfig3d(bits, header.next);
    var signals :- Signals3d(bits, referenceLayout.next);
    ConfigTailAt(bits, signals.next, header.item.(referenceLayout := referenceLayout.item, signals := signals.item))
  }

  /** The rest of mpegh3daConfig() once the signals are read into `c`: only
      now is a core SBR frame length index above 4 refused; then
      mpegh3daDecoderConfig() with the SBR ratio of that index and the total
      number of signals, the extension flag, and the configuration extension
      when the flag is set. audioPreRollPresent is set when some extension
      element is an audio pre-roll element. */
  function ConfigTailAt(bits: seq<bool>, pos: nat, c: Config): (r: Result<Parsed<Config>>)
  {
    var fli := c.coreSbrFrameLengthIndex;
    if fli > 4 then Fail(InvalidFrameLengthIndex)
    else
      var decoder :- DecoderConfigAt(bits, pos, SbrRatioIndex(fli), NumberChannels(c.signals));
      var extensionPresent :- ReadBoolAt(bits, decoder.next);
      var extension :-
        if extensionPresent.item then ConfigExtensionAt(bits, extensionPresent.next)
        else Ok(Parsed(DefaultConfigExtension, extensionPresent.next));
      Ok(Parsed(c.(decoderConfig := decoder.item, usacConfigExtensionPresent := extensionPresent.item,
                   configExtension := extension.item, audioPreRollPresent := HasPreRoll(decoder.item.elementConfigs)),
                extension.next))
  }

  /** CMpeghPimpl::addConfig on a byte buffer: the configuration read from
      its first bit, and whether at most 7 bits were left over. The
      configuration is kept even when more bits are left; the error is raised
      after it was stored. */
  function AddConfigOf(buffer: seq<byte>): (r: Result<(Config, bool)>)
  {
    var bits := BitsOfBytes(buffer);
    var config :- Mpegh3daConfigAt(bits, 0);
    Ok((config.item, |bits| - config.next < 8))
  }

  // ---------------------------------------------------------------------
  // What a parsed configuration looks like

  /** The configurations mpegh3daConfig() yields: every field fits its
      width, an explicit frequency for index 0x1f and the table entry
      otherwise, a frame length index of at most 4, a well-formed reference
      layout and signals, elements as the SBR ratio and the signal count
      call for, extensions only when the flag is set, and audioPreRollPresent
      exactly when some element is an audio pre-roll element. */
  predicate ConfigWf(c: Config)
  {
    && c.mpegh3daProfileLevelIndicator < 256
    && c.usacSamplingFrequencyIndex < 32
    && (if c.usacSamplingFrequencyIndex == EXPLICIT_FREQUENCY then c.usacSamplingFrequency < Pow2(24)
        else c.usacSamplingFrequency == SamplingFrequency(c.usacSamplingFrequencyIndex))
    && c.coreSbrFrameLengthIndex <= 4
    && SpeakerConfigWf(c.referenceLayout)
    && SignalsInv(c.signals) && 1 <= |c.signals.signalGroups| <= 32
    && ElementsWf(c.decoderConfig.elementConfigs, SbrRatioIndex(c.coreSbrFrameLengthIndex),
                  SignalCount(c.signals.signalGroups))
    && 1 <= |c.decoderConfig.elementConfigs| <= EscapedMax(4, 8, 16) + 1
    && (if c.usacConfigExtensionPresent then
          ExtensionsWf(c.configExtension.singleConfigExtensions) && 1 <= |c.configExtension.singleConfigExtensions| <= 274
        else c.configExtension == DefaultConfigExtension)
    && c.audioPreRollPresent == HasPreRoll(c.decoderConfig.elementConfigs)
  }

  // ---------------------------------------------------------------------
  // Properties

  /** A parsed header holds fields of the widths they were read with, and
      the frequency of its index. */
  lemma HeaderSound(bits: seq<bool>, pos: nat, res: Parsed<Config>)
    requires ConfigHeaderAt(bits, pos) == Ok(res)
    ensures res.item.mpegh3daProfileLevelIndicator < 256 && res.item.usacSamplingFrequencyIndex < 32
    ensures if res.item.usacSamplingFrequencyIndex == EXPLICIT_FREQUENCY then res.item.usacSamplingFrequency < Pow2(24)
            else res.item.usacSamplingFrequency == SamplingFrequency(res.item.usacSamplingFrequencyIndex)
    ensures res.item.coreSbrFrameLengthIndex < 8
    ensures res.item.referenceLayout == DefaultSpeakerConfig && res.item.signals == DefaultSignals
    ensures res.item.decoderConfig == DefaultDecoderConfig && res.item.configExtension == DefaultConfigExtension
    ensures !res.item.usacConfigExtensionPresent && !res.item.audioPreRollPresent
  {
    Pow2Values();
  }

  /** The channel count handed to the decoder configuration is the number
      of signals of all groups. */
  lemma NumberChannelsIsSignalCount(s: Signals)
    requires SignalsInv(s)
    ensures NumberChannels(s) == SignalCount(s.signalGroups)
  {
    var groups := s.signalGroups;
    forall k | 0 <= k < |groups| ensures groups[k].signalGroupType < 4 {
      GroupsWfIndex(groups, k);
    }
    TotalsAddUp(groups);
  }

  /** The first three parts of a configuration that parses: the header
      and the reference layout and signals read into `c`, after which the
      rest goes on from `p`. */
  lemma ConfigPrefix(bits: seq<bool>, pos: nat, res: Parsed<Config>) returns (c: Config, p: nat)
    requires Mpegh3daConfigAt(bits, pos) == Ok(res)
    ensures ConfigTailAt(bits, p, c) == Ok(res)
    ensures c.mpegh3daProfileLevelIndicator < 256 && c.usacSamplingFrequencyIndex < 32
    ensures if c.usacSamplingFrequencyIndex == EXPLICIT_FREQUENCY then c.usacSamplingFrequency < Pow2(24)
            else c.usacSamplingFrequency == SamplingFrequency(c.usacSamplingFrequencyIndex)
    ensures SpeakerConfigWf(c.referenceLayout)
    ensures SignalsInv(c.signals) && 1 <= |c.signals.signalGroups| <= 32
  {
    var header := ConfigHeaderAt(bits, pos).value;
    HeaderSound(bits, pos, header);
    var layout := SpeakerConfig3d(bits, header.next).value;
    SpeakerConfigSound(bits, header.next, layout);
    var signals := Signals3d(bits, layout.next).value;
    SignalsSound(bits, layout.next, signals);
    c, p := header.item.(referenceLayout := layout.item, signals := signals.item), signals.next;
  }

  /** The rest of a configuration keeps what the first parts hold, and adds
      a frame length index of at most 4, elements as the SBR ratio and the
      signal count call for, extensions only when the flag is set, and the
      pre-roll flag. */
  lemma TailSound(bits: seq<bool>, pos: nat, c: Config, res: Parsed<Config>)
    requires ConfigTailAt(bits, pos, c) == Ok(res) && SignalsInv(c.signals)
    ensures res.item == c.(decoderConfig := res.item.decoderConfig,
                           usacConfigExtensionPresent := res.item.usacConfigExtensionPresent,
                           configExtension := res.item.configExtension, audioPreRollPresent := res.item.audioPreRollPresent)
    ensures res.item.coreSbrFrameLengthIndex <= 4
    ensures ElementsWf(res.item.decoderConfig.elementConfigs, SbrRatioIndex(res.item.coreSbrFrameLengthIndex),
                       SignalCount(res.item.signals.signalGroups))
    ensures 1 <= |res.item.decoderConfig.elementConfigs| <= EscapedMax(4, 8, 16) + 1
    ensures if res.item.usacConfigExtensionPresent then
              ExtensionsWf(res.item.configExtension.singleConfigExtensions)
              && 1 <= |res.item.configExtension.singleConfigExtensions| <= 274
            else res.item.configExtension == DefaultConfigExtension
    ensures res.item.audioPreRollPresent == HasPreRoll(res.item.decoderConfig.elementConfigs)
  {
    NumberChannelsIsSignalCount(c.signals);
    var sbr := SbrRatioIndex(c.coreSbrFrameLengthIndex);
    var n := NumberChannels(c.signals);
    var decoder := DecoderConfigAt(bits, pos, sbr, n).value;
    DecoderSound(bits, pos, sbr, n, decoder);
    var present := ReadBoolAt(bits, decoder.next).value;
    if present.item {
      ConfigExtensionSound(bits, present.next, ConfigExtensionAt(bits, present.next).value);
    }
  }

  /** mpegh3daConfig() yields a well-formed configuration. */
  lemma ConfigSound(bits: seq<bool>, pos: nat, res: Parsed<Config>)
    requires Mpegh3daConfigAt(bits, pos) == Ok(res)
    ensures ConfigWf(res.item)
  {
    var c, p := ConfigPrefix(bits, pos, res);
    TailSound(bits, p, c, res);
  }

  /** A core SBR frame length index above 4 is refused exactly when the
      header, the reference layout and the signals before it could all be
      read: the check comes after them. */
  lemma FrameLengthChecked(bits: seq<bool>, pos: nat)
    ensures Mpegh3daConfigAt(bits, pos) == Fail(InvalidFrameLengthIndex)
        <==> && ConfigHeaderAt(bits, pos).Ok?
             && SpeakerConfig3d(bits, ConfigHeaderAt(bits, pos).value.next).Ok?
             && Signals3d(bits, SpeakerConfig3d(bits, ConfigHeaderAt(bits, pos).value.next).value.next).Ok?
             && ConfigHeaderAt(bits, pos).value.item.coreSbrFrameLengthIndex > 4
  {
    var header := ConfigHeaderAt(bits, pos);
    if header.Ok? {
      var layout := SpeakerConfig3d(bits, header.value.next);
      SpeakerConfigFailures(bits, header.value.next);
      if layout.Ok? {
        var signals := Signals3d(bits, layout.value.next);
        if signals.Fail? {
          SignalsErrors(bits, layout.value.next);
        } else {
          var c := header.value.item.(referenceLayout := layout.value.item, signals := signals.value.item);
          var p := signals.value.next;
          TailFrameLength(bits, p, c);
        }
      }
    }
  }

  /** The rest of a configuration fails with InvalidFrameLengthIndex exactly
      when the index is above 4. */
  lemma TailFrameLength(bits: seq<bool>, pos: nat, c: Config)
    ensures ConfigTailAt(bits, pos, c) == Fail(InvalidFrameLengthIndex) <==> c.coreSbrFrameLengthIndex > 4
  {
    if c.coreSbrFrameLengthIndex <= 4 {
      var sbr := SbrRatioIndex(c.coreSbrFrameLengthIndex);
      var n := NumberChannels(c.signals);
      var decoder := DecoderConfigAt(bits, pos, sbr, n);
      if decoder.Fail? {
        DecoderErrors(bits, pos, sbr, n, decoder.error);
      } else if decoder.value.next < |bits| && bits[decoder.value.next] {
        var extension := ConfigExtensionAt(bits, decoder.value.next + 1);
        if extension.Fail? {
          ConfigExtensionFailure(bits, decoder.value.next + 1);
        }
      }
    }
  }

  /** With a core SBR frame length index of 2 to 4 (SBR on), a configuration
      that parses has no single channel or channel pair element: those would
      need the SBR configuration the parser does not implement. */
  lemma SbrOnlyLfeAndExt(bits: seq<bool>, pos: nat, res: Parsed<Config>)
    requires Mpegh3daConfigAt(bits, pos) == Ok(res) && res.item.coreSbrFrameLengthIndex >= 2
    ensures forall k | 0 <= k < |res.item.decoderConfig.elementConfigs| ::
              res.item.decoderConfig.elementConfigs[k].LfeElement? || res.item.decoderConfig.elementConfigs[k].ExtElement?
  {
    ConfigSound(bits, pos, res);
    var els := res.item.decoderConfig.elementConfigs;
    forall k | 0 <= k < |els| ensures els[k].LfeElement? || els[k].ExtElement? {
      assert ElementWf(els[k], SbrRatioIndex(res.item.coreSbrFrameLengthIndex), SignalCount(res.item.signals.signalGroups));
    }
  }
}
