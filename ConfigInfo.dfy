/** The public view of a parsed configuration (CMpeghParser::SConfigInfo and
    the structures it holds), how getConfigInfo() derives it from the parse
    tree, and the profile queries of mpeghparser.cpp. */
module ConfigInfo {
  import opened Results
  import opened Bits
  import opened MpeghTypes
  import opened SignalsSyntax
  import opened DecoderSyntax
  import opened ExtensionSyntax
  import opened ConfigSyntax

  /** SSpeakerConfig3d of the public interface. */
  datatype SpeakerConfigInfo = SpeakerConfigInfo(
    speakerLayoutType: nat,
    cicpIdx: nat,
    numSpeakers: nat,
    cicpSpeakerIdx: seq<nat>)

  /** SSignalGroup of the public interface. */
  datatype SignalGroupInfo = SignalGroupInfo(
    signalGroupType: nat,
    metaDataElementIds: seq<byte>,
    audioChannelLayout: SpeakerConfigInfo,
    numSignals: nat)

  /** SElementConfig of the public interface. */
  datatype ElementConfigInfo = ElementConfigInfo(usacElementType: nat, extElementType: nat)

  /** SConfigExtension of the public interface. */
  datatype ConfigExtensionInfo = ConfigExtensionInfo(usacConfigExtType: nat, usacConfigExtLength: nat)

  /** SConfigInfo. */
  datatype Info = Info(
    profileLevelIndicator: nat,
    samplingFrequencyIndex: nat,
    samplingFrequency: nat,
    coreSbrFrameLengthIndex: nat,
    cfgReserved: bool,
    receiverDelayCompensation: bool,
    referenceLayout: SpeakerConfigInfo,
    numAudioChannels: nat,
    numAudioObjects: nat,
    numSaocTransportChannels: nat,
    numHoaTransportChannels: nat,
    signalGroups: seq<SignalGroupInfo>,
    elementConfigs: seq<ElementConfigInfo>,
    configExtensions: seq<ConfigExtensionInfo>,
    compatibleProfileLevels: seq<nat>,
    audioPreRollPresent: bool)

  // ---------------------------------------------------------------------
  // Specification

  /** The four fields of a layout the public structure carries. */
  function LayoutInfo(s: SpeakerConfig): SpeakerConfigInfo
  {
    SpeakerConfigInfo(s.speakerLayoutType, s.cicpSpeakerLayoutIdx, s.numSpeakers, s.cicpSpeakerIdx)
  }

  /** A signal group as getConfigInfo() reports it: its type and IDs, the
      number of signals (the coded number plus one), and its own layout when
      it differs from the reference layout, `reference` otherwise. */
  function GroupInfo(g: SignalGroup, reference: SpeakerConfigInfo): SignalGroupInfo
  {
    SignalGroupInfo(g.signalGroupType, g.metaDataElementIds,
                    if g.differsFromReferenceLayout then LayoutInfo(g.audioChannelLayout) else reference,
                    g.bsNumberOfSignals + 1)
  }

  /** The signal groups reported, one per group, in order. */
  function GroupInfos(groups: seq<SignalGroup>, reference: SpeakerConfigInfo): (infos: seq<SignalGroupInfo>)
    ensures |infos| == |groups|
    ensures forall k | 0 <= k < |groups| :: infos[k] == GroupInfo(groups[k], reference)
  {
    if groups == [] then []
    else GroupInfos(groups[..|groups| - 1], reference) + [GroupInfo(groups[|groups| - 1], reference)]
  }

  /** An element as reported: its usacElementType and, for an extension
      element, its extension type (0 for the others). */
  function ElementInfo(e: ElementConfig): ElementConfigInfo
  {
    ElementConfigInfo(e.UsacElementType(), if e.ExtElement? then e.usacExtElementType else 0)
  }

  /** The elements reported, one per element, in order. */
  function ElementInfos(elements: seq<ElementConfig>): (infos: seq<ElementConfigInfo>)
    ensures |infos| == |elements|
    ensures forall k | 0 <= k < |elements| :: infos[k] == ElementInfo(elements[k])
  {
    if elements == [] then []
    else ElementInfos(elements[..|elements| - 1]) + [ElementInfo(elements[|elements| - 1])]
  }

  /** A configuration extension as reported: its type and declared length. */
  function ExtensionInfo(x: SingleConfigExtension): ConfigExtensionInfo
  {
    ConfigExtensionInfo(x.UsacConfigExtType(), x.usacConfigExtLength)
  }

  /** The configuration extensions reported, one per extension, in order. */
  function ExtensionInfos(xs: seq<SingleConfigExtension>): (infos: seq<ConfigExtensionInfo>)
    ensures |infos| == |xs|
    ensures forall k | 0 <= k < |xs| :: infos[k] == ExtensionInfo(xs[k])
  {
    if xs == [] then []
    else ExtensionInfos(xs[..|xs| - 1]) + [ExtensionInfo(xs[|xs| - 1])]
  }

  /** compatibleProfileLevels after going through `xs` in order: each
      compatible profile level set overwrites it with its indications, so
      the last one wins; empty when there is none. */
  function CompatibleLevels(xs: seq<SingleConfigExtension>): seq<nat>
  {
    if xs == [] then []
    else
      var last := xs[|xs| - 1];
      if last.CompatibleProfileLevelSet? then last.compatibleSetIndications
      else CompatibleLevels(xs[..|xs| - 1])
  }

  /** getConfigInfo() on a configuration: the scalar fields, the reference
      layout, the totals and the pre-roll flag copied; the groups, the
      elements and, only when the extension flag is set, the extensions and
      the compatible profile levels. */
  function InfoOf(c: Config): Info
  {
    var reference := LayoutInfo(c.referenceLayout);
    Info(c.mpegh3daProfileLevelIndicator, c.usacSamplingFrequencyIndex, c.usacSamplingFrequency,
         c.coreSbrFrameLengthIndex, c.cfgReserved, c.receiverDelayCompensation, reference,
         c.signals.numAudioChannels, c.signals.numAudioObjects, c.signals.numSaocTransportChannels,
         c.signals.numHoaTransportChannels, GroupInfos(c.signals.signalGroups, reference),
         ElementInfos(c.decoderConfig.elementConfigs),
         if c.usacConfigExtensionPresent then ExtensionInfos(c.configExtension.singleConfigExtensions) else [],
         if c.usacConfigExtensionPresent then CompatibleLevels(c.configExtension.singleConfigExtensions) else [],
         c.audioPreRollPresent)
  }

  /** isLowComplexityProfile: the profile and level indications 0x0B to
      0x0F (table 67 of ISO/IEC 23008-3). */
  predicate IsLowComplexityProfile(profileLevel: nat)
  {
    0x0B <= profileLevel <= 0x0F
  }

  /** isBaselineProfile: the indications 0x10 to 0x14 (table 67 of ISO/IEC
      23008-3). */
  predicate IsBaselineProfile(profileLevel: nat)
  {
    0x10 <= profileLevel <= 0x14
  }

  /** std::any_of(..., isBaselineProfile) over the indications of a set. */
  predicate AnyBaseline(indications: seq<nat>)
  {
    indications != [] && (IsBaselineProfile(indications[0]) || AnyBaseline(indications[1..]))
  }

  /** The extension loop of the query: some compatible profile level set
      with a baseline indication. */
  predicate AnyBaselineSet(xs: seq<SingleConfigExtension>)
  {
    xs != [] && ((xs[0].CompatibleProfileLevelSet? && AnyBaseline(xs[0].compatibleSetIndications)) || AnyBaselineSet(xs[1..]))
  }

  /** isLowComplexityWithBaselineCompatibleSignalling() on a configuration:
      a low complexity profile that carries a configuration extension with a
      compatible set naming a baseline profile. */
  predicate LowComplexityWithBaseline(c: Config)
  {
    && IsLowComplexityProfile(c.mpegh3daProfileLevelIndicator)
    && c.usacConfigExtensionPresent
    && AnyBaselineSet(c.configExtension.singleConfigExtensions)
  }

  /** A baseline indication at position `j` of the set at position `k`. */
  predicate BaselineAt(xs: seq<SingleConfigExtension>, k: nat, j: nat)
  {
    && k < |xs| && xs[k].CompatibleProfileLevelSet?
    && j < |xs[k].compatibleSetIndications| && IsBaselineProfile(xs[k].compatibleSetIndications[j])
  }

  // ---------------------------------------------------------------------
  // Properties

  /** The any_of over the indications holds exactly when one of them is a
      baseline profile. */
  lemma {:induction false} AnyBaselineIff(indications: seq<nat>)
    ensures AnyBaseline(indications) <==> exists j | 0 <= j < |indications| :: IsBaselineProfile(indications[j])
  {
    if indications != [] {
      AnyBaselineIff(indications[1..]);
      if exists j | 0 <= j < |indications| :: IsBaselineProfile(indications[j]) {
        var j :| 0 <= j < |indications| && IsBaselineProfile(indications[j]);
        if j > 0 {
          assert indications[1..][j - 1] == indications[j];
        }
      }
      if AnyBaseline(indications[1..]) {
        var j :| 0 <= j < |indications[1..]| && IsBaselineProfile(indications[1..][j]);
        assert indications[j + 1] == indications[1..][j];
      }
    }
  }

  /** The extension loop of the query finds a set exactly when some set
      holds a baseline indication. */
  lemma {:induction false} AnyBaselineSetIff(xs: seq<SingleConfigExtension>)
    ensures AnyBaselineSet(xs) <==> exists k: nat, j: nat :: BaselineAt(xs, k, j)
  {
    if xs != [] {
      AnyBaselineSetIff(xs[1..]);
      if xs[0].CompatibleProfileLevelSet? {
        AnyBaselineIff(xs[0].compatibleSetIndications);
      }
      if exists k: nat, j: nat :: BaselineAt(xs, k, j) {
        var k: nat, j: nat :| BaselineAt(xs, k, j);
        if k > 0 {
          assert xs[1..][k - 1] == xs[k];
          assert BaselineAt(xs[1..], k - 1, j);
        } else {
          assert IsBaselineProfile(xs[0].compatibleSetIndications[j]);
        }
      }
      if AnyBaselineSet(xs[1..]) {
        var k: nat, j: nat :| BaselineAt(xs[1..], k, j);
        assert xs[k + 1] == xs[1..][k];
        assert BaselineAt(xs, k + 1, j);
      }
      if xs[0].CompatibleProfileLevelSet? && AnyBaseline(xs[0].compatibleSetIndications) {
        var j :| 0 <= j < |xs[0].compatibleSetIndications| && IsBaselineProfile(xs[0].compatibleSetIndications[j]);
        assert BaselineAt(xs, 0, j);
      }
    }
  }

  /** The query holds exactly for a low complexity profile whose present
      configuration extension has a compatible set with a baseline
      indication; a profile outside 0x0B to 0x0F never passes. */
  lemma LowComplexityWithBaselineIff(c: Config)
    ensures LowComplexityWithBaseline(c) <==>
              && IsLowComplexityProfile(c.mpegh3daProfileLevelIndicator)
              && c.usacConfigExtensionPresent
              && exists k: nat, j: nat :: BaselineAt(c.configExtension.singleConfigExtensions, k, j)
  {
    AnyBaselineSetIff(c.configExtension.singleConfigExtensions);
  }

  /** The compatible profile levels reported are the indications of the
      last compatible set. */
  lemma {:induction false} LastCompatibleSetWins(xs: seq<SingleConfigExtension>, k: nat)
    requires k < |xs| && xs[k].CompatibleProfileLevelSet?
    requires forall j | k < j < |xs| :: !xs[j].CompatibleProfileLevelSet?
    ensures CompatibleLevels(xs) == xs[k].compatibleSetIndications
  {
    if k < |xs| - 1 {
      var prefix := xs[..|xs| - 1];
      assert prefix[k] == xs[k];
      forall j | k < j < |prefix| ensures !prefix[j].CompatibleProfileLevelSet? {
        assert prefix[j] == xs[j];
      }
      LastCompatibleSetWins(prefix, k);
    }
  }

  /** Without a compatible set no profile levels are reported; with one
      that the parser yields, at least one is. */
  lemma {:induction false} CompatibleLevelsEmpty(xs: seq<SingleConfigExtension>)
    requires ExtensionsWf(xs)
    ensures CompatibleLevels(xs) == [] <==> forall k | 0 <= k < |xs| :: !xs[k].CompatibleProfileLevelSet?
  {
    if xs != [] {
      var prefix := xs[..|xs| - 1];
      assert ExtensionWf(xs[|xs| - 1]);
      assert ExtensionsWf(prefix) by {
        forall k | 0 <= k < |prefix| ensures ExtensionWf(prefix[k]) {
          assert prefix[k] == xs[k];
        }
      }
      CompatibleLevelsEmpty(prefix);
      if forall k | 0 <= k < |prefix| :: !prefix[k].CompatibleProfileLevelSet? {
        forall k | 0 <= k < |xs| - 1 ensures !xs[k].CompatibleProfileLevelSet? {
          assert prefix[k] == xs[k];
        }
      } else {
        var k :| 0 <= k < |prefix| && prefix[k].CompatibleProfileLevelSet?;
        assert xs[k] == prefix[k];
      }
    }
  }

  /** The numbers of signals reported per group add up. */
  function InfoSignalCount(infos: seq<SignalGroupInfo>): nat
  {
    if infos == [] then 0 else InfoSignalCount(infos[..|infos| - 1]) + infos[|infos| - 1].numSignals
  }

  /** The numbers of signals reported for the groups add up to the number
      of signals of all groups. */
  lemma {:induction false} GroupInfosCount(groups: seq<SignalGroup>, reference: SpeakerConfigInfo)
    ensures InfoSignalCount(GroupInfos(groups, reference)) == SignalCount(groups)
  {
    if groups != [] {
      var infos := GroupInfos(groups, reference);
      assert infos[..|infos| - 1] == GroupInfos(groups[..|groups| - 1], reference);
      GroupInfosCount(groups[..|groups| - 1], reference);
    }
  }

  /** For a configuration the parser yields, the four totals reported add
      up to the numbers of signals reported per group. */
  lemma InfoTotalsAddUp(c: Config)
    requires ConfigWf(c)
    ensures var info := InfoOf(c);
            info.numAudioChannels + info.numAudioObjects + info.numSaocTransportChannels + info.numHoaTransportChannels
            == InfoSignalCount(info.signalGroups)
  {
    NumberChannelsIsSignalCount(c.signals);
    GroupInfosCount(c.signals.signalGroups, LayoutInfo(c.referenceLayout));
  }

  /** For a configuration the parser yields, audioPreRollPresent is
      reported exactly when some reported element is an extension element
      of the audio pre-roll type. */
  lemma InfoPreRoll(c: Config)
    requires ConfigWf(c)
    ensures InfoOf(c).audioPreRollPresent <==>
              exists k | 0 <= k < |InfoOf(c).elementConfigs| ::
                InfoOf(c).elementConfigs[k] == ElementConfigInfo(ID_USAC_EXT, ID_EXT_ELE_AUDIOPREROLL)
  {
    var elements := c.decoderConfig.elementConfigs;
    var infos := ElementInfos(elements);
    if c.audioPreRollPresent {
      var k :| 0 <= k < |elements| && IsPreRoll(elements[k]);
      assert infos[k] == ElementConfigInfo(ID_USAC_EXT, ID_EXT_ELE_AUDIOPREROLL);
    }
    if exists k | 0 <= k < |infos| :: infos[k] == ElementConfigInfo(ID_USAC_EXT, ID_EXT_ELE_AUDIOPREROLL) {
      var k :| 0 <= k < |infos| && infos[k] == ElementConfigInfo(ID_USAC_EXT, ID_EXT_ELE_AUDIOPREROLL);
      assert IsPreRoll(elements[k]);
    }
  }

  /** For a configuration the parser yields, compatible profile levels are
      reported exactly when the extension flag is set and some extension is
      a compatible profile level set. */
  lemma InfoCompatibleLevels(c: Config)
    requires ConfigWf(c)
    ensures InfoOf(c).compatibleProfileLevels != [] <==>
              && c.usacConfigExtensionPresent
              && exists k | 0 <= k < |c.configExtension.singleConfigExtensions| ::
                   c.configExtension.singleConfigExtensions[k].CompatibleProfileLevelSet?
  {
    if c.usacConfigExtensionPresent {
      CompatibleLevelsEmpty(c.configExtension.singleConfigExtensions);
    }
  }
}
