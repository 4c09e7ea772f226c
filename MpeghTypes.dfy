/** The parse tree of mpegh3daConfig() (ISO/IEC 23008-3), one datatype per
    structure of the parser's private header. The C++ structures are
    default-initialised and then filled field by field; here each structure is
    a value built once, and the default each field starts from is spelled out
    by the `Default…` constants. Integer fields are `nat`: every value the
    parser stores into them is bounded by the width it was read with (see the
    bound lemmas of the syntax modules), so no C++ integer type ever wraps,
    except the metadata element ID counter, which the signals syntax wraps
    modulo 256 explicitly. */
module MpeghTypes {
  import opened Bits

  // EUsacConfigExtType. The parser casts any escaped value into this enum, so
  // a configuration extension type is a number and these are its named values.
  const ID_CONFIG_EXT_FILL: nat := 0
  const ID_CONFIG_EXT_DOWNMIX: nat := 1
  const ID_CONFIG_EXT_LOUDNESS_INFO: nat := 2
  const ID_CONFIG_EXT_AUDIOSCENE_INFO: nat := 3
  const ID_CONFIG_EXT_HOA_MATRIX: nat := 4
  const ID_CONFIG_EXT_ICG: nat := 5
  const ID_CONFIG_EXT_SIG_GROUP_INFO: nat := 6
  const ID_CONFIG_EXT_COMPATIBLE_PROFILELVL_SET: nat := 7

  // usacElementType of the four element configurations.
  const ID_USAC_SCE: nat := 0
  const ID_USAC_CPE: nat := 1
  const ID_USAC_LFE: nat := 2
  const ID_USAC_EXT: nat := 3

  // usacExtElementType values the parser treats specially.
  const ID_EXT_ELE_FILL: nat := 0
  const ID_EXT_ELE_AUDIOPREROLL: nat := 3

  /** S3dacoreConfig: the core coder flags of an element. */
  datatype CoreConfig = CoreConfig(
    twMdct: bool,
    fullbandLpd: bool,
    noiseFilling: bool,
    enhancedNoiseFilling: bool,
    igfUseEnf: bool,
    igfUseHighRes: bool,
    igfUseWhitening: bool,
    igfAfterTnsSynth: bool,
    igfStartIndex: nat,
    igfStopIndex: nat)

  /** Every flag false and both IGF indices 0. */
  const DefaultCoreConfig := CoreConfig(false, false, false, false, false, false, false, false, 0, 0)

  /** SMpegh3daSpeakerDescription: one loudspeaker of a flexible layout. */
  datatype SpeakerDescription = SpeakerDescription(
    isCicpSpeakerIdx: bool,
    cicpSpeakerIdx: nat,
    elevationClass: nat,
    elevationAngleIdx: nat,
    elevationDirection: bool,
    azimuthAngleIdx: nat,
    azimuthDirection: bool,
    azimuthAngle: int,
    elevationAngle: int,
    isLfe: bool)

  const DefaultSpeakerDescription := SpeakerDescription(false, 0, 0, 0, false, 0, false, 0, 0, false)

  /** SFlexibleSpeakerConfig. The two lists are not index-aligned: a flag is
      present only for a description whose azimuth is neither 0 nor 180. */
  datatype FlexibleSpeakerConfig = FlexibleSpeakerConfig(
    angularPrecision: bool,
    speakerDescriptions: seq<SpeakerDescription>,
    alsoAddSymmetricPair: seq<bool>)

  const DefaultFlexibleSpeakerConfig := FlexibleSpeakerConfig(false, [], [])

  /** SSpeakerConfig3d: speakerLayoutType 0 is a CICP layout index, 1 a list
      of CICP loudspeaker indices, 2 explicit geometry, 3 no layout. */
  datatype SpeakerConfig = SpeakerConfig(
    speakerLayoutType: nat,
    cicpSpeakerLayoutIdx: nat,
    numSpeakers: nat,
    cicpSpeakerIdx: seq<nat>,
    flexibleSpeakerConfig: FlexibleSpeakerConfig)

  const DefaultSpeakerConfig := SpeakerConfig(0, 0, 0, [], DefaultFlexibleSpeakerConfig)

  /** SSignalGroup of the parse tree. */
  datatype SignalGroup = SignalGroup(
    signalGroupType: nat,
    bsNumberOfSignals: nat,
    differsFromReferenceLayout: bool,
    audioChannelLayout: SpeakerConfig,
    saocDmxLayoutPresent: bool,
    saocDmxChannelLayout: SpeakerConfig,
    metaDataElementIds: seq<byte>)

  /** SSignals3d: the signal groups and the running totals per group type. */
  datatype Signals = Signals(
    numAudioChannels: nat,
    numAudioObjects: nat,
    numSaocTransportChannels: nat,
    numHoaTransportChannels: nat,
    signalGroups: seq<SignalGroup>)

  const DefaultSignals := Signals(0, 0, 0, 0, [])

  /** The element configurations of mpegh3daDecoderConfig(). SSbrConfig and
      SMpsConfig are empty placeholders in the source and carry no data, so
      they do not appear here. */
  datatype ElementConfig =
    | SingleChannelElement(core: CoreConfig)
    | ChannelPairElement(
        core: CoreConfig,
        igfIndependentTiling: bool,
        stereoConfigIdx: nat,
        qceIndex: nat,
        shiftIndex0: bool,
        shiftChannel0: nat,
        shiftIndex1: bool,
        shiftChannel1: nat,
        lpdStereoIndex: bool)
    | LfeElement(core: CoreConfig)
    | ExtElement(
        usacExtElementType: nat,
        usacExtElementConfigLength: nat,
        usacExtElementDefaultLengthPresent: bool,
        usacExtElementDefaultLength: nat,
        usacExtElementPayloadFrag: bool)
  {
    /** usacElementType of the element. */
    function UsacElementType(): (t: nat)
      ensures t < 4
      ensures t == ID_USAC_EXT <==> ExtElement?
    {
      match this
      case SingleChannelElement(_) => ID_USAC_SCE
      case ChannelPairElement(_, _, _, _, _, _, _, _, _) => ID_USAC_CPE
      case LfeElement(_) => ID_USAC_LFE
      case ExtElement(_, _, _, _, _) => ID_USAC_EXT
    }
  }

  /** SDecoderConfig. */
  datatype DecoderConfig = DecoderConfig(elementLengthPresent: bool, elementConfigs: seq<ElementConfig>)

  const DefaultDecoderConfig := DecoderConfig(false, [])

  /** One configuration extension: SSingleConfigExtension, or its subtype
      SCompatibleProfileLevelSet, whose type is always
      ID_CONFIG_EXT_COMPATIBLE_PROFILELVL_SET. */
  datatype SingleConfigExtension =
    | PlainExtension(extType: nat, usacConfigExtLength: nat)
    | CompatibleProfileLevelSet(usacConfigExtLength: nat, compatibleSetIndications: seq<nat>)
  {
    /** usacConfigExtType of the extension. */
    function UsacConfigExtType(): (t: nat)
      ensures CompatibleProfileLevelSet? ==> t == ID_CONFIG_EXT_COMPATIBLE_PROFILELVL_SET
      ensures PlainExtension? ==> t == extType
    {
      match this
      case PlainExtension(t, _) => t
      case CompatibleProfileLevelSet(_, _) => ID_CONFIG_EXT_COMPATIBLE_PROFILELVL_SET
    }
  }

  /** SConfigExtension. */
  datatype ConfigExtension = ConfigExtension(singleConfigExtensions: seq<SingleConfigExtension>)

  const DefaultConfigExtension := ConfigExtension([])

  /** SMpegh3daConfig: the whole parsed configuration. */
  datatype Config = Config(
    mpegh3daProfileLevelIndicator: nat,
    usacSamplingFrequencyIndex: nat,
    usacSamplingFrequency: nat,
    coreSbrFrameLengthIndex: nat,
    cfgReserved: bool,
    receiverDelayCompensation: bool,
    usacConfigExtensionPresent: bool,
    referenceLayout: SpeakerConfig,
    signals: Signals,
    decoderConfig: DecoderConfig,
    configExtension: ConfigExtension,
    audioPreRollPresent: bool)

  /** The configuration a parser holds before any buffer was read. */
  const DefaultConfig := Config(0, 0, 0, 0, false, false, false, DefaultSpeakerConfig, DefaultSignals,
                                DefaultDecoderConfig, DefaultConfigExtension, false)
}
