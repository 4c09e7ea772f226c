/** CMpeghParser: the public parser object. It owns a CMpeghPimpl, which
    keeps the configuration of the last buffer read, and a flag that says
    whether that read succeeded. */
module MpeghParser {
  import opened Results
  import opened Bits
  import opened MpeghTypes
  import opened ExtensionSyntax
  import opened ConfigSyntax
  import opened ConfigInfo
  import opened Pimpl

  class MpeghParser {
    /** m_mpeghPimpl: created with the parser and never replaced. */
    const pimpl: MpeghPimpl
    /** m_validConfig. */
    var validConfig: bool

    /** The configuration a valid parser reports is one the parser yields. */
    ghost predicate Valid()
      reads this, pimpl
    {
      validConfig ==> ConfigWf(pimpl.config)
    }

    constructor ()
      ensures Valid() && !validConfig && fresh(pimpl) && pimpl.config == DefaultConfig
    {
      pimpl := new MpeghPimpl();
      validConfig := false;
    }

    /** addConfig(config): an empty buffer is refused; otherwise the
        implementation reads it, and the parser is valid exactly when that
        read succeeded with at most 7 bits left over. */
    method AddConfig(buffer: seq<byte>) returns (res: Result<()>)
      requires Valid()
      modifies this, pimpl
      ensures Valid()
      ensures validConfig <==> res.Ok?
      ensures buffer == [] ==> res == Fail(EmptyInput) && pimpl.config == old(pimpl.config)
      ensures buffer != [] && AddConfigOf(buffer).Fail? ==>
                res == Fail(AddConfigOf(buffer).error) && pimpl.config == old(pimpl.config)
      ensures buffer != [] && AddConfigOf(buffer).Ok? ==>
                && pimpl.config == AddConfigOf(buffer).value.0
                && res == (if AddConfigOf(buffer).value.1 then Ok(()) else Fail(TrailingData))
    {
      validConfig := false;
      if buffer == [] {
        return Fail(EmptyInput);
      }
      res := pimpl.AddConfig(buffer);
      if res.Fail? {
        return;
      }
      AddConfigSound(buffer);
      validConfig := true;
    }

    /** isValidConfig(). */
    function IsValidConfig(): (valid: bool)
      reads this, pimpl
      requires Valid()
      ensures valid ==> ConfigWf(pimpl.config)
      ensures valid == validConfig
    {
      validConfig
    }

    /** getConfigInfo(): refused without a valid configuration; otherwise
        the public view of the configuration, built group by group, element
        by element and extension by extension. */
    method GetConfigInfo() returns (res: Result<Info>)
      requires Valid()
      ensures !validConfig ==> res == Fail(NoValidConfig)
      ensures validConfig ==> res == Ok(InfoOf(pimpl.config))
    {
      if !validConfig {
        return Fail(NoValidConfig);
      }
      var config := pimpl.config;
      var referenceLayout := LayoutInfo(config.referenceLayout);
      var signalGroups := SignalGroupInfos(config.signals.signalGroups, referenceLayout);
      var elementConfigs := ElementConfigInfos(config.decoderConfig.elementConfigs);
      var configExtensions: seq<ConfigExtensionInfo> := [];
      var compatibleProfileLevels: seq<nat> := [];
      if config.usacConfigExtensionPresent {
        configExtensions, compatibleProfileLevels := ConfigExtensionInfos(config.configExtension.singleConfigExtensions);
      }
      res := Ok(Info(config.mpegh3daProfileLevelIndicator, config.usacSamplingFrequencyIndex,
                     config.usacSamplingFrequency, config.coreSbrFrameLengthIndex, config.cfgReserved,
                     config.receiverDelayCompensation, referenceLayout, config.signals.numAudioChannels,
                     config.signals.numAudioObjects, config.signals.numSaocTransportChannels,
                     config.signals.numHoaTransportChannels, signalGroups, elementConfigs, configExtensions,
                     compatibleProfileLevels, config.audioPreRollPresent));
    }

    /** The signal group loop of getConfigInfo(). */
    static method SignalGroupInfos(groups: seq<SignalGroup>, referenceLayout: SpeakerConfigInfo)
      returns (infos: seq<SignalGroupInfo>)
      ensures infos == GroupInfos(groups, referenceLayout)
    {
      infos := [];
      var i := 0;
      while i < |groups|
        invariant i <= |groups| && infos == GroupInfos(groups[..i], referenceLayout)
      {
        var signalGroup := groups[i];
        var audioChannelLayout := referenceLayout;
        if signalGroup.differsFromReferenceLayout {
          audioChannelLayout := LayoutInfo(signalGroup.audioChannelLayout);
        }
        assert groups[..i + 1][..i] == groups[..i];
        infos := infos + [SignalGroupInfo(signalGroup.signalGroupType, signalGroup.metaDataElementIds,
                                          audioChannelLayout, signalGroup.bsNumberOfSignals + 1)];
        i := i + 1;
      }
      assert groups[..i] == groups;
    }

    /** The element loop of getConfigInfo(). */
    static method ElementConfigInfos(elements: seq<ElementConfig>) returns (infos: seq<ElementConfigInfo>)
      ensures infos == ElementInfos(elements)
    {
      infos := [];
      var i := 0;
      while i < |elements|
        invariant i <= |elements| && infos == ElementInfos(elements[..i])
      {
        var elementConfig := elements[i];
        var extElementType := 0;
        if elementConfig.UsacElementType() == ID_USAC_EXT {
          extElementType := elementConfig.usacExtElementType;
        }
        assert elements[..i + 1][..i] == elements[..i];
        infos := infos + [ElementConfigInfo(elementConfig.UsacElementType(), extElementType)];
        i := i + 1;
      }
      assert elements[..i] == elements;
    }

    /** The extension loop of getConfigInfo(): each extension reported, and
        the indications of each compatible profile level set (an extension
        of type ID_CONFIG_EXT_COMPATIBLE_PROFILELVL_SET) copied over the
        previous ones. */
    static method ConfigExtensionInfos(xs: seq<SingleConfigExtension>)
      returns (infos: seq<ConfigExtensionInfo>, compatibleProfileLevels: seq<nat>)
      requires ExtensionsWf(xs)
      ensures infos == ExtensionInfos(xs)
      ensures compatibleProfileLevels == CompatibleLevels(xs)
    {
      infos, compatibleProfileLevels := [], [];
      var i := 0;
      while i < |xs|
        invariant i <= |xs| && infos == ExtensionInfos(xs[..i])
        invariant compatibleProfileLevels == CompatibleLevels(xs[..i])
      {
        var configExtension := xs[i];
        assert xs[..i + 1][..i] == xs[..i];
        infos := infos + [ConfigExtensionInfo(configExtension.UsacConfigExtType(), configExtension.usacConfigExtLength)];
        if configExtension.UsacConfigExtType() == ID_CONFIG_EXT_COMPATIBLE_PROFILELVL_SET {
          assert ExtensionWf(xs[i]);
          compatibleProfileLevels := configExtension.compatibleSetIndications;
        }
        i := i + 1;
      }
      assert xs[..i] == xs;
    }

    /** isLowComplexityWithBaselineCompatibleSignalling(): refused without a
        valid configuration; otherwise whether its profile is a low
        complexity one and a compatible set of its configuration extension
        names a baseline profile. */
    function IsLowComplexityWithBaselineCompatibleSignalling(): (r: Result<bool>)
      reads this, pimpl
      requires Valid()
      ensures !validConfig ==> r == Fail(NoValidConfig)
      ensures validConfig ==> r == Ok(LowComplexityWithBaseline(pimpl.config))
    {
      if !validConfig then Fail(NoValidConfig)
      else Ok(LowComplexityWithBaseline(pimpl.config))
    }
  }

  /** A buffer that addConfig accepts holds a configuration the parser
      yields. */
  lemma AddConfigSound(buffer: seq<byte>)
    requires AddConfigOf(buffer).Ok?
    ensures ConfigWf(AddConfigOf(buffer).value.0)
  {
    var bits := BitsOfBytes(buffer);
    ConfigSound(bits, 0, Mpegh3daConfigAt(bits, 0).value);
  }
}
