# MPEG-H 3D Audio configuration parser, modelled in Dafny

This project models the configuration parser of the MMT audio parser library:
`CMpeghParser` with its implementation object `CMpeghPimpl`, and the small
bit-reading utilities they share. Given the bytes of an `mpegh3daConfig()`
structure (ISO/IEC 23008-3), the parser reads, field by field:

- the header: profile level, sampling frequency, core/SBR frame length index and two flags;
- the reference `speakerConfig3d()` layout;
- the `signals3d()` signal groups, issuing meta-data element IDs as it goes;
- the `mpegh3daDecoderConfig()` element list;
- the optional `mpegh3daConfigExtension()` list.

It refuses the buffer when more than 7 bits are left over. The public object
then reports a summary (`SConfigInfo`) and answers whether the stream is a
low-complexity profile that signals baseline compatibility.

The model has two layers.

- **The bitstream syntax.** Pure functions over a bit sequence and a position
  (`SpeakerSyntax`, `LayoutSyntax`, `SignalsSyntax`, `DecoderSyntax`,
  `ExtensionSyntax`, `ConfigSyntax`). Each returns `Result<Parsed<T>>`: the
  value read and the position after it, or the error the source raises. The
  source raises errors with `ILO_ASSERT`, or by the bit reader throwing when
  a read runs past the end. The lemmas about these functions state:
  - well-formedness of what is read (field ranges, list lengths, counts);
  - the number of bits consumed;
  - exactly when each error arises;
  - round trips: reading back what a writer encodes gives the same value.
- **The parser objects.** Classes that follow the C++ step by step:
  - `Bits.BitParser`: a read position over a constant bit sequence;
  - `Pimpl.MpeghPimpl`: the stored configuration, with one method per parsing
    member function of the C++ class, plus small helpers (`ReadSpeaker`,
    `SignalsPass`, `ElementPass`, `ExtensionPass`, `ReadShift`,
    `ReadConfigTail` and others) that split a long function into parts. The
    LFE element config (which reads nothing) is the function
    `DecoderSyntax.LfeElementConfig`. `sbrConfig()` appears only as the
    `NotImplemented` failure where SBR is on, and `mps121Config()`, which is
    called only after `sbrConfig()`, is never reached;
  - `MpeghParser.MpeghParser`: the public object.

  Every reading method is proved to return what the syntax function returns,
  and to leave the reader where that function says. Each loop whose body
  parses a nested structure (speakers, signal groups, elements, extensions)
  goes through a one-pass helper whose contract is one step of the syntax
  function's loop. The plain field loops (the speaker index list, the
  meta-data element IDs, the compatible set's bytes, the fill bytes) carry
  their own invariants.

`ConfigInfo` defines the public summary and the profile queries. The lemmas
there relate the summary to the parsed configuration.

## Model

| member | source | states |
|---|---|---|
| Bits.BitsOfBytes | src/mpeghparserpimpl.cpp:173 | the reader over a byte buffer sees 8 bits per byte, most significant bit first |
| Bits.ReadAt | src/mpeghparserpimpl.cpp:197 | `read(n)` succeeds exactly when n bits are left; it advances by n and yields a value below 2^n; otherwise the reader is exhausted |
| Bits.BitParser.constructor | src/mpeghparserpimpl.cpp:173 | a new reader over the buffer starts at position 0 |
| Bits.BitParser.NofBitsLeft | src/mpeghparserpimpl.cpp:175 | the bits left plus the position is the buffer length |
| Bits.BitParser.Read | src/mpeghparserpimpl.cpp:197 | reads exactly as `ReadAt` and moves the position to its end |
| Bits.BitParser.Seek | src/parserutils.cpp:101 | a seek within the buffer succeeds and sets the position; a seek beyond it fails and leaves the position unchanged |
| Bits.EncodeValue | src/mpeghparserpimpl.cpp:197 | a value below 2^n written in n bits reads back as itself |
| Bits.FieldValueBound | src/mpeghparserpimpl.cpp:197 | an n-bit field is below 2^n |
| Bits.AllSetIffMax | src/parserutils.cpp:119 | a field equals 2^n - 1 (the escape code) exactly when all its bits are set |
| ParserUtils.SkipBitsAt | src/parserutils.cpp:94-102 | skipping 0 bits does nothing; otherwise it succeeds exactly when the bits are there, and moves by that many |
| ParserUtils.SkipBits | src/parserutils.cpp:94-102 | the method does what `SkipBitsAt` says, via tell and seek |
| ParserUtils.ReadBoolAt | src/parserutils.cpp:104-106 | a flag is the next bit; it fails only at the end of the buffer |
| ParserUtils.ReadBool | src/parserutils.cpp:104-106 | the method does what `ReadBoolAt` says |
| ParserUtils.EscapedValue | src/parserutils.cpp:116-128 | an escaped value is at most (2^n1-1)+(2^n2-1)+(2^n3-1); it occupies the width its stages need; it fails only when the reader runs out |
| ParserUtils.EscapedValueTo64Bit | src/parserutils.cpp:116-128 | the method does what `EscapedValue` says |
| ParserUtils.EscapedFirstStage | src/parserutils.cpp:118-119 | a first field that is not all ones is the value itself |
| ParserUtils.EscapedSecondStage | src/parserutils.cpp:119-122 | after an escaped first field, the value is 2^n1-1 plus the second field, unless that one escapes too |
| ParserUtils.EscapedThirdStage | src/parserutils.cpp:122-125 | after two escaped fields, the value is the sum of both escape codes and the third field |
| ParserUtils.EscapedValue32 | src/parserutils.cpp:108-114 | the 32-bit read yields the escaped value when it fits in 32 bits; it fails with ValueOutOfRange when it does not; it fails with ReaderExhausted when the escaped read does |
| ParserUtils.EscapedValueTo32Bit | src/parserutils.cpp:108-114 | the method does what `EscapedValue32` says |
| ParserUtils.EscapedValue32Fits | src/parserutils.cpp:108-114 | with field widths of at most 16, as every call site uses, the 32-bit check never fires |
| ParserUtils.EscapedRoundTrip | src/parserutils.cpp:116-128 | every value up to the maximum, written in escaped form, reads back as itself with its exact width |
| ParserUtils.EscapedRoundTripIn | src/parserutils.cpp:116-128 | the same round trip holds wherever in a bitstream the escaped value sits |
| ParserUtils.ReadFieldsFrom | src/mpeghparserpimpl.cpp:318-323 | reading count fields of one width succeeds exactly when count is 0 or the bits suffice; it yields count values below 2^width and advances by count*width |
| ParserUtils.FieldsRoundTrip | src/mpeghparserpimpl.cpp:318-323 | values that fit the width, written one after another, read back as the same list |
| MpeghTables.SamplingFrequency | src/mpeghparserpimpl.cpp:103-112 | the table gives 0 exactly for the unassigned indices 0x0d, 0x0e and 0x1c-0x1e; every other index gives 7350 to 96000 Hz |
| MpeghTypes.UsacElementType | src/mpeghparserpimpl.cpp:418-445 | each element variant carries its 2-bit usacElementType; the value is 3 exactly for extension elements |
| MpeghTypes.UsacConfigExtType | src/mpeghparserpimpl.cpp:607 | a compatible profile level set has type 7; any other extension keeps the type read from the stream |
| SpeakerSyntax.Mpegh3daSpeakerDescription | src/mpeghparserpimpl.cpp:354-408 | reading a speaker description fails only when the reader runs out |
| SpeakerSyntax.ElevationFields | src/mpeghparserpimpl.cpp:368-381 | reading the elevation fields fails only when the reader runs out |
| SpeakerSyntax.AzimuthFields | src/mpeghparserpimpl.cpp:382-404 | reading the azimuth fields fails only when the reader runs out |
| SpeakerSyntax.ElevationSound | src/mpeghparserpimpl.cpp:368-381 | the elevation index is 0 unless the class is 3; there is no direction when the index is 0; the index fits 7 or 5 bits; the bits consumed match the fields |
| SpeakerSyntax.AzimuthSound | src/mpeghparserpimpl.cpp:382-404 | the azimuth index fits 8 or 6 bits; a direction is read only for angles other than 0 and 180 degrees; the bits consumed match |
| SpeakerSyntax.ExplicitSound | src/mpeghparserpimpl.cpp:367-406 | an explicit description is well-formed: the angles are the scaled and signed indices; the bits consumed match |
| SpeakerSyntax.DescriptionSound | src/mpeghparserpimpl.cpp:354-408 | every description read is well-formed: CICP speakers take their geometry and LFE flag from the tables; explicit ones as above; the width is exact |
| SpeakerSyntax.ElevationRoundTrip | src/mpeghparserpimpl.cpp:368-381 | well-formed elevation fields, written, read back unchanged |
| SpeakerSyntax.AzimuthRoundTrip | src/mpeghparserpimpl.cpp:382-404 | well-formed azimuth fields, written, read back unchanged |
| SpeakerSyntax.CicpRoundTrip | src/mpeghparserpimpl.cpp:358-366 | a CICP speaker index, written, reads back as the same description at either angular precision |
| SpeakerSyntax.ExplicitRoundTrip | src/mpeghparserpimpl.cpp:367-406 | an explicit description, written, reads back unchanged |
| SpeakerSyntax.DescriptionRoundTrip | src/mpeghparserpimpl.cpp:354-408 | every well-formed description, written, reads back unchanged |
| SpeakerSyntax.WriteSpeakerDescription | src/mpeghparserpimpl.cpp:354-408 | the writer emits exactly the number of bits the reader consumes |
| LayoutSyntax.SpeakerList | src/mpeghparserpimpl.cpp:339-350 | reading the flexible speaker list fails only when the reader runs out |
| LayoutSyntax.SpeakerListSound | src/mpeghparserpimpl.cpp:339-350 | every description in the list is well-formed; a symmetric-pair flag is read after each description with a mirror; the width is exact |
| LayoutSyntax.SpeakerListCounts | src/mpeghparserpimpl.cpp:339-350 | there is one flag per mirrored speaker; descriptions plus set flags make numSpeakers, or one more when the last pair overshoots; a positive count gives a non-empty list |
| LayoutSyntax.SpeakerLoopIsList | src/mpeghparserpimpl.cpp:339-350 | the C++ counting loop (the index steps by 2 after a symmetric pair) reads exactly the recursive speaker list |
| LayoutSyntax.SpeakerLoopFromStart | src/mpeghparserpimpl.cpp:339-350 | the loop started at index 0 with empty lists is the speaker list for numSpeakers |
| LayoutSyntax.Mpegh3daFlexibleSpeakerConfig | src/mpeghparserpimpl.cpp:332-352 | reading a flexible layout fails only when the reader runs out |
| LayoutSyntax.FlexibleSound | src/mpeghparserpimpl.cpp:332-352 | a flexible layout read is well-formed, and its width is exact |
| LayoutSyntax.CountedLayout | src/mpeghparserpimpl.cpp:316-328 | reading the per-speaker part of a counted layout fails only when the reader runs out |
| LayoutSyntax.CountedLayoutSound | src/mpeghparserpimpl.cpp:316-328 | a counted layout keeps its type and count and has CICP layout index 0; type 1 has one 7-bit index per speaker; type 2 has a flexible layout; type 3 has neither |
| LayoutSyntax.SpeakerConfigSound | src/mpeghparserpimpl.cpp:297-330 | every layout read is well-formed: type 0 has an index from the CICP map and that index's speaker count; the other types have 1 to 65822 speakers; the width is exact |
| LayoutSyntax.SpeakerConfigFailures | src/mpeghparserpimpl.cpp:297-330 | a layout fails only with ReaderExhausted or InvalidLayoutIndex; InvalidLayoutIndex arises exactly when type 0 carries a 6-bit index outside the CICP map |
| LayoutSyntax.LayoutIndexFits | src/mpeghparserpimpl.cpp:306-311 | the CICP layout indices in the map are 1 to 20 |
| LayoutSyntax.CicpLayoutRoundTrip | src/mpeghparserpimpl.cpp:302-315 | a CICP layout index, written, reads back with its speaker count |
| LayoutSyntax.IndexLayoutRoundTrip | src/mpeghparserpimpl.cpp:316-323 | a layout of CICP speaker indices, written, reads back unchanged |
| LayoutSyntax.EmptyLayoutRoundTrip | src/mpeghparserpimpl.cpp:316-317 | a type-3 layout, written, reads back as its speaker count alone |
| LayoutSyntax.IndexListRoundTrip | src/mpeghparserpimpl.cpp:318-323 | the list of 7-bit speaker indices, written, reads back unchanged |
| LayoutSyntax.CountRead | src/mpeghparserpimpl.cpp:317 | for layout types 1 to 3, the speaker count is the escaped value plus 1 |
| SignalsSyntax.IdsFrom | src/mpeghparserpimpl.cpp:262-265 | a group of n signals is issued n meta-data element IDs |
| SignalsSyntax.IdsFromIndex | src/mpeghparserpimpl.cpp:262-265 | the k-th ID issued is the counter plus k, wrapped to 8 bits |
| SignalsSyntax.IdsContinue | src/mpeghparserpimpl.cpp:250 | IDs issued group after group are those of one run from 0: the counter carries across groups |
| SignalsSyntax.OptionalLayoutSound | src/mpeghparserpimpl.cpp:257-260 | an optional layout is well-formed when present, and the default layout when absent |
| SignalsSyntax.GroupSound | src/mpeghparserpimpl.cpp:252-292 | a group read has type 0 to 3: channels and objects get one ID per signal; HOA gets one ID; SAOC gets none; only the types that own a layout have one; the width is exact |
| SignalsSyntax.GroupTypeFailure | src/mpeghparserpimpl.cpp:292 | a group fails with InvalidSignalGroupType exactly when its 3-bit type is 4 or more, and only after its signal count has been read |
| SignalsSyntax.OptionalLayoutFailure | src/mpeghparserpimpl.cpp:257-260 | a nested layout never raises the group-type error |
| SignalsSyntax.GroupErrors | src/mpeghparserpimpl.cpp:252-292 | a group fails only with a reader, range, layout-index or group-type error |
| SignalsSyntax.SignalsLoopErrors | src/mpeghparserpimpl.cpp:251-293 | the group loop fails only with those errors |
| SignalsSyntax.SignalsErrors | src/mpeghparserpimpl.cpp:246-295 | `signals3d()` fails only with those errors |
| SignalsSyntax.AddGroupInv | src/mpeghparserpimpl.cpp:255-290 | adding a well-formed group keeps the signal invariant: per-type totals, and IDs issued consecutively |
| SignalsSyntax.SignalsLoopSound | src/mpeghparserpimpl.cpp:251-293 | the group loop keeps the invariant, appends one group per pass and leaves earlier groups unchanged |
| SignalsSyntax.SignalsSound | src/mpeghparserpimpl.cpp:246-295 | `signals3d()` yields exactly the 5-bit count field + 1 groups (so 1 to 32); each total counts its type's signals; the IDs run 0, 1, 2, ... mod 256 across groups |
| SignalsSyntax.TotalsAddUp | src/mpeghparserpimpl.cpp:212-215 | the four per-type totals add up to the number of signals of all groups |
| SignalsSyntax.SignalCountBound | src/mpeghparserpimpl.cpp:212-215 | the total signal count is at most 65822 per group, so the 32-bit channel sum cannot wrap |
| SignalsSyntax.GroupsWfIndex | src/mpeghparserpimpl.cpp:251 | every group of a well-formed list is well-formed |
| DecoderSyntax.CoreConfigAt | src/mpeghparserpimpl.cpp:575-600 | reading the core config fails only when the reader runs out |
| DecoderSyntax.CoreSound | src/mpeghparserpimpl.cpp:575-600 | the IGF fields are read only with enhanced noise filling, and are false/0 otherwise; the start index fits 5 bits and the stop index 4; the width is 4 or 17 bits |
| DecoderSyntax.CoreRoundTrip | src/mpeghparserpimpl.cpp:575-600 | a well-formed core config, written, reads back unchanged |
| DecoderSyntax.CoreFailure | src/mpeghparserpimpl.cpp:575-600 | the core config fails exactly when fewer than 4 bits are left, or enhanced noise filling is set and fewer than 17 are left |
| DecoderSyntax.BitLength | src/mpeghparserpimpl.cpp:492 | nBits = floor(log2(numChannels-1)) + 1 is the bit length k with 2^(k-1) <= numChannels-1 < 2^k |
| DecoderSyntax.BitLengthUnique | src/mpeghparserpimpl.cpp:492 | that bit length is the only such k |
| DecoderSyntax.LfeElementConfig | src/mpeghparserpimpl.cpp:522-539 | an LFE element reads nothing; every core flag is false and both indices are 0 |
| DecoderSyntax.ShiftSound | src/mpeghparserpimpl.cpp:494-511 | a shift channel is read (in nBits) only when its flag is set, and is 0 otherwise |
| DecoderSyntax.SingleChannelSound | src/mpeghparserpimpl.cpp:450-462 | a single-channel element read has a well-formed core, and its width is exact |
| DecoderSyntax.SingleChannelNeedsSbr | src/mpeghparserpimpl.cpp:455-457 | a single-channel element fails with NotImplemented exactly when SBR is on and the core config was read |
| DecoderSyntax.ChannelPairSound | src/mpeghparserpimpl.cpp:464-520 | a channel-pair element read is well-formed: IGF tiling only with enhanced noise filling; stereoConfigIdx 0; shift 0 only when qceIndex > 0; LPD stereo only without SBR and QCE; shift channels fit nBits; the width is exact |
| DecoderSyntax.ChannelPairNeedsTwoChannels | src/mpeghparserpimpl.cpp:470 | a channel-pair element fails with InvalidChannelCount exactly when there are fewer than 2 channels |
| DecoderSyntax.ExtFieldsSound | src/mpeghparserpimpl.cpp:546-554 | the extension element type and config length are escaped values; a default length is present exactly when it is positive, and it is the escaped value plus 1 |
| DecoderSyntax.ExtFieldsFailure | src/mpeghparserpimpl.cpp:546-554 | reading those fields fails only when the reader runs out |
| DecoderSyntax.ExtElementSound | src/mpeghparserpimpl.cpp:541-573 | an extension element read is well-formed: fill and pre-roll elements have config length 0; other types skip their config bytes; the width is exact |
| DecoderSyntax.ExtElementMalformed | src/mpeghparserpimpl.cpp:555-567 | an extension element fails with MalformedExtension exactly when a fill or pre-roll element declares a non-zero config length |
| DecoderSyntax.ElementSound | src/mpeghparserpimpl.cpp:417-445 | every element read is well-formed; its usacElementType is the 2-bit code read; the width is exact |
| DecoderSyntax.ElementErrors | src/mpeghparserpimpl.cpp:417-445 | an element fails only with a reader, range, not-implemented, channel-count or malformed-extension error |
| DecoderSyntax.ElementsLoopErrors | src/mpeghparserpimpl.cpp:417-446 | the element loop fails only with those errors |
| DecoderSyntax.DecoderErrors | src/mpeghparserpimpl.cpp:410-448 | `mpegh3daDecoderConfig()` fails only with those errors |
| DecoderSyntax.HasPreRollAppend | src/mpeghparserpimpl.cpp:562-563 | appending an element raises the pre-roll flag exactly when that element is an audio pre-roll extension |
| DecoderSyntax.ElementsLoopSound | src/mpeghparserpimpl.cpp:417-446 | the element loop appends one well-formed element per pass and leaves earlier ones unchanged |
| DecoderSyntax.DecoderSound | src/mpeghparserpimpl.cpp:410-448 | the decoder config has exactly escaped(4,8,16) + 1 well-formed elements (so 1 to 65806); with SBR on, all of them are LFE or extension elements |
| ExtensionSyntax.CompatibleSetAt | src/mpeghparserpimpl.cpp:602-620 | reading a compatible profile level set fails only when the reader runs out |
| ExtensionSyntax.CompatibleSetSound | src/mpeghparserpimpl.cpp:602-620 | a compatible set keeps the declared length, has exactly the 4-bit count field + 1 8-bit indications (so 1 to 16), and consumes exactly 8 bits plus 8 per indication |
| ExtensionSyntax.CompatibleSetRoundTrip | src/mpeghparserpimpl.cpp:602-620 | a list of 1 to 16 indications, written, reads back unchanged whatever length is declared |
| ExtensionSyntax.FillBytesAt | src/mpeghparserpimpl.cpp:636-643 | reading fill bytes fails only when the reader runs out; their value is not checked |
| ExtensionSyntax.SingleExtensionSound | src/mpeghparserpimpl.cpp:628-658 | each extension read is well-formed; fill and unknown extensions consume 8 bits per declared byte; the width is exact |
| ExtensionSyntax.SingleExtensionFailure | src/mpeghparserpimpl.cpp:628-658 | a single extension fails only when the reader runs out |
| ExtensionSyntax.ExtensionsLoopFailure | src/mpeghparserpimpl.cpp:625-659 | the extension loop fails only when the reader runs out |
| ExtensionSyntax.ConfigExtensionFailure | src/mpeghparserpimpl.cpp:622-662 | `mpegh3daConfigExtension()` fails only when the reader runs out |
| ExtensionSyntax.ExtensionsLoopSound | src/mpeghparserpimpl.cpp:625-659 | the extension loop appends one well-formed extension per pass and leaves earlier ones unchanged |
| ExtensionSyntax.ConfigExtensionSound | src/mpeghparserpimpl.cpp:622-662 | the configuration extension holds exactly escaped(2,4,8) + 1 well-formed extensions (so 1 to 274) |
| ConfigSyntax.ConfigHeaderAt | src/mpeghparserpimpl.cpp:197-208 | reading the header fails only when the reader runs out |
| ConfigSyntax.HeaderSound | src/mpeghparserpimpl.cpp:197-208 | the header has 8-bit profile, 5-bit index and 3-bit frame length index; the frequency is read in 24 bits for index 0x1f and taken from the table otherwise; every other part keeps its default |
| ConfigSyntax.SbrRatioIndex | src/mpeghparserpimpl.cpp:216-234 | sbrRatioIndex is below 4, and is 0 exactly for frame length indices 0 and 1 |
| ConfigSyntax.NumberChannelsIsSignalCount | src/mpeghparserpimpl.cpp:212-215 | numberChannels is the number of signals over all groups |
| ConfigSyntax.FrameLengthChecked | src/mpeghparserpimpl.cpp:210-217 | the configuration fails with InvalidFrameLengthIndex exactly when the header, layout and signals are read and the frame length index exceeds 4 |
| ConfigSyntax.TailFrameLength | src/mpeghparserpimpl.cpp:217 | after the signals, the frame length check fails exactly for indices above 4 |
| ConfigSyntax.ConfigPrefix | src/mpeghparserpimpl.cpp:197-211 | a configuration read starts with a sound header, a well-formed reference layout and 1 to 32 signal groups |
| ConfigSyntax.TailSound | src/mpeghparserpimpl.cpp:216-241 | the rest changes only the decoder config, the extension flag, the extension list and the pre-roll flag; elements are well-formed for the sbrRatioIndex and channel count; extensions are present only when flagged; pre-roll is set exactly when some element is an audio pre-roll |
| ConfigSyntax.ConfigSound | src/mpeghparserpimpl.cpp:193-244 | every configuration the parser yields satisfies the whole configuration invariant |
| ConfigSyntax.SbrOnlyLfeAndExt | src/mpeghparserpimpl.cpp:216-236 | with frame length index 2 or more (SBR on), a configuration read holds only LFE and extension elements |
| Pimpl.MpeghPimpl.constructor | src/mpeghparserpimpl.h:235-249 | a new implementation holds the default configuration |
| Pimpl.MpeghPimpl.Mpegh3daSpeakerDescription | src/mpeghparserpimpl.cpp:354-408 | reads a speaker description exactly as the syntax says |
| Pimpl.MpeghPimpl.ReadSpeaker | src/mpeghparserpimpl.cpp:340-349 | one pass of the flexible loop is one step of the loop's syntax, and the index grows |
| Pimpl.MpeghPimpl.Mpegh3daFlexibleSpeakerConfig | src/mpeghparserpimpl.cpp:332-352 | the loop reads exactly the flexible layout of the syntax |
| Pimpl.MpeghPimpl.SpeakerConfig3d | src/mpeghparserpimpl.cpp:297-330 | reads a layout exactly as the syntax says |
| Pimpl.MpeghPimpl.PushMetaDataElementIds | src/mpeghparserpimpl.cpp:262-265 | the ID loop pushes the IDs of `IdsFrom` and leaves the 8-bit counter advanced by their number |
| Pimpl.MpeghPimpl.SignalsPass | src/mpeghparserpimpl.cpp:252-292 | one pass of the group loop is one step of the loop's syntax, and the 8-bit counter follows the IDs issued |
| Pimpl.MpeghPimpl.Signals3d | src/mpeghparserpimpl.cpp:246-295 | reads the signal groups exactly as the syntax says |
| Pimpl.MpeghPimpl.Mpegh3daCoreConfig | src/mpeghparserpimpl.cpp:575-600 | reads the core config exactly as the syntax says |
| Pimpl.MpeghPimpl.Mpegh3daSingleChannelElementConfig | src/mpeghparserpimpl.cpp:450-462 | reads a single-channel element exactly as the syntax says |
| Pimpl.MpeghPimpl.Mpegh3daChannelPairElementConfig | src/mpeghparserpimpl.cpp:464-520 | reads a channel-pair element exactly as the syntax says |
| Pimpl.MpeghPimpl.Mpegh3daExtElementConfig | src/mpeghparserpimpl.cpp:541-573 | reads an extension element exactly as the syntax says, and sets the pre-roll flag for an audio pre-roll |
| Pimpl.MpeghPimpl.ElementPass | src/mpeghparserpimpl.cpp:418-445 | one pass of the element loop is one step of the loop's syntax, and keeps the pre-roll flag equal to "some element so far is a pre-roll" |
| Pimpl.MpeghPimpl.Mpegh3daDecoderConfig | src/mpeghparserpimpl.cpp:410-448 | reads the decoder config exactly as the syntax says; the pre-roll flag ends up set exactly when it was set before or some element is a pre-roll |
| Pimpl.MpeghPimpl.Mpegh3daCompatibleProfileLevelSet | src/mpeghparserpimpl.cpp:602-620 | reads a compatible set exactly as the syntax says |
| Pimpl.MpeghPimpl.ReadFillBytes | src/mpeghparserpimpl.cpp:637-644 | consumes the fill bytes exactly as the syntax says |
| Pimpl.MpeghPimpl.ExtensionPass | src/mpeghparserpimpl.cpp:628-658 | one pass of the extension loop is one step of the loop's syntax |
| Pimpl.MpeghPimpl.Mpegh3daConfigExtension | src/mpeghparserpimpl.cpp:622-662 | reads the configuration extension exactly as the syntax says |
| Pimpl.MpeghPimpl.Mpegh3daConfig | src/mpeghparserpimpl.cpp:193-244 | reads `mpegh3daConfig()` exactly as the syntax says |
| Pimpl.MpeghPimpl.AddConfig | src/mpeghparserpimpl.cpp:172-179 | a parse error leaves the stored configuration unchanged; otherwise the configuration is stored, and the call still fails when 8 or more bits are left over |
| MpeghParser.MpeghParser.constructor | src/mpeghparser.cpp:96-97 | a new parser has no valid configuration |
| MpeghParser.MpeghParser.AddConfig | src/mpeghparser.cpp:101-106 | an empty buffer is refused; the parser is valid afterwards exactly when the read succeeded, and a valid parser's configuration satisfies the configuration invariant |
| MpeghParser.AddConfigSound | src/mpeghparser.cpp:104-105 | a buffer the implementation accepts holds a well-formed configuration |
| MpeghParser.MpeghParser.IsValidConfig | src/mpeghparser.cpp:108-110 | reports the validity flag; when true, the stored configuration is well-formed |
| MpeghParser.MpeghParser.GetConfigInfo | src/mpeghparser.cpp:112-191 | refused without a valid configuration; otherwise the summary of the stored configuration |
| MpeghParser.MpeghParser.SignalGroupInfos | src/mpeghparser.cpp:132-151 | the group loop builds the group summaries: type, IDs, signal count + 1, and the reference layout unless the group has its own |
| MpeghParser.MpeghParser.ElementConfigInfos | src/mpeghparser.cpp:153-167 | the element loop reports each element type, and the extension type for extension elements (0 otherwise) |
| MpeghParser.MpeghParser.ConfigExtensionInfos | src/mpeghparser.cpp:168-189 | the extension loop reports each type and length, and the indications of the last compatible set |
| MpeghParser.MpeghParser.IsLowComplexityWithBaselineCompatibleSignalling | src/mpeghparser.cpp:203-225 | refused without a valid configuration; otherwise the answer of `LowComplexityWithBaseline` |
| ConfigInfo.GroupInfos | src/mpeghparser.cpp:132-151 | one summary per signal group, in order |
| ConfigInfo.ElementInfos | src/mpeghparser.cpp:153-167 | one summary per element, in order |
| ConfigInfo.ExtensionInfos | src/mpeghparser.cpp:168-177 | one summary per extension, in order |
| ConfigInfo.GroupInfosCount | src/mpeghparser.cpp:136 | the summaries' signal counts add up to the groups' signal count |
| ConfigInfo.InfoTotalsAddUp | src/mpeghparser.cpp:125-128 | in the summary of a parsed configuration, the four channel totals add up to the groups' signal counts |
| ConfigInfo.InfoPreRoll | src/mpeghparser.cpp:130 | the summary reports pre-roll exactly when it lists an extension element of the audio pre-roll type |
| ConfigInfo.InfoCompatibleLevels | src/mpeghparser.cpp:168-189 | the summary lists compatible levels exactly when extensions are present and one of them is a compatible set |
| ConfigInfo.LastCompatibleSetWins | src/mpeghparser.cpp:178-187 | with several compatible sets, the last one's indications are reported |
| ConfigInfo.CompatibleLevelsEmpty | src/mpeghparser.cpp:178-187 | no levels are reported exactly when no extension is a compatible set |
| ConfigInfo.AnyBaselineIff | src/mpeghparser.cpp:198-201 | a list names a baseline profile exactly when one of its indications is 0x10 to 0x14 |
| ConfigInfo.AnyBaselineSetIff | src/mpeghparser.cpp:212-221 | some compatible set names a baseline profile exactly when some indication of some set is a baseline one |
| ConfigInfo.LowComplexityWithBaselineIff | src/mpeghparser.cpp:193-225 | the answer is true exactly when the profile is 0x0B to 0x0F, extensions are present, and some compatible set names a baseline profile; a baseline profile itself answers false |

## Left out

- CBitParser (the bit reader of the ilo library) is not part of this model.
  - The reader is modelled as a bit sequence read most significant bit first.
  - A read past the end, and a seek past the end, fail with ReaderExhausted.
- Exceptions are modelled as `Result` values: each `ILO_ASSERT`, `std::out_of_range` and reader failure becomes an `Error` constant.
  - The partly built C++ object is dropped on failure; only the stored configuration matters.
- `sbrConfig()` and `mps121Config()` always fail in the source ("not implemented"). The model fails with NotImplemented at the same point.
  - Because stereoConfigIdx is read only with SBR on, a channel-pair element with SBR on always fails at `sbrConfig()`.
- The warning that a fill byte is not 0xA5 is logging only, and is not modelled. The bytes are still consumed.
- Pimpl.MpeghPimpl.AddConfig: as in the source, the new configuration is stored before the left-over check. A call that fails because of trailing data leaves the new tree in place; the public parser is then not valid.
- `compatibleProfileLevels` of the internal configuration structure is never written by the source, and is not modelled. The public summary's list is modelled.
- A compatible set's declared length is carried but not used to bound what is consumed, as in the source.
- Integer widths:
  - Fields are unbounded naturals whose ranges are proved from the bit widths (at most 65822 signals per group, 65806 elements).
  - The 32-bit sums and the `length * 8` skips therefore cannot wrap, and no wrap-around is modelled for them.
  - The 8-bit meta-data element ID counter wraps explicitly (mod 256). The model tracks the unbounded number of IDs issued and reduces it mod 256.
- `std::floor(std::log2(x)) + 1` in the channel-pair element is modelled as the integer bit length of x. Floating point is not modelled.
- Memory management (`unique_ptr`, `reserve`, `dynamic_cast`) is not modelled. The polymorphic element and extension structures are datatype variants, so a failed cast cannot occur.
- LayoutSyntax.SpeakerList: no writer and no round trip are proved for the flexible speaker list or the flexible layout. Their partners are the soundness and count lemmas `SpeakerListSound` and `SpeakerListCounts`.
- ParserUtils.EscapedRoundTrip: proved for positive field widths only. The one call with a zero width (`escapedValueTo32Bit(8, 16, 0)`) is covered by `EscapedValue` and `EscapedValue32Fits`.
- The public summary's integer fields are naturals rather than `uint8_t` / `uint32_t`. The values stored in them fit those types by the proved ranges.

## Notes on the source

- Unassigned indices of the sampling frequency table give frequency 0 rather than an error.
  - Index 0x1f reads an explicit 24-bit frequency.
- Unassigned CICP loudspeaker indices give the table's sentinel angles (-9999, -1111), and the parser keeps them.
  - A sentinel azimuth counts as "not 0 or 180", so a symmetric-pair flag is read after it.
- The frame length index is checked only after the reference layout and the signal groups have been read. So a layout or signal error takes precedence over an invalid frame length index.
