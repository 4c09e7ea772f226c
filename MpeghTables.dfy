/** The lookup tables of the configuration parser: usacSamplingFrequency by
    index (ISO/IEC 23003-3, Table 67 as the source cites it), the loudspeaker
    geometry of the CICP loudspeaker indices (ISO/IEC 23091-3) and the number
    of loudspeakers of the CICP layout indices 1 to 20. Gaps of the frequency
    table hold 0 and unassigned loudspeaker indices hold the sentinel angles
    -9999 and -1111; the parser copies these values unchecked. */
module MpeghTables {

  /** samplingFrequencyIndex: 33 entries, 0x00 to 0x20. */
  const SamplingFrequencyTable: seq<nat> := [
      96000, 88200, 64000, 48000,
      44100, 32000, 24000, 22050,
      16000, 12000, 11025, 8000,
      7350, 0, 0, 57600,
      51200, 40000, 38400, 34150,
      28800, 25600, 20000, 19200,
      17075, 14400, 12800, 9600,
      0, 0, 0, 0,
      0  // 0x20: not listed in the initialiser, so value-initialised to 0
    ]

  /** CICPLoudspeakerIndexAzimuth: the azimuth in degrees of a CICP
      loudspeaker index; the table holds the sentinel -9999 for 0x0b, 0x0c and
      every index from 0x2b on, and -1111 for 0x25 to 0x28. */
  function CicpAzimuth(idx: nat): int
    requires idx < 128
  {
    match idx
    case 0 => 30 case 1 => -30 case 2 => 0 case 3 => 0 case 4 => 110 case 5 => -110
    case 6 => 22 case 7 => -22 case 8 => 135 case 9 => -135 case 10 => 180 case 11 => -9999
    case 12 => -9999 case 13 => 90 case 14 => -90 case 15 => 60 case 16 => -60 case 17 => 30
    case 18 => -30 case 19 => 0 case 20 => 135 case 21 => -135 case 22 => 180 case 23 => 90
    case 24 => -90 case 25 => 0 case 26 => 45 case 27 => 45 case 28 => -45 case 29 => 0
    case 30 => 110 case 31 => -110 case 32 => 45 case 33 => -45 case 34 => 45 case 35 => -45
    case 36 => -45 case 37 => -1111 case 38 => -1111 case 39 => -1111 case 40 => -1111 case 41 => 150
    case 42 => -150
    case _ => -9999
  }

  /** CICPLoudspeakerIndexElevation: the elevation in degrees of a CICP
      loudspeaker index; the table holds the sentinel -9999 for 0x0b, 0x0c and
      every index from 0x2b on. */
  function CicpElevation(idx: nat): int
    requires idx < 128
  {
    match idx
    case 0 => 0 case 1 => 0 case 2 => 0 case 3 => -15 case 4 => 0 case 5 => 0
    case 6 => 0 case 7 => 0 case 8 => 0 case 9 => 0 case 10 => 0 case 11 => -9999
    case 12 => -9999 case 13 => 0 case 14 => 0 case 15 => 0 case 16 => 0 case 17 => 35
    case 18 => 35 case 19 => 35 case 20 => 35 case 21 => 35 case 22 => 35 case 23 => 35
    case 24 => 35 case 25 => 90 case 26 => -15 case 27 => -15 case 28 => -15 case 29 => -15
    case 30 => 35 case 31 => 35 case 32 => 35 case 33 => 35 case 34 => 0 case 35 => 0
    case 36 => -15 case 37 => 0 case 38 => 0 case 39 => 0 case 40 => 0 case 41 => 0
    case 42 => 0
    case _ => -9999
  }

  /** CICPLoudspeakerIndexIsLFE: the low-frequency effects loudspeakers are
      0x03, 0x12 and 0x24; every other entry of the table is false. */
  predicate CicpIsLfe(idx: nat)
    requires idx < 128
  {
    idx == 0x03 || idx == 0x12 || idx == 0x24
  }

  /** The frequency a 5-bit index other than the escape 0x1f stands for: the
      table entry, 0 for the gaps 0x0d, 0x0e and 0x1c to 0x1e. */
  function SamplingFrequency(index: nat): (f: nat)
    requires index < 0x1f
    ensures f == 0 <==> index in {0x0d, 0x0e, 0x1c, 0x1d, 0x1e}
    ensures f != 0 ==> 7350 <= f <= 96000
  {
    SamplingFrequencyTable[index]
  }

  /** NUM_SPEAKERS: the number of loudspeakers of a CICP layout index. */
  const NumSpeakersMap: map<nat, nat> := map[
      1 := 1, 2 := 2, 3 := 3, 4 := 4, 5 := 5, 6 := 6, 7 := 8, 8 := 2, 9 := 3, 10 := 4,
      11 := 6, 12 := 8, 13 := 24, 14 := 8, 15 := 12, 16 := 10, 17 := 12, 18 := 14, 19 := 12, 20 := 14]
}
