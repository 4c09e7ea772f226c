/** The loudspeaker layout syntax of mpegh3daConfig(): speakerConfig3d(),
    mpegh3daFlexibleSpeakerConfig() and mpegh3daSpeakerDescription(), as
    functions from a bit position to the parsed structure and the position
    after it; the writer of each structure; and the properties that tie the
    two together. */
module SpeakerSyntax {
  import opened Results
  import opened Bits
  import opened ParserUtils
  import opened MpeghTypes
  import opened MpeghTables

  // ---------------------------------------------------------------------
  // Speaker descriptions

  /** The angle, in degrees, of an angle index: steps of 1 degree with
      angularPrecision, of 5 degrees without. */
  function Angle(idx: nat, angularPrecision: bool): nat
  {
    if angularPrecision then idx else 5 * idx
  }

  /** Width of ElevationAngleIdx. */
  function ElevationIdxBits(angularPrecision: bool): nat
  {
    if angularPrecision then 7 else 5
  }

  /** Width of AzimuthAngleIdx. */
  function AzimuthIdxBits(angularPrecision: bool): nat
  {
    if angularPrecision then 8 else 6
  }

  /** A magnitude with the sign a direction flag gives it. */
  function Signed(magnitude: nat, negative: bool): int
  {
    if negative then -(magnitude as int) else magnitude
  }

  /** An azimuth other than 0 and 180 degrees: its direction is coded, and in
      a flexible layout so is the flag for its symmetric partner. */
  predicate HasMirror(azimuth: int)
  {
    azimuth != 0 && azimuth != 180
  }

  /** The description of CICP loudspeaker `idx`: the geometry of the tables,
      sentinels included, and every other field at its default. */
  function CicpDescription(idx: nat): SpeakerDescription
    requires idx < 128
  {
    SpeakerDescription(true, idx, 0, 0, false, 0, false,
                       CicpAzimuth(idx), CicpElevation(idx), CicpIsLfe(idx))
  }

  /** Elevation class, elevation index and elevation direction as
      mpegh3daSpeakerDescription() leaves them: the index is coded only for
      class 3, the direction only for an index other than 0; what is not
      coded stays 0 or false. */
  predicate ElevationWf(elevationClass: nat, idx: nat, direction: bool, angularPrecision: bool)
  {
    && elevationClass < 4
    && idx < Pow2(ElevationIdxBits(angularPrecision))
    && (elevationClass != 3 ==> idx == 0)
    && (idx == 0 ==> !direction)
  }

  /** The number of bits the elevation part of a description takes. */
  function ElevationWidth(elevationClass: nat, idx: nat, angularPrecision: bool): nat
  {
    2 + (if elevationClass != 3 then 0 else ElevationIdxBits(angularPrecision) + (if idx != 0 then 1 else 0))
  }

  /** The bits of the elevation part of a description (the writer's side). */
  function WriteElevation(elevationClass: nat, idx: nat, direction: bool, angularPrecision: bool): (w: seq<bool>)
    ensures |w| == ElevationWidth(elevationClass, idx, angularPrecision)
  {
    Encode(elevationClass, 2)
      + (if elevationClass != 3 then []
         else Encode(idx, ElevationIdxBits(angularPrecision)) + (if idx != 0 then [direction] else []))
  }

  /** ElevationClass, then for class 3 ElevationAngleIdx (7 or 5 bits) and, for
      an index other than 0, ElevationDirection. */
  function ElevationFields(bits: seq<bool>, pos: nat, angularPrecision: bool)
    : (r: Result<Parsed<(nat, nat, bool)>>)
    ensures r.Fail? ==> r.error == ReaderExhausted
  {
    var elevationClass :- ReadAt(bits, pos, 2);
    if elevationClass.item != 3 then Ok(Parsed((elevationClass.item, 0, false), elevationClass.next))
    else
      var idx :- ReadAt(bits, elevationClass.next, ElevationIdxBits(angularPrecision));
      if idx.item == 0 then Ok(Parsed((3, 0, false), idx.next))
      else
        var direction :- ReadBoolAt(bits, idx.next);
        Ok(Parsed((3, idx.item, direction.item), direction.next))
  }

  /** Azimuth index and direction as mpegh3daSpeakerDescription() leaves them:
      the direction is coded only for an azimuth other than 0 and 180. */
  predicate AzimuthWf(idx: nat, direction: bool, angularPrecision: bool)
  {
    && idx < Pow2(AzimuthIdxBits(angularPrecision))
    && (!HasMirror(Angle(idx, angularPrecision)) ==> !direction)
  }

  /** The number of bits the azimuth part of a description takes. */
  function AzimuthWidth(idx: nat, angularPrecision: bool): nat
  {
    AzimuthIdxBits(angularPrecision) + (if HasMirror(Angle(idx, angularPrecision)) then 1 else 0)
  }

  /** The bits of the azimuth part of a description (the writer's side). */
  function WriteAzimuth(idx: nat, direction: bool, angularPrecision: bool): (w: seq<bool>)
    ensures |w| == AzimuthWidth(idx, angularPrecision)
  {
    Encode(idx, AzimuthIdxBits(angularPrecision))
      + (if HasMirror(Angle(idx, angularPrecision)) then [direction] else [])
  }

  /** AzimuthAngleIdx (8 or 6 bits) and, for an azimuth other than 0 and 180
      degrees, AzimuthDirection. */
  function AzimuthFields(bits: seq<bool>, pos: nat, angularPrecision: bool)
    : (r: Result<Parsed<(nat, bool)>>)
    ensures r.Fail? ==> r.error == ReaderExhausted
  {
    var idx :- ReadAt(bits, pos, AzimuthIdxBits(angularPrecision));
    if !HasMirror(Angle(idx.item, angularPrecision)) then Ok(Parsed((idx.item, false), idx.next))
    else
      var direction :- ReadBoolAt(bits, idx.next);
      Ok(Parsed((idx.item, direction.item), direction.next))
  }

  /** The description of an explicitly positioned loudspeaker. The angles are
      the indices times the angle step, negated when the direction is set. */
  function ExplicitDescription(elevation: (nat, nat, bool), azimuth: (nat, bool), isLfe: bool,
                               angularPrecision: bool): SpeakerDescription
  {
    SpeakerDescription(false, 0, elevation.0, elevation.1, elevation.2, azimuth.0, azimuth.1,
                       Signed(Angle(azimuth.0, angularPrecision), azimuth.1),
                       Signed(Angle(elevation.1, angularPrecision), elevation.2), isLfe)
  }

  /** The descriptions mpegh3daSpeakerDescription() can yield: a CICP
      loudspeaker, or an explicit position whose fields are consistent with
      the flags that decide which of them are coded. */
  predicate DescriptionWf(d: SpeakerDescription, angularPrecision: bool)
  {
    if d.isCicpSpeakerIdx then
      d.cicpSpeakerIdx < 128 && d == CicpDescription(d.cicpSpeakerIdx)
    else
      && ElevationWf(d.elevationClass, d.elevationAngleIdx, d.elevationDirection, angularPrecision)
      && AzimuthWf(d.azimuthAngleIdx, d.azimuthDirection, angularPrecision)
      && d == ExplicitDescription((d.elevationClass, d.elevationAngleIdx, d.elevationDirection),
                                  (d.azimuthAngleIdx, d.azimuthDirection), d.isLfe, angularPrecision)
  }

  /** The number of bits a speaker description takes. */
  function DescriptionWidth(d: SpeakerDescription, angularPrecision: bool): nat
  {
    if d.isCicpSpeakerIdx then 8 else 1 + ExplicitWidth(d, angularPrecision)
  }

  /** The number of bits after isCICPspeakerIdx of an explicitly positioned
      loudspeaker. */
  function ExplicitWidth(d: SpeakerDescription, angularPrecision: bool): nat
  {
    ElevationWidth(d.elevationClass, d.elevationAngleIdx, angularPrecision)
      + AzimuthWidth(d.azimuthAngleIdx, angularPrecision) + 1
  }

  /** The bits of a speaker description (the writer's side). */
  function WriteSpeakerDescription(d: SpeakerDescription, angularPrecision: bool): (w: seq<bool>)
    ensures |w| == DescriptionWidth(d, angularPrecision)
  {
    if d.isCicpSpeakerIdx then [true] + Encode(d.cicpSpeakerIdx, 7)
    else
      [false] + WriteExplicit(d, angularPrecision)
  }

  /** The bits after isCICPspeakerIdx of an explicitly positioned loudspeaker. */
  function WriteExplicit(d: SpeakerDescription, angularPrecision: bool): (w: seq<bool>)
    ensures |w| == ExplicitWidth(d, angularPrecision)
  {
    WriteElevation(d.elevationClass, d.elevationAngleIdx, d.elevationDirection, angularPrecision)
      + WriteAzimuth(d.azimuthAngleIdx, d.azimuthDirection, angularPrecision) + [d.isLfe]
  }

  /** CICPspeakerIdx (7 bits): the geometry is copied from the tables without
      any check, sentinels included. */
  function CicpSpeakerFields(bits: seq<bool>, pos: nat): (r: Result<Parsed<SpeakerDescription>>)
    ensures r.Fail? ==> r.error == ReaderExhausted
  {
    var idx :- ReadAt(bits, pos, 7);
    Pow2Values();
    Ok(Parsed(CicpDescription(idx.item), idx.next))
  }

  /** The elevation fields, the azimuth fields and isLFE of an explicitly
      positioned loudspeaker. */
  function ExplicitSpeakerFields(bits: seq<bool>, pos: nat, angularPrecision: bool)
    : (r: Result<Parsed<SpeakerDescription>>)
    ensures r.Fail? ==> r.error == ReaderExhausted
  {
    var elevation :- ElevationFields(bits, pos, angularPrecision);
    var azimuth :- AzimuthFields(bits, elevation.next, angularPrecision);
    var isLfe :- ReadBoolAt(bits, azimuth.next);
    Ok(Parsed(ExplicitDescription(elevation.item, azimuth.item, isLfe.item, angularPrecision), isLfe.next))
  }

  /** mpegh3daSpeakerDescription(angularPrecision): isCICPspeakerIdx, then a
      CICP loudspeaker index or an explicit position. */
  function Mpegh3daSpeakerDescription(bits: seq<bool>, pos: nat, angularPrecision: bool)
    : (r: Result<Parsed<SpeakerDescription>>)
    ensures r.Fail? ==> r.error == ReaderExhausted
  {
    var isCicp :- ReadBoolAt(bits, pos);
    if isCicp.item then CicpSpeakerFields(bits, isCicp.next)
    else ExplicitSpeakerFields(bits, isCicp.next, angularPrecision)
  }

  // ---------------------------------------------------------------------
  // What the description reads yield

  /** The elevation reads yield consistent fields and consume their width. */
  lemma ElevationSound(bits: seq<bool>, pos: nat, angularPrecision: bool)
    ensures var r := ElevationFields(bits, pos, angularPrecision);
            r.Ok? ==> && ElevationWf(r.value.item.0, r.value.item.1, r.value.item.2, angularPrecision)
                      && r.value.next == pos + ElevationWidth(r.value.item.0, r.value.item.1, angularPrecision)
  {
    Pow2Values();
  }

  /** The azimuth reads yield consistent fields and consume their width. */
  lemma AzimuthSound(bits: seq<bool>, pos: nat, angularPrecision: bool)
    ensures var r := AzimuthFields(bits, pos, angularPrecision);
            r.Ok? ==> && AzimuthWf(r.value.item.0, r.value.item.1, angularPrecision)
                      && r.value.next == pos + AzimuthWidth(r.value.item.0, angularPrecision)
  {
  }

  /** An explicit position is read as a well-formed description of its width. */
  lemma ExplicitSound(bits: seq<bool>, pos: nat, angularPrecision: bool)
    ensures var r := ExplicitSpeakerFields(bits, pos, angularPrecision);
            r.Ok? ==> && !r.value.item.isCicpSpeakerIdx && DescriptionWf(r.value.item, angularPrecision)
                      && r.value.next == pos + ExplicitWidth(r.value.item, angularPrecision)
  {
    ElevationSound(bits, pos, angularPrecision);
    var e := ElevationFields(bits, pos, angularPrecision);
    if e.Ok? {
      AzimuthSound(bits, e.value.next, angularPrecision);
    }
  }

  /** mpegh3daSpeakerDescription() yields a well-formed description and
      consumes exactly its width. */
  lemma DescriptionSound(bits: seq<bool>, pos: nat, angularPrecision: bool)
    ensures var r := Mpegh3daSpeakerDescription(bits, pos, angularPrecision);
            r.Ok? ==> && DescriptionWf(r.value.item, angularPrecision)
                      && r.value.next == pos + DescriptionWidth(r.value.item, angularPrecision)
  {
    ExplicitSound(bits, pos + 1, angularPrecision);
  }

  // ---------------------------------------------------------------------
  // Round trips of the speaker descriptions

  lemma ElevationRoundTrip(bits: seq<bool>, pos: nat, c: nat, idx: nat, direction: bool, angularPrecision: bool)
    requires ElevationWf(c, idx, direction, angularPrecision)
    requires At(bits, pos, WriteElevation(c, idx, direction, angularPrecision))
    ensures ElevationFields(bits, pos, angularPrecision)
         == Ok(Parsed((c, idx, direction), pos + ElevationWidth(c, idx, angularPrecision)))
  {
    Pow2Values();
    var rest := if c != 3 then [] else Encode(idx, ElevationIdxBits(angularPrecision)) + (if idx != 0 then [direction] else []);
    AtSplit(bits, pos, Encode(c, 2), rest, pos + 2);
    AtEncode(bits, pos, c, 2);
    if c == 3 {
      AtSplit(bits, pos + 2, Encode(idx, ElevationIdxBits(angularPrecision)), if idx != 0 then [direction] else [],
              pos + 2 + ElevationIdxBits(angularPrecision));
      AtEncode(bits, pos + 2, idx, ElevationIdxBits(angularPrecision));
      if idx != 0 {
        ReadBoolWritten(bits, pos + 2 + ElevationIdxBits(angularPrecision), direction);
      }
    }
  }

  lemma AzimuthRoundTrip(bits: seq<bool>, pos: nat, idx: nat, direction: bool, angularPrecision: bool)
    requires AzimuthWf(idx, direction, angularPrecision)
    requires At(bits, pos, WriteAzimuth(idx, direction, angularPrecision))
    ensures AzimuthFields(bits, pos, angularPrecision)
         == Ok(Parsed((idx, direction), pos + AzimuthWidth(idx, angularPrecision)))
  {
    var mirror := HasMirror(Angle(idx, angularPrecision));
    AtSplit(bits, pos, Encode(idx, AzimuthIdxBits(angularPrecision)), if mirror then [direction] else [],
            pos + AzimuthIdxBits(angularPrecision));
    AtEncode(bits, pos, idx, AzimuthIdxBits(angularPrecision));
    if mirror {
      ReadBoolWritten(bits, pos + AzimuthIdxBits(angularPrecision), direction);
    }
  }

  /** Reading back a written speaker description gives the description. */
  lemma DescriptionRoundTrip(bits: seq<bool>, pos: nat, d: SpeakerDescription, angularPrecision: bool)
    requires DescriptionWf(d, angularPrecision)
    requires At(bits, pos, WriteSpeakerDescription(d, angularPrecision))
    ensures Mpegh3daSpeakerDescription(bits, pos, angularPrecision)
         == Ok(Parsed(d, pos + DescriptionWidth(d, angularPrecision)))
  {
    if d.isCicpSpeakerIdx {
      CicpRoundTrip(bits, pos, d);
    } else {
      AtSplit(bits, pos, [false], WriteExplicit(d, angularPrecision), pos + 1);
      ReadBoolWritten(bits, pos, false);
      ExplicitRoundTrip(bits, pos + 1, d, angularPrecision);
      DescriptionFromExplicit(bits, pos, angularPrecision, Parsed(d, pos + DescriptionWidth(d, angularPrecision)));
    }
  }

  /** A written CICP loudspeaker is read back. */
  lemma CicpRoundTrip(bits: seq<bool>, pos: nat, d: SpeakerDescription)
    requires d.isCicpSpeakerIdx && DescriptionWf(d, false)
    requires At(bits, pos, [true] + Encode(d.cicpSpeakerIdx, 7))
    ensures Mpegh3daSpeakerDescription(bits, pos, false) == Ok(Parsed(d, pos + 8))
    ensures Mpegh3daSpeakerDescription(bits, pos, true) == Ok(Parsed(d, pos + 8))
  {
    Pow2Values();
    AtSplit(bits, pos, [true], Encode(d.cicpSpeakerIdx, 7), pos + 1);
    ReadBoolWritten(bits, pos, true);
    AtEncode(bits, pos + 1, d.cicpSpeakerIdx, 7);
  }

  /** mpegh3daSpeakerDescription() in terms of its first read and the
      explicit fields after it. */
  lemma DescriptionFromExplicit(bits: seq<bool>, pos: nat, angularPrecision: bool, x: Parsed<SpeakerDescription>)
    requires ReadBoolAt(bits, pos) == Ok(Parsed(false, pos + 1))
    requires ExplicitSpeakerFields(bits, pos + 1, angularPrecision) == Ok(x)
    ensures Mpegh3daSpeakerDescription(bits, pos, angularPrecision) == Ok(x)
  {
  }

  /** ExplicitSpeakerFields in terms of the results of its three reads. */
  lemma ExplicitFromParts(bits: seq<bool>, pos: nat, angularPrecision: bool, elevation: Parsed<(nat, nat, bool)>,
                          azimuth: Parsed<(nat, bool)>, isLfe: Parsed<bool>)
    requires ElevationFields(bits, pos, angularPrecision) == Ok(elevation)
    requires AzimuthFields(bits, elevation.next, angularPrecision) == Ok(azimuth)
    requires ReadBoolAt(bits, azimuth.next) == Ok(isLfe)
    ensures ExplicitSpeakerFields(bits, pos, angularPrecision)
         == Ok(Parsed(ExplicitDescription(elevation.item, azimuth.item, isLfe.item, angularPrecision), isLfe.next))
  {
  }

  /** The three reads of an explicit position find the parts written there. */
  lemma ExplicitPartsRead(bits: seq<bool>, pos: nat, d: SpeakerDescription, angularPrecision: bool)
    requires ElevationWf(d.elevationClass, d.elevationAngleIdx, d.elevationDirection, angularPrecision)
    requires AzimuthWf(d.azimuthAngleIdx, d.azimuthDirection, angularPrecision)
    requires At(bits, pos, WriteExplicit(d, angularPrecision))
    ensures var p1 := pos + ElevationWidth(d.elevationClass, d.elevationAngleIdx, angularPrecision);
            var p2 := p1 + AzimuthWidth(d.azimuthAngleIdx, angularPrecision);
            && ElevationFields(bits, pos, angularPrecision)
               == Ok(Parsed((d.elevationClass, d.elevationAngleIdx, d.elevationDirection), p1))
            && AzimuthFields(bits, p1, angularPrecision) == Ok(Parsed((d.azimuthAngleIdx, d.azimuthDirection), p2))
            && ReadBoolAt(bits, p2) == Ok(Parsed(d.isLfe, p2 + 1))
  {
    var e := WriteElevation(d.elevationClass, d.elevationAngleIdx, d.elevationDirection, angularPrecision);
    var a := WriteAzimuth(d.azimuthAngleIdx, d.azimuthDirection, angularPrecision);
    var p1 := pos + ElevationWidth(d.elevationClass, d.elevationAngleIdx, angularPrecision);
    var p2 := p1 + AzimuthWidth(d.azimuthAngleIdx, angularPrecision);
    AtSplit3(bits, pos, e, a, [d.isLfe], p1, p2);
    ElevationRoundTrip(bits, pos, d.elevationClass, d.elevationAngleIdx, d.elevationDirection, angularPrecision);
    AzimuthRoundTrip(bits, p1, d.azimuthAngleIdx, d.azimuthDirection, angularPrecision);
    ReadBoolWritten(bits, p2, d.isLfe);
  }

  /** A written explicit position is read back. */
  lemma ExplicitRoundTrip(bits: seq<bool>, pos: nat, d: SpeakerDescription, angularPrecision: bool)
    requires !d.isCicpSpeakerIdx && DescriptionWf(d, angularPrecision)
    requires At(bits, pos, WriteExplicit(d, angularPrecision))
    ensures ExplicitSpeakerFields(bits, pos, angularPrecision) == Ok(Parsed(d, pos + ExplicitWidth(d, angularPrecision)))
  {
    ExplicitPartsRead(bits, pos, d, angularPrecision);
    var p1 := pos + ElevationWidth(d.elevationClass, d.elevationAngleIdx, angularPrecision);
    var p2 := p1 + AzimuthWidth(d.azimuthAngleIdx, angularPrecision);
    ExplicitFromParts(bits, pos, angularPrecision, Parsed((d.elevationClass, d.elevationAngleIdx, d.elevationDirection), p1),
                      Parsed((d.azimuthAngleIdx, d.azimuthDirection), p2), Parsed(d.isLfe, p2 + 1));
  }
}
