/** mpegh3daFlexibleSpeakerConfig() and speakerConfig3d(): the loudspeaker
    layouts of the reference layout, of the channel signal groups and of the
    SAOC downmix. */
module LayoutSyntax {
  import opened Results
  import opened Bits
  import opened ParserUtils
  import opened MpeghTypes
  import opened MpeghTables
  import opened SpeakerSyntax

  // ---------------------------------------------------------------------
  // The list of speaker descriptions of a flexible layout

  /** The loudspeakers still to describe after one description: one fewer, or
      two fewer when its symmetric partner is added as well (the extra `i++`
      of the loop), and none once the count is used up. */
  function Remaining(remaining: nat, alsoAddSymmetricPair: bool): nat
    requires remaining > 0
  {
    if !alsoAddSymmetricPair then remaining - 1
    else if remaining >= 2 then remaining - 2
    else 0
  }

  /** The description lists the loop yields for `remaining` loudspeakers:
      one description per iteration, and a symmetric-pair flag right after
      every description whose azimuth is neither 0 nor 180. */
  predicate SpeakerListWf(descs: seq<SpeakerDescription>, flags: seq<bool>, remaining: nat, angularPrecision: bool)
    decreases |descs|
  {
    if remaining == 0 then descs == [] && flags == []
    else
      && |descs| > 0
      && DescriptionWf(descs[0], angularPrecision)
      && if HasMirror(descs[0].azimuthAngle) then
           |flags| > 0 && SpeakerListWf(descs[1..], flags[1..], Remaining(remaining, flags[0]), angularPrecision)
         else
           SpeakerListWf(descs[1..], flags, remaining - 1, angularPrecision)
  }

  /** The number of bits the description lists take. */
  function SpeakerListWidth(descs: seq<SpeakerDescription>, flags: seq<bool>, remaining: nat, angularPrecision: bool): nat
    decreases |descs|
  {
    if remaining == 0 || |descs| == 0 then 0
    else if HasMirror(descs[0].azimuthAngle) && |flags| > 0 then
      DescriptionWidth(descs[0], angularPrecision) + 1
        + SpeakerListWidth(descs[1..], flags[1..], Remaining(remaining, flags[0]), angularPrecision)
    else
      DescriptionWidth(descs[0], angularPrecision) + SpeakerListWidth(descs[1..], flags, remaining - 1, angularPrecision)
  }

  /** The loop of mpegh3daFlexibleSpeakerConfig() for `remaining` loudspeakers:
      a description, then for an azimuth other than 0 and 180 the
      alsoAddSymmetricPair flag, which when set counts the partner as
      described too. */
  function SpeakerList(bits: seq<bool>, pos: nat, remaining: nat, angularPrecision: bool)
    : (r: Result<Parsed<(seq<SpeakerDescription>, seq<bool>)>>)
    ensures r.Fail? ==> r.error == ReaderExhausted
    decreases remaining
  {
    if remaining == 0 then Ok(Parsed(([], []), pos))
    else
      var d :- Mpegh3daSpeakerDescription(bits, pos, angularPrecision);
      if HasMirror(d.item.azimuthAngle) then
        var pair :- ReadBoolAt(bits, d.next);
        var rest :- SpeakerList(bits, pair.next, Remaining(remaining, pair.item), angularPrecision);
        Ok(Parsed(([d.item] + rest.item.0, [pair.item] + rest.item.1), rest.next))
      else
        var rest :- SpeakerList(bits, d.next, remaining - 1, angularPrecision);
        Ok(Parsed(([d.item] + rest.item.0, rest.item.1), rest.next))
  }

  /** The loop yields well-formed description lists and consumes exactly
      their bits. */
  lemma {:induction false} SpeakerListSound(bits: seq<bool>, pos: nat, remaining: nat, angularPrecision: bool,
                                            res: Parsed<(seq<SpeakerDescription>, seq<bool>)>)
    requires SpeakerList(bits, pos, remaining, angularPrecision) == Ok(res)
    ensures SpeakerListWf(res.item.0, res.item.1, remaining, angularPrecision)
    ensures res.next == pos + SpeakerListWidth(res.item.0, res.item.1, remaining, angularPrecision)
    decreases remaining
  {
    if remaining > 0 {
      DescriptionSound(bits, pos, angularPrecision);
      var d := Mpegh3daSpeakerDescription(bits, pos, angularPrecision).value;
      if HasMirror(d.item.azimuthAngle) {
        var pair := ReadBoolAt(bits, d.next).value;
        var n := Remaining(remaining, pair.item);
        var rest := SpeakerList(bits, pair.next, n, angularPrecision).value;
        SpeakerListSound(bits, pair.next, n, angularPrecision, rest);
        SpeakerListFromPartsMirror(bits, pos, remaining, angularPrecision, d, pair, rest);
        ListWfMirror(pos, remaining, angularPrecision, d, pair, rest);
      } else {
        var rest := SpeakerList(bits, d.next, remaining - 1, angularPrecision).value;
        SpeakerListSound(bits, d.next, remaining - 1, angularPrecision, rest);
        SpeakerListFromPartsPlain(bits, pos, remaining, angularPrecision, d, rest);
        ListWfPlain(pos, remaining, angularPrecision, d, rest);
      }
    }
  }

  /** Well-formed lists that start with a description and its flag. */
  lemma ListWfMirror(pos: nat, remaining: nat, angularPrecision: bool, d: Parsed<SpeakerDescription>,
                     pair: Parsed<bool>, rest: Parsed<(seq<SpeakerDescription>, seq<bool>)>)
    requires remaining > 0 && DescriptionWf(d.item, angularPrecision) && HasMirror(d.item.azimuthAngle)
    requires d.next == pos + DescriptionWidth(d.item, angularPrecision) && pair.next == d.next + 1
    requires SpeakerListWf(rest.item.0, rest.item.1, Remaining(remaining, pair.item), angularPrecision)
    requires rest.next == pair.next + SpeakerListWidth(rest.item.0, rest.item.1, Remaining(remaining, pair.item), angularPrecision)
    ensures var descs, flags := [d.item] + rest.item.0, [pair.item] + rest.item.1;
            && SpeakerListWf(descs, flags, remaining, angularPrecision)
            && rest.next == pos + SpeakerListWidth(descs, flags, remaining, angularPrecision)
  {
    var descs, flags := [d.item] + rest.item.0, [pair.item] + rest.item.1;
    assert descs[1..] == rest.item.0 && flags[1..] == rest.item.1;
  }

  /** Well-formed lists that start with a description without a flag. */
  lemma ListWfPlain(pos: nat, remaining: nat, angularPrecision: bool, d: Parsed<SpeakerDescription>,
                    rest: Parsed<(seq<SpeakerDescription>, seq<bool>)>)
    requires remaining > 0 && DescriptionWf(d.item, angularPrecision) && !HasMirror(d.item.azimuthAngle)
    requires d.next == pos + DescriptionWidth(d.item, angularPrecision)
    requires SpeakerListWf(rest.item.0, rest.item.1, remaining - 1, angularPrecision)
    requires rest.next == d.next + SpeakerListWidth(rest.item.0, rest.item.1, remaining - 1, angularPrecision)
    ensures var descs := [d.item] + rest.item.0;
            && SpeakerListWf(descs, rest.item.1, remaining, angularPrecision)
            && rest.next == pos + SpeakerListWidth(descs, rest.item.1, remaining, angularPrecision)
  {
    var descs := [d.item] + rest.item.0;
    assert descs[1..] == rest.item.0;
  }

  /** The number of descriptions whose azimuth is neither 0 nor 180. */
  function MirrorCount(descs: seq<SpeakerDescription>): nat
  {
    if descs == [] then 0
    else (if HasMirror(descs[0].azimuthAngle) then 1 else 0) + MirrorCount(descs[1..])
  }

  /** The number of set flags. */
  function CountTrue(flags: seq<bool>): nat
  {
    if flags == [] then 0
    else (if flags[0] then 1 else 0) + CountTrue(flags[1..])
  }

  /** There is one alsoAddSymmetricPair flag per description whose azimuth is
      neither 0 nor 180, and the descriptions together with the partners the
      set flags add make up the loudspeaker count, or one more when the last
      description added a partner the count had no room for. */
  lemma {:induction false} SpeakerListCounts(descs: seq<SpeakerDescription>, flags: seq<bool>, remaining: nat,
                                             angularPrecision: bool)
    requires SpeakerListWf(descs, flags, remaining, angularPrecision)
    ensures |flags| == MirrorCount(descs)
    ensures |descs| + CountTrue(flags) == remaining || |descs| + CountTrue(flags) == remaining + 1
    ensures remaining > 0 ==> |descs| > 0
    decreases |descs|
  {
    if remaining > 0 {
      if HasMirror(descs[0].azimuthAngle) {
        SpeakerListCounts(descs[1..], flags[1..], Remaining(remaining, flags[0]), angularPrecision);
      } else {
        SpeakerListCounts(descs[1..], flags, remaining - 1, angularPrecision);
      }
    }
  }

  /** The loop in terms of the reads of its first iteration, for a
      description with a symmetric-pair flag. */
  lemma SpeakerListFromPartsMirror(bits: seq<bool>, pos: nat, remaining: nat, angularPrecision: bool,
                                   d: Parsed<SpeakerDescription>, pair: Parsed<bool>,
                                   rest: Parsed<(seq<SpeakerDescription>, seq<bool>)>)
    requires remaining > 0
    requires Mpegh3daSpeakerDescription(bits, pos, angularPrecision) == Ok(d) && HasMirror(d.item.azimuthAngle)
    requires ReadBoolAt(bits, d.next) == Ok(pair)
    requires SpeakerList(bits, pair.next, Remaining(remaining, pair.item), angularPrecision) == Ok(rest)
    ensures SpeakerList(bits, pos, remaining, angularPrecision)
         == Ok(Parsed(([d.item] + rest.item.0, [pair.item] + rest.item.1), rest.next))
  {
  }

  /** The loop in terms of the reads of its first iteration, for a
      description without a symmetric-pair flag. */
  lemma SpeakerListFromPartsPlain(bits: seq<bool>, pos: nat, remaining: nat, angularPrecision: bool,
                                  d: Parsed<SpeakerDescription>, rest: Parsed<(seq<SpeakerDescription>, seq<bool>)>)
    requires remaining > 0
    requires Mpegh3daSpeakerDescription(bits, pos, angularPrecision) == Ok(d) && !HasMirror(d.item.azimuthAngle)
    requires SpeakerList(bits, d.next, remaining - 1, angularPrecision) == Ok(rest)
    ensures SpeakerList(bits, pos, remaining, angularPrecision)
         == Ok(Parsed(([d.item] + rest.item.0, rest.item.1), rest.next))
  {
  }

  /** The lists `descs` and `flags` followed by what a parse of further
      lists yields; a failure stays a failure. */
  function PrependLists(descs: seq<SpeakerDescription>, flags: seq<bool>,
                        r: Result<Parsed<(seq<SpeakerDescription>, seq<bool>)>>)
    : Result<Parsed<(seq<SpeakerDescription>, seq<bool>)>>
  {
    match r
    case Fail(e) => Fail(e)
    case Ok(p) => Ok(Parsed((descs + p.item.0, flags + p.item.1), p.next))
  }

  /** The loudspeakers the loop of mpegh3daFlexibleSpeakerConfig() still has
      to describe when its counter stands at `i`; the counter may overshoot
      the count by one when the last description added a partner. */
  function LoopRemaining(numSpeakers: nat, i: nat): (left: nat)
    ensures i < numSpeakers ==> left == numSpeakers - i
    ensures i >= numSpeakers ==> left == 0
  {
    if i <= numSpeakers then numSpeakers - i else 0
  }

  /** Prepending nothing changes nothing. */
  lemma PrependNothing(r: Result<Parsed<(seq<SpeakerDescription>, seq<bool>)>>)
    ensures PrependLists([], [], r) == r
  {
    if r.Ok? {
      assert [] + r.value.item.0 == r.value.item.0 && [] + r.value.item.1 == r.value.item.1;
    }
  }

  /** Prepending twice is prepending the concatenations. */
  lemma PrependTwice(descs: seq<SpeakerDescription>, flags: seq<bool>, moreDescs: seq<SpeakerDescription>,
                     moreFlags: seq<bool>, r: Result<Parsed<(seq<SpeakerDescription>, seq<bool>)>>)
    ensures PrependLists(descs, flags, PrependLists(moreDescs, moreFlags, r))
         == PrependLists(descs + moreDescs, flags + moreFlags, r)
  {
    if r.Ok? {
      assert descs + (moreDescs + r.value.item.0) == descs + moreDescs + r.value.item.0;
      assert flags + (moreFlags + r.value.item.1) == flags + moreFlags + r.value.item.1;
    }
  }

  /** One iteration of the loop for a description with a symmetric-pair
      flag. */
  lemma SpeakerListStepMirror(bits: seq<bool>, pos: nat, remaining: nat, angularPrecision: bool,
                              d: Parsed<SpeakerDescription>, pair: Parsed<bool>)
    requires remaining > 0
    requires Mpegh3daSpeakerDescription(bits, pos, angularPrecision) == Ok(d) && HasMirror(d.item.azimuthAngle)
    requires ReadBoolAt(bits, d.next) == Ok(pair)
    ensures SpeakerList(bits, pos, remaining, angularPrecision)
         == PrependLists([d.item], [pair.item], SpeakerList(bits, pair.next, Remaining(remaining, pair.item), angularPrecision))
  {
    var rest := SpeakerList(bits, pair.next, Remaining(remaining, pair.item), angularPrecision);
    if rest.Ok? {
      SpeakerListFromPartsMirror(bits, pos, remaining, angularPrecision, d, pair, rest.value);
    }
  }

  /** One iteration of the loop for a description without a symmetric-pair
      flag. */
  lemma SpeakerListStepPlain(bits: seq<bool>, pos: nat, remaining: nat, angularPrecision: bool,
                             d: Parsed<SpeakerDescription>)
    requires remaining > 0
    requires Mpegh3daSpeakerDescription(bits, pos, angularPrecision) == Ok(d) && !HasMirror(d.item.azimuthAngle)
    ensures SpeakerList(bits, pos, remaining, angularPrecision)
         == PrependLists([d.item], [], SpeakerList(bits, d.next, remaining - 1, angularPrecision))
  {
    var rest := SpeakerList(bits, d.next, remaining - 1, angularPrecision);
    if rest.Ok? {
      SpeakerListFromPartsPlain(bits, pos, remaining, angularPrecision, d, rest.value);
      assert [] + rest.value.item.1 == rest.value.item.1;
    }
  }

  /** The loop of mpegh3daFlexibleSpeakerConfig() as the source writes it:
      the counter `i` runs up to the loudspeaker count, one step per
      description and one more for an added symmetric partner, and the lists
      read so far are carried along. */
  function SpeakerLoop(bits: seq<bool>, pos: nat, numSpeakers: nat, i: nat, angularPrecision: bool,
                       descs: seq<SpeakerDescription>, flags: seq<bool>)
    : (r: Result<Parsed<(seq<SpeakerDescription>, seq<bool>)>>)
    decreases numSpeakers - i
  {
    if i >= numSpeakers then Ok(Parsed((descs, flags), pos))
    else
      var d :- Mpegh3daSpeakerDescription(bits, pos, angularPrecision);
      if HasMirror(d.item.azimuthAngle) then
        var tmp :- ReadBoolAt(bits, d.next);
        SpeakerLoop(bits, tmp.next, numSpeakers, if tmp.item then i + 2 else i + 1, angularPrecision,
                    descs + [d.item], flags + [tmp.item])
      else
        SpeakerLoop(bits, d.next, numSpeakers, i + 1, angularPrecision, descs + [d.item], flags)
  }

  /** One iteration of the loop for a description with a symmetric-pair
      flag. */
  lemma SpeakerLoopMirror(bits: seq<bool>, pos: nat, numSpeakers: nat, i: nat, angularPrecision: bool,
                          descs: seq<SpeakerDescription>, flags: seq<bool>, d: Parsed<SpeakerDescription>,
                          tmp: Parsed<bool>)
    requires i < numSpeakers
    requires Mpegh3daSpeakerDescription(bits, pos, angularPrecision) == Ok(d) && HasMirror(d.item.azimuthAngle)
    requires ReadBoolAt(bits, d.next) == Ok(tmp)
    ensures SpeakerLoop(bits, pos, numSpeakers, i, angularPrecision, descs, flags)
         == SpeakerLoop(bits, tmp.next, numSpeakers, if tmp.item then i + 2 else i + 1, angularPrecision,
                        descs + [d.item], flags + [tmp.item])
  {
  }

  /** One iteration of the loop for a description without a symmetric-pair
      flag. */
  lemma SpeakerLoopPlain(bits: seq<bool>, pos: nat, numSpeakers: nat, i: nat, angularPrecision: bool,
                         descs: seq<SpeakerDescription>, flags: seq<bool>, d: Parsed<SpeakerDescription>)
    requires i < numSpeakers
    requires Mpegh3daSpeakerDescription(bits, pos, angularPrecision) == Ok(d) && !HasMirror(d.item.azimuthAngle)
    ensures SpeakerLoop(bits, pos, numSpeakers, i, angularPrecision, descs, flags)
         == SpeakerLoop(bits, d.next, numSpeakers, i + 1, angularPrecision, descs + [d.item], flags)
  {
  }

  /** The loop with counter `i` and the lists read so far is those lists
      followed by what the reference definition reads for the loudspeakers
      still left. */
  lemma {:induction false} SpeakerLoopIsList(bits: seq<bool>, pos: nat, numSpeakers: nat, i: nat,
                                             angularPrecision: bool, descs: seq<SpeakerDescription>, flags: seq<bool>)
    ensures SpeakerLoop(bits, pos, numSpeakers, i, angularPrecision, descs, flags)
         == PrependLists(descs, flags, SpeakerList(bits, pos, LoopRemaining(numSpeakers, i), angularPrecision))
    decreases numSpeakers - i
  {
    if i >= numSpeakers {
      assert descs + [] == descs && flags + [] == flags;
    } else {
      var rd := Mpegh3daSpeakerDescription(bits, pos, angularPrecision);
      if rd.Ok? && HasMirror(rd.value.item.azimuthAngle) && ReadBoolAt(bits, rd.value.next).Ok? {
        var d, tmp := rd.value, ReadBoolAt(bits, rd.value.next).value;
        var next := if tmp.item then i + 2 else i + 1;
        SpeakerLoopIsList(bits, tmp.next, numSpeakers, next, angularPrecision, descs + [d.item], flags + [tmp.item]);
        LoopIsListMirror(bits, pos, numSpeakers, i, angularPrecision, descs, flags, d, tmp);
      } else if rd.Ok? && !HasMirror(rd.value.item.azimuthAngle) {
        var d := rd.value;
        SpeakerLoopIsList(bits, d.next, numSpeakers, i + 1, angularPrecision, descs + [d.item], flags);
        LoopIsListPlain(bits, pos, numSpeakers, i, angularPrecision, descs, flags, d);
      } else {
        LoopIsListFail(bits, pos, numSpeakers, i, angularPrecision, descs, flags);
      }
    }
  }

  /** SpeakerLoopIsList for a first description with a symmetric-pair flag,
      given that it holds for the rest of the loop. */
  lemma LoopIsListMirror(bits: seq<bool>, pos: nat, numSpeakers: nat, i: nat, angularPrecision: bool,
                         descs: seq<SpeakerDescription>, flags: seq<bool>, d: Parsed<SpeakerDescription>,
                         tmp: Parsed<bool>)
    requires i < numSpeakers
    requires Mpegh3daSpeakerDescription(bits, pos, angularPrecision) == Ok(d) && HasMirror(d.item.azimuthAngle)
    requires ReadBoolAt(bits, d.next) == Ok(tmp)
    requires var next := if tmp.item then i + 2 else i + 1;
             SpeakerLoop(bits, tmp.next, numSpeakers, next, angularPrecision, descs + [d.item], flags + [tmp.item])
             == PrependLists(descs + [d.item], flags + [tmp.item],
                             SpeakerList(bits, tmp.next, LoopRemaining(numSpeakers, next), angularPrecision))
    ensures SpeakerLoop(bits, pos, numSpeakers, i, angularPrecision, descs, flags)
         == PrependLists(descs, flags, SpeakerList(bits, pos, LoopRemaining(numSpeakers, i), angularPrecision))
  {
    var next := if tmp.item then i + 2 else i + 1;
    SpeakerLoopMirror(bits, pos, numSpeakers, i, angularPrecision, descs, flags, d, tmp);
    SpeakerListStepMirror(bits, pos, numSpeakers - i, angularPrecision, d, tmp);
    assert LoopRemaining(numSpeakers, next) == Remaining(numSpeakers - i, tmp.item);
    PrependTwice(descs, flags, [d.item], [tmp.item],
                 SpeakerList(bits, tmp.next, LoopRemaining(numSpeakers, next), angularPrecision));
  }

  /** SpeakerLoopIsList for a first description without a flag, given that
      it holds for the rest of the loop. */
  lemma LoopIsListPlain(bits: seq<bool>, pos: nat, numSpeakers: nat, i: nat, angularPrecision: bool,
                        descs: seq<SpeakerDescription>, flags: seq<bool>, d: Parsed<SpeakerDescription>)
    requires i < numSpeakers
    requires Mpegh3daSpeakerDescription(bits, pos, angularPrecision) == Ok(d) && !HasMirror(d.item.azimuthAngle)
    requires SpeakerLoop(bits, d.next, numSpeakers, i + 1, angularPrecision, descs + [d.item], flags)
             == PrependLists(descs + [d.item], flags,
                             SpeakerList(bits, d.next, LoopRemaining(numSpeakers, i + 1), angularPrecision))
    ensures SpeakerLoop(bits, pos, numSpeakers, i, angularPrecision, descs, flags)
         == PrependLists(descs, flags, SpeakerList(bits, pos, LoopRemaining(numSpeakers, i), angularPrecision))
  {
    SpeakerLoopPlain(bits, pos, numSpeakers, i, angularPrecision, descs, flags, d);
    SpeakerListStepPlain(bits, pos, numSpeakers - i, angularPrecision, d);
    PrependTwice(descs, flags, [d.item], [],
                 SpeakerList(bits, d.next, LoopRemaining(numSpeakers, i + 1), angularPrecision));
    assert flags + [] == flags;
  }

  /** SpeakerLoopIsList when the first iteration fails: both fail alike. */
  lemma LoopIsListFail(bits: seq<bool>, pos: nat, numSpeakers: nat, i: nat, angularPrecision: bool,
                       descs: seq<SpeakerDescription>, flags: seq<bool>)
    requires i < numSpeakers
    requires var rd := Mpegh3daSpeakerDescription(bits, pos, angularPrecision);
             rd.Fail? || (HasMirror(rd.value.item.azimuthAngle) && ReadBoolAt(bits, rd.value.next).Fail?)
    ensures SpeakerLoop(bits, pos, numSpeakers, i, angularPrecision, descs, flags)
         == PrependLists(descs, flags, SpeakerList(bits, pos, LoopRemaining(numSpeakers, i), angularPrecision))
  {
  }

  /** The loop as the source writes it reads what the reference definition
      reads. */
  lemma SpeakerLoopFromStart(bits: seq<bool>, pos: nat, numSpeakers: nat, angularPrecision: bool)
    ensures SpeakerLoop(bits, pos, numSpeakers, 0, angularPrecision, [], [])
         == SpeakerList(bits, pos, numSpeakers, angularPrecision)
  {
    SpeakerLoopIsList(bits, pos, numSpeakers, 0, angularPrecision, [], []);
    PrependNothing(SpeakerList(bits, pos, numSpeakers, angularPrecision));
  }

  // ---------------------------------------------------------------------
  // mpegh3daFlexibleSpeakerConfig()

  /** The flexible layouts the parser yields for `numSpeakers` loudspeakers. */
  predicate FlexibleWf(f: FlexibleSpeakerConfig, numSpeakers: nat)
  {
    SpeakerListWf(f.speakerDescriptions, f.alsoAddSymmetricPair, numSpeakers, f.angularPrecision)
  }

  /** The number of bits a flexible layout takes. */
  function FlexibleWidth(f: FlexibleSpeakerConfig, numSpeakers: nat): nat
  {
    1 + SpeakerListWidth(f.speakerDescriptions, f.alsoAddSymmetricPair, numSpeakers, f.angularPrecision)
  }

  /** mpegh3daFlexibleSpeakerConfig(numSpeakers): angularPrecision, then the
      loop over the loudspeakers. */
  function Mpegh3daFlexibleSpeakerConfig(bits: seq<bool>, pos: nat, numSpeakers: nat)
    : (r: Result<Parsed<FlexibleSpeakerConfig>>)
    ensures r.Fail? ==> r.error == ReaderExhausted
  {
    var angularPrecision :- ReadBoolAt(bits, pos);
    var list :- SpeakerList(bits, angularPrecision.next, numSpeakers, angularPrecision.item);
    Ok(Parsed(FlexibleSpeakerConfig(angularPrecision.item, list.item.0, list.item.1), list.next))
  }

  /** mpegh3daFlexibleSpeakerConfig() yields a well-formed layout and consumes
      exactly its width. */
  lemma FlexibleSound(bits: seq<bool>, pos: nat, numSpeakers: nat)
    ensures var r := Mpegh3daFlexibleSpeakerConfig(bits, pos, numSpeakers);
            r.Ok? ==> FlexibleWf(r.value.item, numSpeakers) && r.value.next == pos + FlexibleWidth(r.value.item, numSpeakers)
  {
    var r := Mpegh3daFlexibleSpeakerConfig(bits, pos, numSpeakers);
    if r.Ok? {
      var list := SpeakerList(bits, pos + 1, numSpeakers, bits[pos]).value;
      SpeakerListSound(bits, pos + 1, numSpeakers, bits[pos], list);
    }
  }

  // ---------------------------------------------------------------------
  // speakerConfig3d()

  /** The loudspeaker layouts speakerConfig3d() yields: a CICP layout index
      with a NUM_SPEAKERS entry and that entry's count (type 0), or a count of
      at least one from an escaped field (types 1 to 3) with the lists that
      count calls for (LayoutListsWf). */
  predicate SpeakerConfigWf(c: SpeakerConfig)
  {
    && c.speakerLayoutType < 4
    && (if c.speakerLayoutType == 0 then
          c.cicpSpeakerLayoutIdx in NumSpeakersMap && c.numSpeakers == NumSpeakersMap[c.cicpSpeakerLayoutIdx]
        else
          c.cicpSpeakerLayoutIdx == 0 && 1 <= c.numSpeakers <= EscapedMax(5, 8, 16) + 1)
    && LayoutListsWf(c)
  }

  /** Exactly `numSpeakers` 7-bit CICP loudspeaker indices for type 1 and
      none otherwise; a flexible layout for `numSpeakers` loudspeakers for
      type 2 and the default one otherwise. */
  predicate LayoutListsWf(c: SpeakerConfig)
  {
    && (if c.speakerLayoutType == 1 then |c.cicpSpeakerIdx| == c.numSpeakers && FitWidth(c.cicpSpeakerIdx, 7)
        else c.cicpSpeakerIdx == [])
    && (if c.speakerLayoutType == 2 then FlexibleWf(c.flexibleSpeakerConfig, c.numSpeakers)
        else c.flexibleSpeakerConfig == DefaultFlexibleSpeakerConfig)
  }

  /** The number of bits the lists of a layout take. */
  function LayoutListsWidth(c: SpeakerConfig): nat
  {
    if c.speakerLayoutType == 1 then c.numSpeakers * 7
    else if c.speakerLayoutType == 2 then FlexibleWidth(c.flexibleSpeakerConfig, c.numSpeakers)
    else 0
  }

  /** The number of bits a layout takes. */
  function SpeakerConfigWidth(c: SpeakerConfig): nat
    requires c.speakerLayoutType == 0 || c.numSpeakers >= 1
  {
    2 + if c.speakerLayoutType == 0 then 6
        else EscapedWidth(c.numSpeakers - 1, 5, 8, 16) + LayoutListsWidth(c)
  }

  /** speakerConfig3d(): the 2-bit layout type, then a 6-bit CICP layout
      index that must have a NUM_SPEAKERS entry (type 0), or an escaped
      loudspeaker count minus one followed by what CountedLayout reads. */
  function SpeakerConfig3d(bits: seq<bool>, pos: nat): (r: Result<Parsed<SpeakerConfig>>)
  {
    var layoutType :- ReadAt(bits, pos, 2);
    if layoutType.item == 0 then
      var layoutIdx :- ReadAt(bits, layoutType.next, 6);
      if layoutIdx.item !in NumSpeakersMap then Fail(InvalidLayoutIndex)
      else
        Ok(Parsed(SpeakerConfig(0, layoutIdx.item, NumSpeakersMap[layoutIdx.item], [], DefaultFlexibleSpeakerConfig),
                  layoutIdx.next))
    else
      var count :- EscapedValue32(bits, layoutType.next, 5, 8, 16);
      CountedLayout(bits, count.next, layoutType.item, count.item + 1)
  }

  /** The rest of speakerConfig3d() once the loudspeaker count is known: the
      7-bit CICP loudspeaker indices (type 1), the flexible layout (type 2)
      or nothing (type 3). */
  function CountedLayout(bits: seq<bool>, pos: nat, layoutType: nat, numSpeakers: nat)
    : (r: Result<Parsed<SpeakerConfig>>)
    ensures r.Fail? ==> r.error == ReaderExhausted
  {
    if layoutType == 1 then
      var indices :- ReadFields(bits, pos, numSpeakers, 7);
      Ok(Parsed(SpeakerConfig(1, 0, numSpeakers, indices.item, DefaultFlexibleSpeakerConfig), indices.next))
    else if layoutType == 2 then
      var flexible :- Mpegh3daFlexibleSpeakerConfig(bits, pos, numSpeakers);
      Ok(Parsed(SpeakerConfig(2, 0, numSpeakers, [], flexible.item), flexible.next))
    else
      Ok(Parsed(SpeakerConfig(layoutType, 0, numSpeakers, [], DefaultFlexibleSpeakerConfig), pos))
  }

  /** The lists CountedLayout reads are the ones the count calls for, and
      they take exactly their width. */
  lemma CountedLayoutSound(bits: seq<bool>, pos: nat, layoutType: nat, numSpeakers: nat, res: Parsed<SpeakerConfig>)
    requires CountedLayout(bits, pos, layoutType, numSpeakers) == Ok(res)
    ensures res.item.speakerLayoutType == layoutType && res.item.numSpeakers == numSpeakers
    ensures res.item.cicpSpeakerLayoutIdx == 0
    ensures LayoutListsWf(res.item) && res.next == pos + LayoutListsWidth(res.item)
  {
    if layoutType == 2 {
      FlexibleSound(bits, pos, numSpeakers);
    }
  }

  /** speakerConfig3d() yields a well-formed layout and consumes exactly its
      width. */
  lemma SpeakerConfigSound(bits: seq<bool>, pos: nat, res: Parsed<SpeakerConfig>)
    requires SpeakerConfig3d(bits, pos) == Ok(res)
    ensures SpeakerConfigWf(res.item)
    ensures res.next == pos + SpeakerConfigWidth(res.item)
  {
    var layoutType := ReadAt(bits, pos, 2).value;
    Pow2Values();
    if layoutType.item != 0 {
      var count := EscapedValue32(bits, layoutType.next, 5, 8, 16).value;
      EscapedValue32Fits(bits, layoutType.next, 5, 8, 16);
      CountedLayoutSound(bits, count.next, layoutType.item, count.item + 1, res);
    }
  }

  /** speakerConfig3d() fails only when the buffer runs out or when a CICP
      layout index has no NUM_SPEAKERS entry; the latter happens exactly for
      layout type 0 with such an index. */
  lemma SpeakerConfigFailures(bits: seq<bool>, pos: nat)
    ensures var r := SpeakerConfig3d(bits, pos);
            r.Fail? ==> r.error == ReaderExhausted || r.error == InvalidLayoutIndex
    ensures SpeakerConfig3d(bits, pos) == Fail(InvalidLayoutIndex)
            <==> pos + 8 <= |bits| && FieldValue(bits, pos, 2) == 0 && FieldValue(bits, pos + 2, 6) !in NumSpeakersMap
  {
    if pos + 2 <= |bits| && FieldValue(bits, pos, 2) != 0 {
      EscapedValue32Fits(bits, pos + 2, 5, 8, 16);
    }
  }

  /** Every CICP layout index with a NUM_SPEAKERS entry fits into 6 bits. */
  lemma LayoutIndexFits(idx: nat)
    requires idx in NumSpeakersMap
    ensures 1 <= idx <= 20
  {
  }

  /** A CICP layout index is read back. */
  lemma CicpLayoutRoundTrip(bits: seq<bool>, pos: nat, idx: nat)
    requires idx in NumSpeakersMap
    requires At(bits, pos, Encode(0, 2) + Encode(idx, 6))
    ensures SpeakerConfig3d(bits, pos)
         == Ok(Parsed(SpeakerConfig(0, idx, NumSpeakersMap[idx], [], DefaultFlexibleSpeakerConfig), pos + 8))
  {
    Pow2Values();
    LayoutIndexFits(idx);
    TwoFieldsWritten(bits, pos, 2, 6, 0, idx);
  }

  /** A list of CICP loudspeaker indices is read back. */
  lemma IndexLayoutRoundTrip(bits: seq<bool>, pos: nat, numSpeakers: nat, indices: seq<nat>)
    requires 1 <= numSpeakers <= EscapedMax(5, 8, 16) + 1 && |indices| == numSpeakers && FitWidth(indices, 7)
    requires At(bits, pos, Encode(1, 2) + EncodeEscaped(numSpeakers - 1, 5, 8, 16) + EncodeFields(indices, 7))
    ensures SpeakerConfig3d(bits, pos)
         == Ok(Parsed(SpeakerConfig(1, 0, numSpeakers, indices, DefaultFlexibleSpeakerConfig),
                      pos + 2 + EscapedWidth(numSpeakers - 1, 5, 8, 16) + numSpeakers * 7))
  {
    var p1 := pos + 2;
    var p2 := p1 + EscapedWidth(numSpeakers - 1, 5, 8, 16);
    AtSplit3(bits, pos, Encode(1, 2), EncodeEscaped(numSpeakers - 1, 5, 8, 16), EncodeFields(indices, 7), p1, p2);
    CountRead(bits, pos, 1, numSpeakers - 1, p2, numSpeakers);
    IndexListRoundTrip(bits, p2, numSpeakers, indices);
  }

  /** A layout of type 3, which is a count alone, is read back. */
  lemma EmptyLayoutRoundTrip(bits: seq<bool>, pos: nat, numSpeakers: nat)
    requires 1 <= numSpeakers <= EscapedMax(5, 8, 16) + 1
    requires At(bits, pos, Encode(3, 2) + EncodeEscaped(numSpeakers - 1, 5, 8, 16))
    ensures SpeakerConfig3d(bits, pos)
         == Ok(Parsed(SpeakerConfig(3, 0, numSpeakers, [], DefaultFlexibleSpeakerConfig),
                      pos + 2 + EscapedWidth(numSpeakers - 1, 5, 8, 16)))
  {
    AtSplit(bits, pos, Encode(3, 2), EncodeEscaped(numSpeakers - 1, 5, 8, 16), pos + 2);
    CountRead(bits, pos, 3, numSpeakers - 1, pos + 2 + EscapedWidth(numSpeakers - 1, 5, 8, 16), numSpeakers);
  }

  /** The layout type and the loudspeaker count are read back, and
      speakerConfig3d() goes on with CountedLayout. */
  lemma CountRead(bits: seq<bool>, pos: nat, layoutType: nat, count: nat, next: nat, numSpeakers: nat)
    requires 0 < layoutType < 4 && count <= EscapedMax(5, 8, 16)
    requires At(bits, pos, Encode(layoutType, 2)) && At(bits, pos + 2, EncodeEscaped(count, 5, 8, 16))
    requires next == pos + 2 + EscapedWidth(count, 5, 8, 16) && numSpeakers == count + 1
    ensures SpeakerConfig3d(bits, pos) == CountedLayout(bits, next, layoutType, numSpeakers)
  {
    Pow2Values();
    AtEncode(bits, pos, layoutType, 2);
    EscapedRoundTrip(bits, pos + 2, count, 5, 8, 16);
    EscapedValue32Fits(bits, pos + 2, 5, 8, 16);
    CountedLayoutFromCount(bits, pos, layoutType, count, next, numSpeakers);
  }


  /** speakerConfig3d() in terms of its first two reads when the layout type
      is not 0. */
  lemma CountedLayoutFromCount(bits: seq<bool>, pos: nat, layoutType: nat, count: nat, next: nat, numSpeakers: nat)
    requires layoutType != 0 && numSpeakers == count + 1
    requires ReadAt(bits, pos, 2) == Ok(Parsed(layoutType, pos + 2))
    requires EscapedValue32(bits, pos + 2, 5, 8, 16) == Ok(Parsed(count, next))
    ensures SpeakerConfig3d(bits, pos) == CountedLayout(bits, next, layoutType, numSpeakers)
  {
  }

  /** CountedLayout reads back a list of CICP loudspeaker indices. */
  lemma IndexListRoundTrip(bits: seq<bool>, pos: nat, numSpeakers: nat, indices: seq<nat>)
    requires |indices| == numSpeakers && FitWidth(indices, 7)
    requires At(bits, pos, EncodeFields(indices, 7))
    ensures CountedLayout(bits, pos, 1, numSpeakers)
         == Ok(Parsed(SpeakerConfig(1, 0, numSpeakers, indices, DefaultFlexibleSpeakerConfig), pos + numSpeakers * 7))
  {
    FieldsRoundTrip(bits, pos, indices, 7, []);
    assert [] + indices == indices;
  }
}
