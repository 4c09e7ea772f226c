/** signals3d(): the signal groups of the configuration, the running totals
    per group type and the metadata element IDs the groups are handed. */
module SignalsSyntax {
  import opened Results
  import opened Bits
  import opened ParserUtils
  import opened MpeghTypes
  import opened LayoutSyntax

  // SignalGroupType values.
  const SIGNAL_GROUP_TYPE_CHANNELS: nat := 0
  const SIGNAL_GROUP_TYPE_OBJECT: nat := 1
  const SIGNAL_GROUP_TYPE_SAOC: nat := 2
  const SIGNAL_GROUP_TYPE_HOA: nat := 3

  /** The `count` metadata element IDs the 8-bit counter hands out when it
      stands at `counter`: consecutive, wrapping from 255 to 0. */
  function IdsFrom(counter: nat, count: nat): (ids: seq<byte>)
    ensures |ids| == count
  {
    if count == 0 then [] else IdsFrom(counter, count - 1) + [(counter + count - 1) % 256]
  }

  /** The number of metadata element IDs a group of the given type gets:
      one per signal for channels and objects, one for an HOA group and
      none for SAOC. */
  function IdCount(signalGroupType: nat, bsNumberOfSignals: nat): nat
  {
    if signalGroupType == SIGNAL_GROUP_TYPE_CHANNELS || signalGroupType == SIGNAL_GROUP_TYPE_OBJECT then
      bsNumberOfSignals + 1
    else if signalGroupType == SIGNAL_GROUP_TYPE_HOA then 1
    else 0
  }

  /** An optional layout: a presence flag and, when it is set, a
      speakerConfig3d(); the default layout otherwise. */
  function OptionalLayout(bits: seq<bool>, pos: nat): (r: Result<Parsed<(bool, SpeakerConfig)>>)
  {
    var present :- ReadBoolAt(bits, pos);
    if present.item then
      var layout :- SpeakerConfig3d(bits, present.next);
      Ok(Parsed((true, layout.item), layout.next))
    else Ok(Parsed((false, DefaultSpeakerConfig), present.next))
  }

  /** One signal group of signals3d(): the 3-bit type and the escaped signal
      count minus one; a channel group then has its optional own layout, a
      SAOC group its optional downmix layout. Channel, object and HOA groups
      take their IDs from `counter` on. A type above 3 fails once its count
      has been read. */
  function SignalGroupAt(bits: seq<bool>, pos: nat, counter: nat): (r: Result<Parsed<SignalGroup>>)
  {
    var signalGroupType :- ReadAt(bits, pos, 3);
    var bs :- EscapedValue32(bits, signalGroupType.next, 5, 8, 16);
    var t, n := signalGroupType.item, bs.item;
    if t > SIGNAL_GROUP_TYPE_HOA then Fail(InvalidSignalGroupType)
    else if t == SIGNAL_GROUP_TYPE_CHANNELS || t == SIGNAL_GROUP_TYPE_SAOC then
      var layout :- OptionalLayout(bits, bs.next);
      Ok(Parsed(WithLayout(t, n, layout.item.0, layout.item.1, counter), layout.next))
    else
      Ok(Parsed(SignalGroup(t, n, false, DefaultSpeakerConfig, false, DefaultSpeakerConfig, IdsFrom(counter, IdCount(t, n))),
                bs.next))
  }

  /** A channel group with its optional own layout, or a SAOC group with its
      optional downmix layout. */
  function WithLayout(t: nat, n: nat, present: bool, layout: SpeakerConfig, counter: nat): SignalGroup
  {
    if t == SIGNAL_GROUP_TYPE_CHANNELS then
      SignalGroup(t, n, present, layout, false, DefaultSpeakerConfig, IdsFrom(counter, n + 1))
    else
      SignalGroup(t, n, false, DefaultSpeakerConfig, present, layout, [])
  }

  /** The signals with one more group: the group is appended and the total
      of its type grows by its number of signals. */
  function AddGroup(s: Signals, g: SignalGroup): Signals
  {
    var n := g.bsNumberOfSignals + 1;
    Signals(s.numAudioChannels + (if g.signalGroupType == SIGNAL_GROUP_TYPE_CHANNELS then n else 0),
            s.numAudioObjects + (if g.signalGroupType == SIGNAL_GROUP_TYPE_OBJECT then n else 0),
            s.numSaocTransportChannels + (if g.signalGroupType == SIGNAL_GROUP_TYPE_SAOC then n else 0),
            s.numHoaTransportChannels + (if g.signalGroupType == SIGNAL_GROUP_TYPE_HOA then n else 0),
            s.signalGroups + [g])
  }

  /** The group loop of signals3d(): `remaining` more groups, `issued` IDs
      handed out so far (the 8-bit counter stands at `issued` modulo 256) and
      the signals read so far in `acc`. */
  function SignalsLoop(bits: seq<bool>, pos: nat, remaining: nat, issued: nat, acc: Signals)
    : (r: Result<Parsed<Signals>>)
    decreases remaining
  {
    if remaining == 0 then Ok(Parsed(acc, pos))
    else
      match SignalGroupAt(bits, pos, issued)
      case Fail(e) => Fail(e)
      case Ok(g) =>
        SignalsLoop(bits, g.next, remaining - 1, issued + |g.item.metaDataElementIds|, AddGroup(acc, g.item))
  }

  /** signals3d(): the 5-bit group count minus one, then the groups, the ID
      counter starting at 0. */
  function Signals3d(bits: seq<bool>, pos: nat): (r: Result<Parsed<Signals>>)
  {
    var numGroups :- ReadAt(bits, pos, 5);
    SignalsLoop(bits, numGroups.next, numGroups.item + 1, 0, DefaultSignals)
  }

  // ---------------------------------------------------------------------
  // What a parsed group and a list of groups look like

  /** The groups signals3d() yields: a type below 4, a signal count that fits
      the escaped field, the number of IDs the type calls for, an own layout
      only for a channel group that says it differs from the reference
      layout, and a downmix layout only for a SAOC group that says it has
      one. */
  predicate GroupWf(g: SignalGroup)
  {
    && g.signalGroupType < 4
    && g.bsNumberOfSignals <= EscapedMax(5, 8, 16)
    && |g.metaDataElementIds| == IdCount(g.signalGroupType, g.bsNumberOfSignals)
    && (if g.differsFromReferenceLayout then
          g.signalGroupType == SIGNAL_GROUP_TYPE_CHANNELS && SpeakerConfigWf(g.audioChannelLayout)
        else g.audioChannelLayout == DefaultSpeakerConfig)
    && (if g.saocDmxLayoutPresent then
          g.signalGroupType == SIGNAL_GROUP_TYPE_SAOC && SpeakerConfigWf(g.saocDmxChannelLayout)
        else g.saocDmxChannelLayout == DefaultSpeakerConfig)
  }

  /** The number of bits an optional layout takes. */
  function OptionalLayoutWidth(present: bool, layout: SpeakerConfig): nat
  {
    1 + if present && (layout.speakerLayoutType == 0 || layout.numSpeakers >= 1) then SpeakerConfigWidth(layout) else 0
  }

  /** The number of bits a group takes. */
  function GroupWidth(g: SignalGroup): nat
  {
    3 + EscapedWidth(g.bsNumberOfSignals, 5, 8, 16)
      + if g.signalGroupType == SIGNAL_GROUP_TYPE_CHANNELS then
          OptionalLayoutWidth(g.differsFromReferenceLayout, g.audioChannelLayout)
        else if g.signalGroupType == SIGNAL_GROUP_TYPE_SAOC then
          OptionalLayoutWidth(g.saocDmxLayoutPresent, g.saocDmxChannelLayout)
        else 0
  }

  /** The signals of the groups of type `t`, summed over the groups. */
  function TypeTotal(groups: seq<SignalGroup>, t: nat): nat
  {
    if groups == [] then 0
    else
      var last := groups[|groups| - 1];
      TypeTotal(groups[..|groups| - 1], t) + if last.signalGroupType == t then last.bsNumberOfSignals + 1 else 0
  }

  /** The signals of all groups. */
  function SignalCount(groups: seq<SignalGroup>): nat
  {
    if groups == [] then 0
    else SignalCount(groups[..|groups| - 1]) + groups[|groups| - 1].bsNumberOfSignals + 1
  }

  /** The metadata element IDs of all groups, in group order. */
  function AllIds(groups: seq<SignalGroup>): seq<byte>
  {
    if groups == [] then []
    else AllIds(groups[..|groups| - 1]) + groups[|groups| - 1].metaDataElementIds
  }

  /** Every group is well formed. */
  predicate GroupsWf(groups: seq<SignalGroup>)
  {
    groups == [] || (GroupsWf(groups[..|groups| - 1]) && GroupWf(groups[|groups| - 1]))
  }

  /** What signals3d() keeps true of the signals it has built: every group is
      well formed, every total is the sum over the groups of its type, and
      the IDs run 0, 1, 2, ... across the groups, modulo 256. */
  predicate SignalsInv(s: Signals)
  {
    && GroupsWf(s.signalGroups)
    && s.numAudioChannels == TypeTotal(s.signalGroups, SIGNAL_GROUP_TYPE_CHANNELS)
    && s.numAudioObjects == TypeTotal(s.signalGroups, SIGNAL_GROUP_TYPE_OBJECT)
    && s.numSaocTransportChannels == TypeTotal(s.signalGroups, SIGNAL_GROUP_TYPE_SAOC)
    && s.numHoaTransportChannels == TypeTotal(s.signalGroups, SIGNAL_GROUP_TYPE_HOA)
    && AllIds(s.signalGroups) == IdsFrom(0, |AllIds(s.signalGroups)|)
  }

  // ---------------------------------------------------------------------
  // Properties

  /** The IDs of a group that starts where `a` IDs were handed out continue
      the IDs before it. */
  lemma {:induction false} IdsContinue(a: nat, b: nat)
    ensures IdsFrom(0, a) + IdsFrom(a, b) == IdsFrom(0, a + b)
  {
    if b > 0 {
      IdsContinue(a, b - 1);
      assert IdsFrom(0, a) + IdsFrom(a, b) == IdsFrom(0, a) + IdsFrom(a, b - 1) + [(a + b - 1) % 256];
    }
  }

  /** The `k`-th ID handed out from `counter` on is `counter + k` modulo
      256. */
  lemma {:induction false} IdsFromIndex(counter: nat, count: nat, k: nat)
    requires k < count
    ensures IdsFrom(counter, count)[k] == (counter + k) % 256
  {
    if k < count - 1 {
      IdsFromIndex(counter, count - 1, k);
    }
  }

  /** An optional layout is its flag and, when set, a well-formed layout,
      and takes exactly its width. */
  lemma OptionalLayoutSound(bits: seq<bool>, pos: nat, res: Parsed<(bool, SpeakerConfig)>)
    requires OptionalLayout(bits, pos) == Ok(res)
    ensures if res.item.0 then SpeakerConfigWf(res.item.1) else res.item.1 == DefaultSpeakerConfig
    ensures res.next == pos + OptionalLayoutWidth(res.item.0, res.item.1)
  {
    if res.item.0 {
      var layout := SpeakerConfig3d(bits, pos + 1).value;
      SpeakerConfigSound(bits, pos + 1, layout);
    }
  }

  /** A parsed group is well formed, takes exactly its width, and its IDs
      are the next ones of the counter. */
  lemma GroupSound(bits: seq<bool>, pos: nat, counter: nat, res: Parsed<SignalGroup>)
    requires SignalGroupAt(bits, pos, counter) == Ok(res)
    ensures GroupWf(res.item)
    ensures res.next == pos + GroupWidth(res.item)
    ensures res.item.metaDataElementIds == IdsFrom(counter, IdCount(res.item.signalGroupType, res.item.bsNumberOfSignals))
  {
    var t := ReadAt(bits, pos, 3).value;
    EscapedValue32Fits(bits, pos + 3, 5, 8, 16);
    var bs := EscapedValue32(bits, pos + 3, 5, 8, 16).value;
    if t.item == SIGNAL_GROUP_TYPE_CHANNELS || t.item == SIGNAL_GROUP_TYPE_SAOC {
      var layout := OptionalLayout(bits, bs.next).value;
      OptionalLayoutSound(bits, bs.next, layout);
    }
  }

  /** A group fails with InvalidSignalGroupType exactly when its type field
      is above 3 and its signal count could be read. */
  lemma GroupTypeFailure(bits: seq<bool>, pos: nat, counter: nat)
    ensures SignalGroupAt(bits, pos, counter) == Fail(InvalidSignalGroupType)
        <==> pos + 3 <= |bits| && FieldValue(bits, pos, 3) >= 4 && EscapedValue(bits, pos + 3, 5, 8, 16).Ok?
  {
    if pos + 3 <= |bits| {
      EscapedValue32Fits(bits, pos + 3, 5, 8, 16);
      var bs := EscapedValue32(bits, pos + 3, 5, 8, 16);
      if bs.Ok? && FieldValue(bits, pos, 3) < 4 {
        OptionalLayoutFailure(bits, bs.value.next);
      }
    }
  }

  /** An optional layout never fails with InvalidSignalGroupType. */
  lemma OptionalLayoutFailure(bits: seq<bool>, pos: nat)
    ensures OptionalLayout(bits, pos) != Fail(InvalidSignalGroupType)
  {
    if pos < |bits| && bits[pos] {
      SpeakerConfigFailures(bits, pos + 1);
    }
  }

  /** Adding a parsed group whose IDs continue the ones before keeps the
      invariant. */
  lemma AddGroupInv(s: Signals, g: SignalGroup)
    requires SignalsInv(s) && GroupWf(g)
    requires g.metaDataElementIds == IdsFrom(|AllIds(s.signalGroups)|, IdCount(g.signalGroupType, g.bsNumberOfSignals))
    ensures SignalsInv(AddGroup(s, g))
    ensures |AllIds(AddGroup(s, g).signalGroups)| == |AllIds(s.signalGroups)| + |g.metaDataElementIds|
    ensures AddGroup(s, g).signalGroups[..|s.signalGroups|] == s.signalGroups
  {
    var groups := s.signalGroups + [g];
    assert groups[..|groups| - 1] == s.signalGroups;
    IdsContinue(|AllIds(s.signalGroups)|, |g.metaDataElementIds|);
  }

  /** The group loop keeps the invariant and adds exactly `remaining`
      groups after the ones in `acc`. */
  lemma {:induction false} SignalsLoopSound(bits: seq<bool>, pos: nat, remaining: nat, issued: nat, acc: Signals,
                                            res: Parsed<Signals>)
    requires SignalsInv(acc) && issued == |AllIds(acc.signalGroups)|
    requires SignalsLoop(bits, pos, remaining, issued, acc) == Ok(res)
    ensures SignalsInv(res.item)
    ensures |res.item.signalGroups| == |acc.signalGroups| + remaining
    ensures res.item.signalGroups[..|acc.signalGroups|] == acc.signalGroups
    decreases remaining
  {
    if remaining > 0 {
      var g, p, k, n, next := SignalsLoopFirst(bits, pos, remaining, issued, acc, res);
      AddGroupInv(acc, g);
      SignalsLoopSound(bits, p, k, n, next, res);
      assert res.item.signalGroups[..|acc.signalGroups|]
          == res.item.signalGroups[..|next.signalGroups|][..|acc.signalGroups|];
    }
  }

  /** The first group `g` of a loop that succeeds: a well-formed group with
      the next IDs, after which the loop goes on from `p` with `k` groups to
      go, `n` IDs handed out and the signals `next`. */
  lemma SignalsLoopFirst(bits: seq<bool>, pos: nat, remaining: nat, issued: nat, acc: Signals, res: Parsed<Signals>)
    returns (g: SignalGroup, p: nat, k: nat, n: nat, next: Signals)
    requires remaining > 0 && SignalsLoop(bits, pos, remaining, issued, acc) == Ok(res)
    ensures GroupWf(g)
    ensures g.metaDataElementIds == IdsFrom(issued, IdCount(g.signalGroupType, g.bsNumberOfSignals))
    ensures k == remaining - 1 && n == issued + |g.metaDataElementIds| && next == AddGroup(acc, g)
    ensures SignalsLoop(bits, p, k, n, next) == Ok(res)
  {
    var step := SignalGroupAt(bits, pos, issued).value;
    GroupSound(bits, pos, issued, step);
    g, p, k, n, next := step.item, step.next, remaining - 1, issued + |step.item.metaDataElementIds|, AddGroup(acc, step.item);
    SignalsLoopStep(bits, pos, remaining, issued, acc, step, k, n, next);
  }

  /** One pass of the group loop: a group read, the loop goes on after it. */
  lemma SignalsLoopStep(bits: seq<bool>, pos: nat, remaining: nat, issued: nat, acc: Signals, step: Parsed<SignalGroup>,
                        k: nat, n: nat, next: Signals)
    requires remaining > 0 && SignalGroupAt(bits, pos, issued) == Ok(step)
    requires k == remaining - 1 && n == issued + |step.item.metaDataElementIds| && next == AddGroup(acc, step.item)
    ensures SignalsLoop(bits, pos, remaining, issued, acc) == SignalsLoop(bits, step.next, k, n, next)
  {
  }

  /** signals3d() is the group loop after the group count. */
  lemma SignalsFromCount(bits: seq<bool>, pos: nat, numGroups: nat, next: nat, count: nat)
    requires ReadAt(bits, pos, 5) == Ok(Parsed(numGroups, next)) && count == numGroups + 1
    ensures Signals3d(bits, pos) == SignalsLoop(bits, next, count, 0, DefaultSignals)
  {
  }

  /** The 8-bit counter after one more ID: wrapping from 255 to 0. */
  lemma CounterStep(x: nat)
    ensures (x % 256 + 1) % 256 == (x + 1) % 256
  {
  }

  /** A group that cannot be read ends the group loop with its failure. */
  lemma SignalsLoopFail(bits: seq<bool>, pos: nat, remaining: nat, issued: nat, acc: Signals, e: Error)
    requires remaining > 0 && SignalGroupAt(bits, pos, issued) == Fail(e)
    ensures SignalsLoop(bits, pos, remaining, issued, acc) == Fail(e)
  {
  }

  /** The errors signals3d() can end with: the buffer runs out, a layout
      has a CICP layout index without a NUM_SPEAKERS entry, or a group type
      is above 3. */
  predicate SignalsError(e: Error)
  {
    e == ReaderExhausted || e == InvalidLayoutIndex || e == InvalidSignalGroupType
  }

  /** A group that cannot be read ends with one of those errors. */
  lemma GroupErrors(bits: seq<bool>, pos: nat, counter: nat)
    requires SignalGroupAt(bits, pos, counter).Fail?
    ensures SignalsError(SignalGroupAt(bits, pos, counter).error)
  {
    if pos + 3 <= |bits| {
      EscapedValue32Fits(bits, pos + 3, 5, 8, 16);
      var bs := EscapedValue32(bits, pos + 3, 5, 8, 16);
      if bs.Ok? && bs.value.next < |bits| && bits[bs.value.next] {
        SpeakerConfigFailures(bits, bs.value.next + 1);
      }
    }
  }

  /** The group loop ends with one of those errors when it fails. */
  lemma {:induction false} SignalsLoopErrors(bits: seq<bool>, pos: nat, remaining: nat, issued: nat, acc: Signals)
    requires SignalsLoop(bits, pos, remaining, issued, acc).Fail?
    ensures SignalsError(SignalsLoop(bits, pos, remaining, issued, acc).error)
    decreases remaining
  {
    if remaining > 0 {
      var g := SignalGroupAt(bits, pos, issued);
      if g.Fail? {
        GroupErrors(bits, pos, issued);
        SignalsLoopFail(bits, pos, remaining, issued, acc, g.error);
      } else {
        var step := g.value;
        var k, n, next := remaining - 1, issued + |step.item.metaDataElementIds|, AddGroup(acc, step.item);
        SignalsLoopStep(bits, pos, remaining, issued, acc, step, k, n, next);
        SignalsLoopErrors(bits, step.next, k, n, next);
      }
    }
  }

  /** signals3d() ends with one of those errors when it fails. */
  lemma SignalsErrors(bits: seq<bool>, pos: nat)
    requires Signals3d(bits, pos).Fail?
    ensures SignalsError(Signals3d(bits, pos).error)
  {
    if pos + 5 <= |bits| {
      var n := ReadAt(bits, pos, 5).value;
      var count := n.item + 1;
      SignalsFromCount(bits, pos, n.item, n.next, count);
      SignalsLoopErrors(bits, n.next, count, 0, DefaultSignals);
    }
  }

  /** signals3d() yields as many groups as its 5-bit count field plus one
      (so between 1 and 32), each well formed, with every total the sum
      over the groups of its type and the IDs running 0, 1, 2, ... across
      the groups, modulo 256. */
  lemma SignalsSound(bits: seq<bool>, pos: nat, res: Parsed<Signals>)
    requires Signals3d(bits, pos) == Ok(res)
    ensures SignalsInv(res.item)
    ensures pos + 5 <= |bits| && |res.item.signalGroups| == FieldValue(bits, pos, 5) + 1
    ensures 1 <= |res.item.signalGroups| <= 32
  {
    var n := ReadAt(bits, pos, 5).value;
    assert n.item == FieldValue(bits, pos, 5);
    Pow2Values();
    assert AllIds(DefaultSignals.signalGroups) == [];
    SignalsLoopSound(bits, n.next, n.item + 1, 0, DefaultSignals, res);
  }

  /** Every group of a well-formed list is well formed. */
  lemma {:induction false} GroupsWfIndex(groups: seq<SignalGroup>, k: nat)
    requires GroupsWf(groups) && k < |groups|
    ensures GroupWf(groups[k])
    decreases |groups|
  {
    if k < |groups| - 1 {
      var init := groups[..|groups| - 1];
      GroupsWfIndex(init, k);
      assert init[k] == groups[k];
    }
  }

  /** The four totals add up to the signals of all groups. */
  lemma {:induction false} TotalsAddUp(groups: seq<SignalGroup>)
    requires forall k | 0 <= k < |groups| :: groups[k].signalGroupType < 4
    ensures TypeTotal(groups, 0) + TypeTotal(groups, 1) + TypeTotal(groups, 2) + TypeTotal(groups, 3)
         == SignalCount(groups)
  {
    if groups != [] {
      TotalsAddUp(groups[..|groups| - 1]);
    }
  }

  /** Each group brings at most 65822 signals, so the totals never leave
      the range of the source's 32-bit counters. */
  lemma {:induction false} SignalCountBound(groups: seq<SignalGroup>)
    requires forall k | 0 <= k < |groups| :: groups[k].bsNumberOfSignals <= EscapedMax(5, 8, 16)
    ensures SignalCount(groups) <= |groups| * 65822
  {
    Pow2Values();
    if groups != [] {
      SignalCountBound(groups[..|groups| - 1]);
    }
  }
}
