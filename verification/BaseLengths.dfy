/** A BASE whose announced length does not reach its end: which subgroups the parser takes, and when it rejects. */
module BaseLengths {
  import opened Base
  import opened BaseRoundTrip
  import opened Bytes
  import opened CodecConfig
  import opened Metadata

  lemma BisCut(at: nat, b: Bis, dstLen: int, rest: seq<byte>, left: byte, n: nat, csc: Csc, acc: seq<Bis>)
    requires n > 0 && |acc| < MAX_BISES && left < |BisFrom(at, b, dstLen)|
    ensures ParseBises(BisFrom(at, b, dstLen) + rest, left, n, csc, acc).outcome == Rejected
  {
    hide CscBytes, ParseCsc;
    var c := CscBytes(b.csc, dstLen - at - 1);
    assert (BisFrom(at, b, dstLen) + rest)[1] == c[0];
  }

  /** BISes for which not enough octets are announced are rejected. */
  lemma {:induction false} BisesCut(at: nat, bs: seq<Bis>, dstLen: int, rest: seq<byte>, left: byte, csc: Csc,
                                    acc: seq<Bis>)
    requires AllInTables(bs) && |acc| + |bs| <= MAX_BISES && left < |BisesFrom(at, bs, dstLen)|
    ensures ParseBises(BisesFrom(at, bs, dstLen) + rest, left, |bs|, csc, acc).outcome == Rejected
    decreases |bs|
  {
    hide BisFrom, ParseBises, InTables, Override, Truncated;
    var s := BisFrom(at, bs[0], dstLen);
    var tail := BisesFrom(at + |s|, bs[1..], dstLen) + rest;
    assert BisesFrom(at, bs, dstLen) + rest == s + tail;
    if left < |s| {
      BisCut(at, bs[0], dstLen, tail, left, |bs|, csc, acc);
    } else {
      BisParses(at, bs[0], dstLen, tail, left, |bs|, csc, acc);
      var r := Bis(bs[0].index, Override(csc, Truncated(bs[0].csc, dstLen - at - 1)));
      BisesCut(at + |s|, bs[1..], dstLen, rest, left - |s|, csc, acc + [r]);
    }
  }

  /** The head of a subgroup, around a configuration and metadata whose length octets are right. */
  lemma AroundCut(g: Subgroup, c: seq<byte>, m: seq<byte>, rest: seq<byte>, left: byte, under: Contexts)
    requires |g.bises| <= 255 && c != [] && m != [] && c[0] == |c| - 1 && m[0] == |m| - 1
    requires MIN_SUBGROUP_LEN <= left < 6 + |c| + |m|
    requires ParseCsc(c[1..] + (m + rest), c[0], NO_CSC).outcome == Accepted
    ensures ParseHead(GroupHeader(g) + (c + (m + rest)), left, under).outcome == Rejected
  {
    hide GroupHeader, ParseCsc, GetMetadata, FromLe;
    var s := GroupHeader(g) + (c + (m + rest));
    assert s[6] == c[0] && s[7..] == c[1..] + (m + rest);
    var p: nat := 7 + s[6] as nat;
    assert s[p..] == m + rest && s[p] == m[0];
  }

  lemma HeadCut(at: nat, g: Subgroup, dstLen: int, rest: seq<byte>, left: byte, under: Contexts)
    requires GroupShaped(g) && MIN_SUBGROUP_LEN <= left < |HeadFrom(at, g, dstLen)| <= 255
    ensures ParseHead(HeadFrom(at, g, dstLen) + rest, left, under).outcome == Rejected
  {
    hide GroupHeader, CscBytes, MetadataBytes, ParseCsc, GetMetadata, ParseHead, InTables, ValidContexts, Merge,
         Truncated, Fitting, AllInTables, MetadataTail;
    var h, c, m := GroupHeader(g), HeadCsc(at, g, dstLen), HeadMetadata(at, g, dstLen);
    assert HeadFrom(at, g, dstLen) + rest == h + (c + (m + rest));
    ParseBuiltCsc(g.csc, dstLen - at - 6, m + rest, NO_CSC);
    MetadataParsesOn(g.meta, dstLen - at - 6 - |c|, rest, under);
    AroundCut(g, c, m, rest, left, under);
  }

  lemma HeadFails(s: seq<byte>, left: byte, n: nat, under: seq<Contexts>, acc: seq<Subgroup>)
    requires n > 0 && left >= MIN_SUBGROUP_LEN && |under| == MAX_SUBGROUPS && |acc| < MAX_SUBGROUPS
    requires ParseHead(s, left, under[|acc|]).outcome == Rejected
    ensures ParseGroups(s, left, n, under, acc) == GroupsOut(Rejected, acc)
  {
    hide ParseHead, ParseBises;
  }

  lemma BisesFail(s: seq<byte>, left: byte, n: nat, under: seq<Contexts>, acc: seq<Subgroup>)
    requires n > 0 && left >= MIN_SUBGROUP_LEN && |under| == MAX_SUBGROUPS && |acc| < MAX_SUBGROUPS
    requires var h := ParseHead(s, left, under[|acc|]);
      h.outcome == Accepted && ParseBises(h.rest, h.left, h.count, h.group.csc, []).outcome == Rejected
    ensures ParseGroups(s, left, n, under, acc) == GroupsOut(Rejected, acc)
  {
    hide ParseHead, ParseBises;
  }

  /** A subgroup for which not enough octets are announced, but those of an empty one, is rejected. */
  lemma GroupCut(at: nat, g: Subgroup, dstLen: int, tail: seq<byte>, left: byte, n: nat, under: seq<Contexts>,
                 acc: seq<Subgroup>)
    requires GroupInRange(g) && MIN_SUBGROUP_LEN <= left < |GroupFrom(at, g, dstLen)| <= 255 && n > 0
    requires |under| == MAX_SUBGROUPS && |acc| < MAX_SUBGROUPS
    ensures ParseGroups(GroupFrom(at, g, dstLen) + tail, left, n, under, acc) == GroupsOut(Rejected, acc)
  {
    hide ParseHead, ParseBises, HeadFrom, BisesFrom, ParseGroups, ReadHead, InTables, AllInTables, ValidContexts, Stops;
    var u, h := under[|acc|], HeadFrom(at, g, dstLen);
    var bises := BisesFrom(at + |h|, g.bises, dstLen);
    var s := GroupFrom(at, g, dstLen) + tail;
    assert s == h + (bises + tail);
    if left < |h| {
      HeadCut(at, g, dstLen, bises + tail, left, u);
      HeadFails(s, left, n, under, acc);
    } else {
      HeadReadable(at, g, dstLen, bises + tail, u);
      HeadParses(at, g, dstLen, bises + tail, left, u);
      BisesCut(at + |h|, g.bises, dstLen, tail, left - |h|, ParseHead(s, left, u).group.csc, []);
      BisesFail(s, left, n, under, acc);
    }
  }

  lemma HeadReadable(at: nat, g: Subgroup, dstLen: int, rest: seq<byte>, under: Contexts)
    requires GroupInRange(g)
    ensures ReadHead(at, g, dstLen, rest, under).Some?
  {
    hide GetMetadata, MetadataTail, HeadCsc, Merge, Fitting, Stops, InTables, AllInTables, ValidContexts, TailOf,
         ReceivedHead;
    var room := dstLen - at - 6 - |HeadCsc(at, g, dstLen)|;
    TailPlain(g.meta, room);
    ParseTail(MetadataTail(g.meta, room), rest, Merge(under, Fitting(g.meta.contexts, room - 1)));
  }

  /** The number of subgroups that lie within `left` octets. */
  function Within(at: nat, gs: seq<Subgroup>, dstLen: int, left: nat): (k: nat)
    requires Counted(gs)
    ensures k <= |gs|
    decreases |gs|
  {
    if gs == [] || left < |GroupFrom(at, gs[0], dstLen)| then 0
    else
      var n := |GroupFrom(at, gs[0], dstLen)|;
      1 + Within(at + n, gs[1..], dstLen, left - n)
  }

  lemma {:induction false} WithinExactly(at: nat, gs: seq<Subgroup>, dstLen: int, left: nat)
    requires Counted(gs)
    ensures var k := Within(at, gs, dstLen, left);
      && |GroupsFrom(at, gs[..k], dstLen)| <= left
      && (k < |gs| ==> left < |GroupsFrom(at, gs[..k + 1], dstLen)|)
    decreases |gs|
  {
    hide GroupFrom;
    var k := Within(at, gs, dstLen, left);
    if gs == [] || left < |GroupFrom(at, gs[0], dstLen)| {
      if gs != [] {
        assert gs[..1][0] == gs[0] && gs[..1][1..] == [];
      }
    } else {
      var n := |GroupFrom(at, gs[0], dstLen)|;
      WithinExactly(at + n, gs[1..], dstLen, left - n);
      assert gs[..k][1..] == gs[1..][..k - 1] && gs[..k][0] == gs[0];
      if k < |gs| {
        assert gs[..k + 1][1..] == gs[1..][..k];
      }
    }
  }

  lemma {:induction false} GroupsAnswered(at: nat, gs: seq<Subgroup>, dstLen: int, rest: seq<byte>, left: byte,
                                          under: seq<Contexts>, acc: seq<Subgroup>)
    requires GroupsInRange(gs) && |GroupsFrom(at, gs, dstLen)| <= 255
    requires |under| == MAX_SUBGROUPS && |acc| + |gs| <= MAX_SUBGROUPS
    ensures var k := Within(at, gs, dstLen, left);
      ParseGroups(GroupsFrom(at, gs, dstLen) + rest, left, |gs|, under, acc)
      == GroupsOut(if k == |gs| || left - |GroupsFrom(at, gs[..k], dstLen)| < MIN_SUBGROUP_LEN then Accepted
                   else Rejected,
                   acc + ReceivedGroups(at, gs, dstLen, under[|acc|..])[..k])
    decreases |gs|
  {
    hide ParseGroups, GroupFrom, GroupInRange, ReceivedGroup, GroupsFrom, ReadGroup, ReceivedGroups, Within;
    CountedRange(gs);
    ReceivedHeadFirst(at, gs, dstLen, under, acc);
    WithinFirst(at, gs, dstLen, left);
    FirstOfGroups(at, gs, dstLen, rest);
    var all := GroupsFrom(at, gs, dstLen) + rest;
    if gs == [] {
      NoGroupsLeft(all, left, under, acc);
    } else {
      var n, k := |GroupFrom(at, gs[0], dstLen)|, Within(at, gs, dstLen, left);
      var tail, u := GroupsFrom(at + n, gs[1..], dstLen) + rest, under[|acc|];
      if left < MIN_SUBGROUP_LEN && left < n {
        TooFewLeft(all, left, |gs|, under, acc);
        assert acc + ReceivedGroups(at, gs, dstLen, under[|acc|..])[..0] == acc;
      } else if left < n {
        GroupCut(at, gs[0], dstLen, tail, left, |gs|, under, acc);
        assert acc + ReceivedGroups(at, gs, dstLen, under[|acc|..])[..0] == acc;
      } else {
        RangeShaped(gs[0]);
        GroupParses(at, gs[0], dstLen, tail, left, |gs|, under, acc);
        GroupReceived(at, gs[0], dstLen, tail, u);
        var r := ReceivedGroup(at, gs[0], dstLen, u);
        GroupsAnswered(at + n, gs[1..], dstLen, rest, left - n, under, acc + [r]);
        FirstTaken(at, gs, dstLen, under, acc, k);
      }
    }
  }

  lemma RangeShaped(g: Subgroup)
    requires GroupInRange(g)
    ensures GroupShaped(g)
  {
  }

  lemma TooFewLeft(s: seq<byte>, left: byte, n: nat, under: seq<Contexts>, acc: seq<Subgroup>)
    requires |under| == MAX_SUBGROUPS && left < MIN_SUBGROUP_LEN
    ensures ParseGroups(s, left, n, under, acc) == GroupsOut(Accepted, acc)
  {
  }

  lemma WithinFirst(at: nat, gs: seq<Subgroup>, dstLen: int, left: nat)
    requires Counted(gs)
    ensures gs == [] || left < |GroupFrom(at, gs[0], dstLen)| ==>
              Within(at, gs, dstLen, left) == 0 && |GroupsFrom(at, gs[..0], dstLen)| == 0
    ensures gs != [] && left >= |GroupFrom(at, gs[0], dstLen)| ==>
              var n := |GroupFrom(at, gs[0], dstLen)|;
              var k := Within(at + n, gs[1..], dstLen, left - n);
              && Within(at, gs, dstLen, left) == 1 + k
              && |GroupsFrom(at, gs[..1 + k], dstLen)| == n + |GroupsFrom(at + n, gs[1..][..k], dstLen)|
  {
    hide GroupFrom;
    if gs != [] && left >= |GroupFrom(at, gs[0], dstLen)| {
      var k := Within(at, gs, dstLen, left);
      assert gs[..k][1..] == gs[1..][..k - 1] && gs[..k][0] == gs[0];
    }
  }

  lemma FirstOfGroups(at: nat, gs: seq<Subgroup>, dstLen: int, rest: seq<byte>)
    requires Counted(gs)
    ensures gs != [] ==>
              var s := GroupFrom(at, gs[0], dstLen);
              && GroupsFrom(at, gs, dstLen) + rest == s + (GroupsFrom(at + |s|, gs[1..], dstLen) + rest)
              && |GroupsFrom(at, gs, dstLen)| == |s| + |GroupsFrom(at + |s|, gs[1..], dstLen)|
  {
    hide GroupFrom;
  }

  lemma FirstTaken(at: nat, gs: seq<Subgroup>, dstLen: int, under: seq<Contexts>, acc: seq<Subgroup>, k: nat)
    requires Counted(gs) && |acc| + |gs| <= |under| && 0 < k <= |gs|
    ensures var r := ReceivedGroup(at, gs[0], dstLen, under[|acc|]);
      var at' := at + |GroupFrom(at, gs[0], dstLen)|;
      acc + ReceivedGroups(at, gs, dstLen, under[|acc|..])[..k]
      == acc + [r] + ReceivedGroups(at', gs[1..], dstLen, under[|acc + [r]|..])[..k - 1]
  {
    hide GroupFrom, ReceivedGroup;
    var u := under[|acc|..];
    assert u[0] == under[|acc|] && u[1..] == under[|acc| + 1..];
    var r, at' := ReceivedGroup(at, gs[0], dstLen, u[0]), at + |GroupFrom(at, gs[0], dstLen)|;
    var tail := ReceivedGroups(at', gs[1..], dstLen, u[1..]);
    assert ([r] + tail)[..k] == [r] + tail[..k - 1];
  }

  /** A structure in range that is announced with `len` octets, counted as the builder counts them: the parser takes the
      subgroups that lie within these, and accepts exactly if these are all, or if fewer than eight octets are left for
      the next one, which is then missing without a word. The number of subgroups it stores is always the one the
      structure says. */
  lemma AnnouncedLength(b: Base, first: byte, dstLen: int, under: seq<Contexts>, rest: seq<byte>, len: byte)
    requires InRange(b) && |Written(first, b, dstLen)| <= dstLen <= 255 && |under| == MAX_SUBGROUPS && len >= 4
    ensures var s, gs := Written(first, b, dstLen), b.groups;
      var k := Within(8, gs, dstLen, len - 4);
      var used := |GroupsFrom(8, gs[..k], dstLen)|;
      && |s| >= 8 && used <= len - 4
      && (k < |gs| ==> len - 4 < |GroupsFrom(8, gs[..k + 1], dstLen)|)
      && ParseBase(s[2..] + rest, len, under)
         == BaseOut(if k == |gs| || len - 4 - used < 8 then Accepted else Rejected, |gs|,
                    Base(b.delay, ReceivedGroups(8, gs, dstLen, under)[..k]))
  {
    hide GroupsFrom, AddGroups, ParseGroups, Le, FromLe, ReceivedGroups, Within, GroupInRange;
    RangeCountable(b);
    GroupsAppended([first] + BaseHeader(b), b.groups, dstLen);
    WithinExactly(8, b.groups, dstLen, len - 4);
    var s := Written(first, b, dstLen);
    var d := s[2..] + rest;
    var tail := GroupsFrom(8, b.groups, dstLen) + rest;
    assert s == [first] + BaseHeader(b) + GroupsFrom(8, b.groups, dstLen);
    assert d == Le(BASIC_AUDIO_ANNOUNCEMENT, 2) + Le(b.delay, 3) + [|b.groups|] + tail;
    assert d[2..] == Le(b.delay, 3) + ([|b.groups|] + tail) && d[5] == |b.groups| && d[6..] == tail;
    LeRoundTrip(b.delay, 3, [|b.groups|] + tail);
    GroupsAnswered(8, b.groups, dstLen, rest, len - 4, under, []);
    assert under[0..] == under;
  }
}
