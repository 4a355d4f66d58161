/** What a receiver reads out of a built BASE. */
module BaseRoundTrip {
  import opened AscsTypes
  import opened Base
  import opened Bytes
  import opened CodecConfig
  import opened Metadata

  /** The numbers have codes, the contexts are assigned ones, the counts are those of the structures. */
  predicate GroupShaped(g: Subgroup) {
    && InTables(g.csc) && AllInTables(g.bises)
    && ValidContexts(g.meta.contexts) && |g.meta.programInfo| <= 255
    && |g.bises| <= MAX_BISES
  }

  /** And opaque upper-layer data, if any, do not begin with an element the parser goes into. */
  predicate GroupInRange(g: Subgroup) {
    GroupShaped(g) && Stops(g.meta.upperLayer)
  }

  predicate AllInTables(bs: seq<Bis>) {
    forall j | 0 <= j < |bs| :: InTables(bs[j].csc)
  }

  predicate GroupsInRange(gs: seq<Subgroup>) {
    forall i | 0 <= i < |gs| :: GroupInRange(gs[i])
  }

  predicate GroupsShaped(gs: seq<Subgroup>) {
    forall i | 0 <= i < |gs| :: GroupShaped(gs[i])
  }

  predicate Shaped(b: Base) {
    |b.groups| <= MAX_SUBGROUPS && GroupsShaped(b.groups)
  }

  predicate InRange(b: Base) {
    |b.groups| <= MAX_SUBGROUPS && GroupsInRange(b.groups)
  }

  lemma RangeCountable(b: Base)
    requires InRange(b) || Shaped(b)
    ensures Countable(b)
  {
  }

  // ---- what the builder appends behind the first `at` octets ----

  function BisFrom(at: nat, b: Bis, dstLen: int): (s: seq<byte>)
    ensures |s| >= 2
  {
    [b.index] + CscBytes(b.csc, dstLen - at - 1)
  }

  function BisesFrom(at: nat, bs: seq<Bis>, dstLen: int): seq<byte>
    decreases |bs|
  {
    if bs == [] then []
    else
      var s := BisFrom(at, bs[0], dstLen);
      s + BisesFrom(at + |s|, bs[1..], dstLen)
  }

  function HeadCsc(at: nat, g: Subgroup, dstLen: int): seq<byte> {
    CscBytes(g.csc, dstLen - at - 6)
  }

  function HeadMetadata(at: nat, g: Subgroup, dstLen: int): seq<byte> {
    MetadataBytes(g.meta, dstLen - at - 6 - |HeadCsc(at, g, dstLen)|)
  }

  function HeadFrom(at: nat, g: Subgroup, dstLen: int): (s: seq<byte>)
    requires |g.bises| <= 255
    ensures |s| >= MIN_SUBGROUP_LEN
  {
    GroupHeader(g) + HeadCsc(at, g, dstLen) + HeadMetadata(at, g, dstLen)
  }

  function GroupFrom(at: nat, g: Subgroup, dstLen: int): (s: seq<byte>)
    requires |g.bises| <= 255
    ensures |s| >= MIN_SUBGROUP_LEN
  {
    var h := HeadFrom(at, g, dstLen);
    h + BisesFrom(at + |h|, g.bises, dstLen)
  }

  function GroupsFrom(at: nat, gs: seq<Subgroup>, dstLen: int): seq<byte>
    requires Counted(gs)
    decreases |gs|
  {
    if gs == [] then []
    else
      var s := GroupFrom(at, gs[0], dstLen);
      s + GroupsFrom(at + |s|, gs[1..], dstLen)
  }

  lemma BisAppended(done: seq<byte>, b: Bis, dstLen: int)
    ensures AddBis(done, b, dstLen) == done + BisFrom(|done|, b, dstLen)
  {
    hide CscBytes;
    var c := CscBytes(b.csc, dstLen - |done| - 1);
    assert (done + [b.index]) + c == done + ([b.index] + c);
  }

  lemma {:induction false} BisesAppended(done: seq<byte>, bs: seq<Bis>, dstLen: int)
    ensures AddBises(done, bs, dstLen) == done + BisesFrom(|done|, bs, dstLen)
    decreases |bs|
  {
    hide AddBis, BisFrom;
    if bs == [] {
      assert done + [] == done;
    } else {
      var next := AddBis(done, bs[0], dstLen);
      BisAppended(done, bs[0], dstLen);
      BisesAppended(next, bs[1..], dstLen);
      assert done + BisesFrom(|done|, bs, dstLen) == next + BisesFrom(|next|, bs[1..], dstLen);
    }
  }

  lemma HeadAppended(done: seq<byte>, g: Subgroup, dstLen: int)
    requires |g.bises| <= 255
    ensures AddHead(done, g, dstLen) == done + HeadFrom(|done|, g, dstLen)
  {
    hide CscBytes, MetadataBytes, GroupHeader;
    var h, c := GroupHeader(g), HeadCsc(|done|, g, dstLen);
    assert |done + h| == |done| + 6 && |done + h + c| == |done| + 6 + |c|;
    assert done + HeadFrom(|done|, g, dstLen) == done + h + c + HeadMetadata(|done|, g, dstLen);
  }

  lemma GroupAppended(done: seq<byte>, g: Subgroup, dstLen: int)
    requires |g.bises| <= 255
    ensures AddGroup(done, g, dstLen) == done + GroupFrom(|done|, g, dstLen)
  {
    hide AddHead, HeadFrom, AddBises, BisesFrom;
    HeadAppended(done, g, dstLen);
    var h := HeadFrom(|done|, g, dstLen);
    BisesAppended(done + h, g.bises, dstLen);
    assert (done + h) + BisesFrom(|done| + |h|, g.bises, dstLen)
        == done + (h + BisesFrom(|done| + |h|, g.bises, dstLen));
  }

  lemma {:induction false} GroupsAppended(done: seq<byte>, gs: seq<Subgroup>, dstLen: int)
    requires Counted(gs)
    ensures AddGroups(done, gs, dstLen) == done + GroupsFrom(|done|, gs, dstLen)
    decreases |gs|
  {
    hide AddGroup, GroupFrom;
    if gs == [] {
      assert done + [] == done;
    } else {
      GroupAppended(done, gs[0], dstLen);
      var next := AddGroup(done, gs[0], dstLen);
      GroupsAppended(next, gs[1..], dstLen);
      assert done + GroupsFrom(|done|, gs, dstLen) == next + GroupsFrom(|next|, gs[1..], dstLen);
    }
  }

  // ---- what a receiver ends up with ----

  /** A BIS has the configuration of its subgroup, overridden by those of its own fields that fitted. */
  function ReceivedBises(at: nat, under: Csc, bs: seq<Bis>, dstLen: int): (r: seq<Bis>)
    ensures |r| == |bs|
    decreases |bs|
  {
    if bs == [] then []
    else
      var own := Truncated(bs[0].csc, dstLen - at - 1);
      [Bis(bs[0].index, Override(under, own))]
      + ReceivedBises(at + |BisFrom(at, bs[0], dstLen)|, under, bs[1..], dstLen)
  }

  /** The subgroup without its BISes; its contexts are stored over the ones there were. */
  function ReceivedHead(at: nat, g: Subgroup, dstLen: int, under: Contexts): Subgroup {
    var csc := Truncated(g.csc, dstLen - at - 6);
    var contexts := Fitting(g.meta.contexts, dstLen - at - 6 - |HeadCsc(at, g, dstLen)| - 1);
    Subgroup(g.format, g.company, g.vendorCodec, csc, Meta(Merge(under, contexts), [], [], []), [])
  }

  function ReceivedGroup(at: nat, g: Subgroup, dstLen: int, under: Contexts): Subgroup
    requires |g.bises| <= 255
  {
    var head := ReceivedHead(at, g, dstLen, under);
    head.(bises := ReceivedBises(at + |HeadFrom(at, g, dstLen)|, head.csc, g.bises, dstLen))
  }

  function ReceivedGroups(at: nat, gs: seq<Subgroup>, dstLen: int, under: seq<Contexts>): (r: seq<Subgroup>)
    requires Counted(gs) && |gs| <= |under|
    ensures |r| == |gs|
    decreases |gs|
  {
    if gs == [] then []
    else
      [ReceivedGroup(at, gs[0], dstLen, under[0])]
      + ReceivedGroups(at + |GroupFrom(at, gs[0], dstLen)|, gs[1..], dstLen, under[1..])
  }

  function Received(b: Base, dstLen: int, under: seq<Contexts>): Base
    requires Countable(b) && |b.groups| <= |under|
  {
    Base(b.delay, ReceivedGroups(8, b.groups, dstLen, under))
  }

  // ---- the parser reads all of it ----

  lemma TruncatedInTables(c: Csc, maxLen: int)
    requires InTables(c)
    ensures InTables(Truncated(c, maxLen))
  {
    var t := Truncated(c, maxLen);
    assert Get(t, 0) == t.freq && Get(t, 1) == t.dur && Get(c, 0) == c.freq && Get(c, 1) == c.dur;
  }

  lemma ParseBuiltCsc(c: Csc, maxLen: int, rest: seq<byte>, under: Csc)
    requires InTables(c)
    ensures var s := CscBytes(c, maxLen);
      ParseCsc(s[1..] + rest, s[0], under) == CscResult(Accepted, Override(under, Truncated(c, maxLen)))
  {
    hide Truncated, CscBytes, ParseCsc, InTables;
    TruncatedInTables(c, maxLen);
    ParseOver(c, maxLen, rest, under);
  }

  lemma BisParses(at: nat, b: Bis, dstLen: int, tail: seq<byte>, left: byte, n: nat, csc: Csc, acc: seq<Bis>)
    requires InTables(b.csc) && |acc| < MAX_BISES && left >= |BisFrom(at, b, dstLen)| && n > 0
    ensures var s := BisFrom(at, b, dstLen);
      var r := Bis(b.index, Override(csc, Truncated(b.csc, dstLen - at - 1)));
      ParseBises(s + tail, left, n, csc, acc) == ParseBises(tail, left - |s|, n - 1, csc, acc + [r])
  {
    hide CscBytes, ParseCsc, InTables, Override, Truncated;
    var c := CscBytes(b.csc, dstLen - at - 1);
    assert BisFrom(at, b, dstLen) + tail == [b.index] + (c + tail);
    ParseBuiltCsc(b.csc, dstLen - at - 1, tail, csc);
    AnyBis(b.index, c, tail, left, n, csc, acc);
  }

  /** A BIS with any configuration whose length octet is right: it is taken as far as its parser got over the one of the
      subgroup, be it accepted or rejected. */
  lemma AnyBis(index: byte, c: seq<byte>, tail: seq<byte>, left: byte, n: nat, csc: Csc, acc: seq<Bis>)
    requires c != [] && c[0] == |c| - 1 && left >= 1 + |c| && |acc| < MAX_BISES && n > 0
    requires ParseCsc(c[1..] + tail, c[0], csc).outcome != CodecConfig.Overrun
    ensures ParseBises([index] + (c + tail), left, n, csc, acc)
         == ParseBises(tail, left - 1 - |c|, n - 1, csc, acc + [Bis(index, ParseCsc(c[1..] + tail, c[0], csc).csc)])
  {
    hide ParseCsc;
    var s := [index] + (c + tail);
    assert s[0] == index && s[1] == c[0] && s[2..] == c[1..] + tail && s[2 + s[1]..] == tail;
  }

  lemma {:induction false} BisesParse(at: nat, bs: seq<Bis>, dstLen: int, rest: seq<byte>, left: byte, csc: Csc,
                                      acc: seq<Bis>)
    requires AllInTables(bs) && |acc| + |bs| <= MAX_BISES && left >= |BisesFrom(at, bs, dstLen)|
    ensures ParseBises(BisesFrom(at, bs, dstLen) + rest, left, |bs|, csc, acc)
         == BisOut(Accepted, acc + ReceivedBises(at, csc, bs, dstLen), rest, left - |BisesFrom(at, bs, dstLen)|)
    decreases |bs|
  {
    hide BisFrom, ParseBises, InTables, Override, Truncated;
    if bs == [] {
      assert [] + rest == rest && acc + [] == acc;
      BisesDone(rest, left, csc, acc);
    } else {
      var s := BisFrom(at, bs[0], dstLen);
      var r := Bis(bs[0].index, Override(csc, Truncated(bs[0].csc, dstLen - at - 1)));
      var tail := BisesFrom(at + |s|, bs[1..], dstLen) + rest;
      assert BisesFrom(at, bs, dstLen) + rest == s + tail;
      BisParses(at, bs[0], dstLen, tail, left, |bs|, csc, acc);
      BisesParse(at + |s|, bs[1..], dstLen, rest, left - |s|, csc, acc + [r]);
      assert acc + ReceivedBises(at, csc, bs, dstLen) == acc + [r] + ReceivedBises(at + |s|, csc, bs[1..], dstLen);
    }
  }

  lemma HeaderFields(g: Subgroup, tail: seq<byte>)
    requires |g.bises| <= 255
    ensures var s := GroupHeader(g) + tail;
      && s[0] == |g.bises| && s[1] == g.format && FromLe(s[2..], 2) == g.company && FromLe(s[4..], 2) == g.vendorCodec
      && s[6..] == tail
  {
    hide Le, FromLe;
    var s := GroupHeader(g) + tail;
    assert s[2..] == Le(g.company, 2) + (Le(g.vendorCodec, 2) + tail);
    assert s[4..] == Le(g.vendorCodec, 2) + tail;
    LeRoundTrip(g.company, 2, Le(g.vendorCodec, 2) + tail);
    LeRoundTrip(g.vendorCodec, 2, tail);
  }

  lemma OverNothing(c: Csc)
    ensures Override(NO_CSC, c) == c
  {
  }

  /** The fields of a subgroup, around any configuration and metadata whose length octets are right: both are taken as
      far as their parsers got, be they accepted or rejected. */
  lemma ParseAround(g: Subgroup, c: seq<byte>, m: seq<byte>, rest: seq<byte>, left: byte, under: Contexts)
    requires |g.bises| <= 255 && c != [] && m != [] && c[0] == |c| - 1 && m[0] == |m| - 1
    requires left >= 6 + |c| + |m|
    requires ParseCsc(c[1..] + (m + rest), c[0], NO_CSC).outcome != CodecConfig.Overrun
    ensures var meta := GetMetadata(m[1..] + rest, m[0], under);
      var r := ParseHead(GroupHeader(g) + (c + (m + rest)), left, under);
      if meta.outcome == Metadata.Overrun then r.outcome == CodecConfig.Overrun
      else
        r == HeadOut(Accepted,
                     Subgroup(g.format, g.company, g.vendorCodec, ParseCsc(c[1..] + (m + rest), c[0], NO_CSC).csc,
                              Meta(meta.contexts, [], [], []), []),
                     |g.bises|, rest, left - 6 - |c| - |m|)
  {
    hide GroupHeader, ParseCsc, GetMetadata, FromLe;
    var s := GroupHeader(g) + (c + (m + rest));
    HeaderFields(g, c + (m + rest));
    assert s[6] == c[0] && s[7..] == c[1..] + (m + rest);
    var p := 7 + s[6];
    assert s[p..] == m + rest;
    assert s[p] == m[0] && s[p + 1..] == m[1..] + rest && s[p + 1 + s[p]..] == rest;
  }

  // What is read of subgroups with any upper-layer data: the parser goes on into these, and they may lead it beyond
  // the end of the octets.

  /** The metadata as they are read, in front of `follow`. */
  function ReadMeta(at: nat, g: Subgroup, dstLen: int, follow: seq<byte>, under: Contexts): MetaResult {
    var room := dstLen - at - 6 - |HeadCsc(at, g, dstLen)|;
    var tail := MetadataTail(g.meta, room);
    GetMetadata(tail + follow, |tail|, Merge(under, Fitting(g.meta.contexts, room - 1)))
  }

  function ReadHead(at: nat, g: Subgroup, dstLen: int, follow: seq<byte>, under: Contexts): Option<Subgroup> {
    var m := ReadMeta(at, g, dstLen, follow, under);
    if m.outcome == Metadata.Overrun then None
    else Some(ReceivedHead(at, g, dstLen, under).(meta := Meta(m.contexts, [], [], [])))
  }

  /** All of a subgroup as it is received, but for the contexts, which are what the parser makes of them. */
  function ReadGroup(at: nat, g: Subgroup, dstLen: int, tail: seq<byte>, under: Contexts): Option<Subgroup>
    requires |g.bises| <= 255
  {
    var h := HeadFrom(at, g, dstLen);
    match ReadHead(at, g, dstLen, BisesFrom(at + |h|, g.bises, dstLen) + tail, under)
    case None => None
    case Some(head) => Some(ReceivedGroup(at, g, dstLen, under).(meta := head.meta))
  }

  function ReadGroups(at: nat, gs: seq<Subgroup>, dstLen: int, rest: seq<byte>, under: seq<Contexts>,
                      acc: seq<Subgroup>)
    : GroupsOut
    requires Counted(gs) && |acc| + |gs| <= |under|
    decreases |gs|
  {
    if gs == [] then GroupsOut(Accepted, acc)
    else
      var at' := at + |GroupFrom(at, gs[0], dstLen)|;
      match ReadGroup(at, gs[0], dstLen, GroupsFrom(at', gs[1..], dstLen) + rest, under[|acc|])
      case None => GroupsOut(CodecConfig.Overrun, acc)
      case Some(g) => ReadGroups(at', gs[1..], dstLen, rest, under, acc + [g])
  }

  lemma HeadParses(at: nat, g: Subgroup, dstLen: int, rest: seq<byte>, left: byte, under: Contexts)
    requires GroupShaped(g) && left >= |HeadFrom(at, g, dstLen)|
    ensures var s := HeadFrom(at, g, dstLen);
      match ReadHead(at, g, dstLen, rest, under)
      case None => ParseHead(s + rest, left, under).outcome == CodecConfig.Overrun
      case Some(r) => ParseHead(s + rest, left, under) == HeadOut(Accepted, r, |g.bises|, rest, left - |s|)
  {
    hide GroupHeader, CscBytes, MetadataBytes, ParseCsc, GetMetadata, ParseHead, InTables, ValidContexts, Merge,
         Truncated, Fitting, AllInTables, MetadataTail;
    var h, c, m := GroupHeader(g), HeadCsc(at, g, dstLen), HeadMetadata(at, g, dstLen);
    assert HeadFrom(at, g, dstLen) + rest == h + (c + (m + rest));
    ParseBuiltCsc(g.csc, dstLen - at - 6, m + rest, NO_CSC);
    OverNothing(Truncated(g.csc, dstLen - at - 6));
    MetadataParsesOn(g.meta, dstLen - at - 6 - |c|, rest, under);
    ParseAround(g, c, m, rest, left, under);
  }

  lemma GroupParses(at: nat, g: Subgroup, dstLen: int, tail: seq<byte>, left: byte, n: nat, under: seq<Contexts>,
                    acc: seq<Subgroup>)
    requires GroupShaped(g) && left >= |GroupFrom(at, g, dstLen)| && n > 0
    requires |under| == MAX_SUBGROUPS && |acc| < MAX_SUBGROUPS
    ensures var s := GroupFrom(at, g, dstLen);
      ParseGroups(s + tail, left, n, under, acc)
      == match ReadGroup(at, g, dstLen, tail, under[|acc|])
         case None => GroupsOut(CodecConfig.Overrun, acc)
         case Some(r) => ParseGroups(tail, left - |s|, n - 1, under, acc + [r])
  {
    hide ParseHead, ParseBises, HeadFrom, BisesFrom, ReceivedBises, ReceivedHead, ReadMeta;
    var u, h := under[|acc|], HeadFrom(at, g, dstLen);
    var bises := BisesFrom(at + |h|, g.bises, dstLen);
    assert GroupFrom(at, g, dstLen) + tail == h + (bises + tail);
    HeadParses(at, g, dstLen, bises + tail, left, u);
    var csc := ReceivedHead(at, g, dstLen, u).csc;
    BisesParse(at + |h|, g.bises, dstLen, tail, left - |h|, csc, []);
    var r := ReceivedBises(at + |h|, csc, g.bises, dstLen);
    assert [] + r == r;
  }

  lemma {:induction false} GroupsParse(at: nat, gs: seq<Subgroup>, dstLen: int, rest: seq<byte>, left: byte,
                                       under: seq<Contexts>, acc: seq<Subgroup>)
    requires GroupsShaped(gs) && left >= |GroupsFrom(at, gs, dstLen)|
    requires |under| == MAX_SUBGROUPS && |acc| + |gs| <= MAX_SUBGROUPS
    ensures ParseGroups(GroupsFrom(at, gs, dstLen) + rest, left, |gs|, under, acc)
         == ReadGroups(at, gs, dstLen, rest, under, acc)
    decreases |gs|
  {
    hide ParseGroups, GroupFrom, ReadGroup;
    if gs == [] {
      NoGroupsLeft(GroupsFrom(at, gs, dstLen) + rest, left, under, acc);
    } else {
      var g, s := gs[0], GroupFrom(at, gs[0], dstLen);
      var tail := GroupsFrom(at + |s|, gs[1..], dstLen) + rest;
      assert GroupsFrom(at, gs, dstLen) + rest == s + tail;
      GroupParses(at, g, dstLen, tail, left, |gs|, under, acc);
      var r := ReadGroup(at, g, dstLen, tail, under[|acc|]);
      if r.Some? {
        GroupsParse(at + |s|, gs[1..], dstLen, rest, left - |s|, under, acc + [r.value]);
      }
    }
  }

  lemma NoGroupsLeft(s: seq<byte>, left: byte, under: seq<Contexts>, acc: seq<Subgroup>)
    requires |under| == MAX_SUBGROUPS
    ensures ParseGroups(s, left, 0, under, acc) == GroupsOut(Accepted, acc)
  {
  }

  lemma GroupReceived(at: nat, g: Subgroup, dstLen: int, tail: seq<byte>, under: Contexts)
    requires GroupInRange(g)
    ensures ReadGroup(at, g, dstLen, tail, under) == Some(ReceivedGroup(at, g, dstLen, under))
  {
    hide GetMetadata, MetadataTail, HeadFrom, BisesFrom, ReceivedBises, HeadCsc, Merge, Fitting, Stops, InTables,
         AllInTables, ValidContexts, TailOf;
    var room := dstLen - at - 6 - |HeadCsc(at, g, dstLen)|;
    var follow := BisesFrom(at + |HeadFrom(at, g, dstLen)|, g.bises, dstLen) + tail;
    TailPlain(g.meta, room);
    ParseTail(MetadataTail(g.meta, room), follow, Merge(under, Fitting(g.meta.contexts, room - 1)));
  }

  lemma TailPlain(m: Meta, room: int)
    requires Stops(m.upperLayer)
    ensures Stops(MetadataTail(m, room))
  {
    hide Stops, TailOf;
    TailStops(1 + |WithContexts([], m.contexts, room - 1)|, ProgramInfo(m), m.upperLayer, room);
  }

  lemma {:induction false} GroupsReceived(at: nat, gs: seq<Subgroup>, dstLen: int, rest: seq<byte>,
                                          under: seq<Contexts>, acc: seq<Subgroup>)
    requires GroupsInRange(gs) && |acc| + |gs| <= |under|
    ensures ReadGroups(at, gs, dstLen, rest, under, acc)
         == GroupsOut(Accepted, acc + ReceivedGroups(at, gs, dstLen, under[|acc|..]))
    decreases |gs|
  {
    hide GroupFrom, ReadGroup, ReceivedGroup, GroupsFrom, GroupInRange, ReceivedGroups;
    CountedRange(gs);
    ReceivedHeadFirst(at, gs, dstLen, under, acc);
    if gs != [] {
      var at' := at + |GroupFrom(at, gs[0], dstLen)|;
      GroupReceived(at, gs[0], dstLen, GroupsFrom(at', gs[1..], dstLen) + rest, under[|acc|]);
      GroupsReceived(at', gs[1..], dstLen, rest, under, acc + [ReceivedGroup(at, gs[0], dstLen, under[|acc|])]);
    }
  }

  lemma ReceivedHeadFirst(at: nat, gs: seq<Subgroup>, dstLen: int, under: seq<Contexts>, acc: seq<Subgroup>)
    requires Counted(gs) && |acc| + |gs| <= |under|
    ensures acc + ReceivedGroups(at, gs, dstLen, under[|acc|..])
         == if gs == [] then acc
            else
              var r := ReceivedGroup(at, gs[0], dstLen, under[|acc|]);
              var at' := at + |GroupFrom(at, gs[0], dstLen)|;
              acc + [r] + ReceivedGroups(at', gs[1..], dstLen, under[|acc + [r]|..])
  {
    hide GroupFrom, ReceivedGroup;
    var u := under[|acc|..];
    if gs != [] {
      assert u[0] == under[|acc|] && u[1..] == under[|acc| + 1..];
      var r, at' := ReceivedGroup(at, gs[0], dstLen, u[0]), at + |GroupFrom(at, gs[0], dstLen)|;
      var tail := ReceivedGroups(at', gs[1..], dstLen, u[1..]);
      assert acc + ([r] + tail) == acc + [r] + tail;
    }
  }

  /** Whenever a BASE with any upper-layer data is built without running out of its destination, what the parser makes
      of it is, subgroup by subgroup, all it was built from, but for the contexts: they are what the parser reads on
      behind those that were written. It may read on beyond the end of the octets. */
  lemma BuiltIsRead(b: Base, first: byte, dstLen: int, under: seq<Contexts>, rest: seq<byte>)
    requires Shaped(b) && |Written(first, b, dstLen)| <= dstLen <= 255 && |under| == MAX_SUBGROUPS
    ensures var s, r := Written(first, b, dstLen), ReadGroups(8, b.groups, dstLen, rest, under, []);
      && |s| >= 8
      && ParseBase(s[2..] + rest, |s| - 2, under) == BaseOut(r.outcome, |b.groups|, Base(b.delay, r.groups))
  {
    hide GroupsFrom, AddGroups, ParseGroups, Le, FromLe, ReadGroups;
    GroupsAppended([first] + BaseHeader(b), b.groups, dstLen);
    var s := Written(first, b, dstLen);
    var d := s[2..] + rest;
    var tail := GroupsFrom(8, b.groups, dstLen) + rest;
    assert s == [first] + BaseHeader(b) + GroupsFrom(8, b.groups, dstLen);
    assert d == Le(BASIC_AUDIO_ANNOUNCEMENT, 2) + Le(b.delay, 3) + [|b.groups|] + tail;
    assert d[2..] == Le(b.delay, 3) + ([|b.groups|] + tail) && d[5] == |b.groups| && d[6..] == tail;
    LeRoundTrip(b.delay, 3, [|b.groups|] + tail);
    GroupsParse(8, b.groups, dstLen, rest, |s| - 6, under, []);
  }

  /** Whenever a BASE in range is built without running out of its destination, parsing it gives the same delay,
      subgroups, codec ids and BIS indices, the contexts over those stored before, and for each BIS the configuration of
      its subgroup overridden by its own nonzero fields; of configurations and contexts, what fitted. The service data
      begin behind the length and type octets. */
  lemma BuiltIsReceived(b: Base, first: byte, dstLen: int, under: seq<Contexts>, rest: seq<byte>)
    requires InRange(b) && |Written(first, b, dstLen)| <= dstLen <= 255 && |under| == MAX_SUBGROUPS
    ensures var s := Written(first, b, dstLen);
      && |s| >= 8
      && ParseBase(s[2..] + rest, |s| - 2, under) == BaseOut(Accepted, |b.groups|, Received(b, dstLen, under))
  {
    hide Written, ParseBase, ReadGroups, ReceivedGroups, InTables, AllInTables, ValidContexts, Stops;
    BuiltIsRead(b, first, dstLen, under, rest);
    GroupsReceived(8, b.groups, dstLen, rest, under, []);
    assert under[0..] == under;
    assert [] + ReceivedGroups(8, b.groups, dstLen, under) == ReceivedGroups(8, b.groups, dstLen, under);
  }

  /** What the builder leaves in its buffer: an element whose length octet is right, and which the parser reads from
      behind its type. `before` and `after` are the buffer around a call of the builder. */
  lemma BufferIsReceived(before: seq<byte>, after: seq<byte>, at: nat, b: Base, dstLen: nat, under: seq<Contexts>)
    requires InRange(b) && at < |before| && |under| == MAX_SUBGROUPS
    requires |Written(before[at], b, dstLen)| <= dstLen <= 255
    requires var s := Written(before[at], b, dstLen); Patched(before, after, at, s[0 := (|s| % 256 - 1) % 256])
    ensures var n := |Written(before[at], b, dstLen)|;
      && at + n <= |after| && n >= 8 && after[at] == n - 1 && after[at + 1] == SERVICE_DATA
      && ParseBase(after[at + 2..], n - 2, under) == BaseOut(Accepted, |b.groups|, Received(b, dstLen, under))
  {
    hide Written, ParseBase, Received;
    var s := Written(before[at], b, dstLen);
    var out := s[0 := (|s| % 256 - 1) % 256];
    var rest := after[at + |s|..];
    PatchedSlice(before, after, at, out);
    BuiltIsReceived(b, before[at], dstLen, under, rest);
    WrittenType(before[at], b, dstLen);
    assert after[at..] == out + rest;
    assert after[at + 2..] == after[at..][2..] == s[2..] + rest;
    assert after[at + 1] == after[at..][1] == out[1];
  }

  lemma WrittenType(first: byte, b: Base, dstLen: int)
    requires Countable(b)
    ensures |Written(first, b, dstLen)| >= 8 && Written(first, b, dstLen)[1] == SERVICE_DATA
  {
    assert ([first] + BaseHeader(b)) <= Written(first, b, dstLen);
    assert ([first] + BaseHeader(b))[1] == SERVICE_DATA;
  }

  // ---- with some room to spare nothing is lost ----

  /** What is received when everything fits. */
  function InFullGroup(g: Subgroup, under: Contexts): Subgroup {
    g.(meta := Meta(Merge(under, g.meta.contexts), [], [], []), bises := InFullBises(g.csc, g.bises))
  }

  function InFullBises(under: Csc, bs: seq<Bis>): (r: seq<Bis>)
    ensures |r| == |bs| && forall j | 0 <= j < |bs| :: r[j] == Bis(bs[j].index, Override(under, bs[j].csc))
  {
    if bs == [] then [] else [Bis(bs[0].index, Override(under, bs[0].csc))] + InFullBises(under, bs[1..])
  }

  function InFullGroups(gs: seq<Subgroup>, under: seq<Contexts>): (r: seq<Subgroup>)
    requires |gs| <= |under|
    ensures |r| == |gs| && forall i | 0 <= i < |gs| :: r[i] == InFullGroup(gs[i], under[i])
    decreases |gs|
  {
    if gs == [] then [] else [InFullGroup(gs[0], under[0])] + InFullGroups(gs[1..], under[1..])
  }

  function InFull(b: Base, under: seq<Contexts>): Base
    requires |b.groups| <= |under|
  {
    Base(b.delay, InFullGroups(b.groups, under))
  }

  const SPARE := 20  // no codec configuration takes more

  lemma AllOfCsc(c: Csc, maxLen: int)
    requires maxLen >= SPARE
    ensures Truncated(c, maxLen) == c
  {
    NothingLost(c, maxLen - 1, 0);
  }

  lemma {:induction false} BisesInFull(at: nat, under: Csc, bs: seq<Bis>, dstLen: int)
    requires at + |BisesFrom(at, bs, dstLen)| + SPARE <= dstLen
    ensures ReceivedBises(at, under, bs, dstLen) == InFullBises(under, bs)
    decreases |bs|
  {
    hide CscBytes, Truncated, Override;
    if bs != [] {
      AllOfCsc(bs[0].csc, dstLen - at - 1);
      BisesInFull(at + |BisFrom(at, bs[0], dstLen)|, under, bs[1..], dstLen);
    }
  }

  lemma GroupInFull(at: nat, g: Subgroup, dstLen: int, under: Contexts)
    requires |g.bises| <= 255 && at + |GroupFrom(at, g, dstLen)| + SPARE <= dstLen
    ensures ReceivedGroup(at, g, dstLen, under) == InFullGroup(g, under)
  {
    hide CscBytes, MetadataBytes, GroupHeader, Truncated, Fitting, Merge, BisesFrom, ReceivedBises;
    AllOfCsc(g.csc, dstLen - at - 6);
    var room := dstLen - at - 6 - |HeadCsc(at, g, dstLen)| - 1;
    assert Fitting(g.meta.contexts, room) == g.meta.contexts;
    BisesInFull(at + |HeadFrom(at, g, dstLen)|, g.csc, g.bises, dstLen);
  }

  lemma {:induction false} GroupsInFull(at: nat, gs: seq<Subgroup>, dstLen: int, under: seq<Contexts>)
    requires Counted(gs) && |gs| <= |under| && at + |GroupsFrom(at, gs, dstLen)| + SPARE <= dstLen
    ensures ReceivedGroups(at, gs, dstLen, under) == InFullGroups(gs, under)
    decreases |gs|
  {
    hide GroupFrom, ReceivedGroup, InFullGroup;
    if gs != [] {
      GroupInFull(at, gs[0], dstLen, under[0]);
      GroupsInFull(at + |GroupFrom(at, gs[0], dstLen)|, gs[1..], dstLen, under[1..]);
    }
  }

  /** A destination with twenty octets to spare has lost nothing. */
  lemma NothingCut(b: Base, first: byte, dstLen: int, under: seq<Contexts>)
    requires InRange(b) && |Written(first, b, dstLen)| + SPARE <= dstLen && |under| == MAX_SUBGROUPS
    ensures Received(b, dstLen, under) == InFull(b, under)
  {
    hide GroupsFrom, AddGroups, ReceivedGroups, InFullGroups, BaseHeader;
    GroupsAppended([first] + BaseHeader(b), b.groups, dstLen);
    GroupsInFull(8, b.groups, dstLen, under);
  }

  // ---- the structures of the program ----

  predicate ContextsOnly(m: Meta) {
    m.programInfo == [] && m.upperLayer == []
  }

  predicate AllContextsOnly(gs: seq<Subgroup>) {
    forall i | 0 <= i < |gs| :: ContextsOnly(gs[i].meta)
  }

  lemma {:induction false} GreedyShrinks(ls: seq<Ltv>, room: int)
    ensures |EncodeAll(Greedy(ls, room))| <= |EncodeAll(ls)|
    decreases |ls|
  {
    hide Encode;
    if ls != [] {
      var n := |Encode(ls[0])|;
      if n <= room {
        GreedyShrinks(ls[1..], room - n);
        EncodeHead(ls[0], Greedy(ls[1..], room - n));
      } else {
        GreedyShrinks(ls[1..], room);
      }
    }
  }

  lemma {:induction false} FieldsSize(c: Csc, k: nat)
    requires k <= FIELDS
    ensures |EncodeAll(Fields(c, k))| <= [19, 16, 13, 7, 3, 0][k]
    decreases FIELDS - k
  {
    hide Encode, Element;
    if k < FIELDS {
      FieldsSize(c, k + 1);
      if Get(c, k) != 0 {
        EncodeHead(Element(c, k), Fields(c, k + 1));
      }
    }
  }

  lemma SmallCsc(c: Csc, maxLen: int)
    ensures |CscBytes(c, maxLen)| <= SPARE
  {
    hide Greedy, Fields, EncodeAll;
    GreedyShrinks(Fields(c, 0), maxLen - 1);
    FieldsSize(c, 0);
  }

  lemma {:induction false} SmallBises(at: nat, bs: seq<Bis>, dstLen: int)
    ensures |BisesFrom(at, bs, dstLen)| <= 21 * |bs|
    decreases |bs|
  {
    hide CscBytes;
    if bs != [] {
      SmallCsc(bs[0].csc, dstLen - at - 1);
      SmallBises(at + |BisFrom(at, bs[0], dstLen)|, bs[1..], dstLen);
    }
  }

  lemma SmallMetadata(m: Meta, maxLen: int)
    requires ContextsOnly(m)
    ensures |MetadataBytes(m, maxLen)| <= 9
  {
    hide WithContexts;
    ContextsBehind([0], m.contexts, maxLen);
    ContextsAre(m.contexts, maxLen - 1);
  }

  lemma {:induction false} SmallGroups(at: nat, gs: seq<Subgroup>, dstLen: int)
    requires GroupsInRange(gs) && AllContextsOnly(gs)
    ensures |GroupsFrom(at, gs, dstLen)| <= 77 * |gs|
    decreases |gs|
  {
    hide CscBytes, MetadataBytes, GroupHeader, BisesFrom;
    if gs != [] {
      var g := gs[0];
      SmallCsc(g.csc, dstLen - at - 6);
      SmallMetadata(g.meta, dstLen - at - 6 - |HeadCsc(at, g, dstLen)|);
      SmallBises(at + |HeadFrom(at, g, dstLen)|, g.bises, dstLen);
      SmallGroups(at + |GroupFrom(at, g, dstLen)|, gs[1..], dstLen);
    }
  }

  /** A BASE of the program's size, with contexts as its only metadata, always fits into its announcement, in full. */
  lemma AlwaysFits(b: Base, first: byte, under: seq<Contexts>)
    requires InRange(b) && AllContextsOnly(b.groups) && |under| == MAX_SUBGROUPS
    ensures |Written(first, b, MAX_BASE_SIZE)| <= 162
    ensures Received(b, MAX_BASE_SIZE, under) == InFull(b, under)
  {
    hide GroupsFrom, AddGroups, Received, InFull, BaseHeader;
    GroupsAppended([first] + BaseHeader(b), b.groups, MAX_BASE_SIZE);
    SmallGroups(8, b.groups, MAX_BASE_SIZE);
    NothingCut(b, first, MAX_BASE_SIZE, under);
  }

  lemma OverrideTwice(under: Csc, c: Csc)
    ensures Override(under, Override(under, c)) == Override(under, c)
    ensures InTables(under) && InTables(c) ==> InTables(Override(under, c))
  {
  }

  /** BISes as they are received carry their whole configuration. */
  lemma {:induction false} BisesStable(at: nat, under: Csc, bs: seq<Bis>, dstLen: int)
    requires InTables(under) && AllInTables(bs)
    ensures var r := ReceivedBises(at, under, bs, dstLen); InFullBises(under, r) == r && AllInTables(r)
    decreases |bs|
  {
    hide BisFrom, Truncated, InTables, Override;
    if bs != [] {
      var own := Truncated(bs[0].csc, dstLen - at - 1);
      TruncatedInTables(bs[0].csc, dstLen - at - 1);
      OverrideTwice(under, own);
      BisesStable(at + |BisFrom(at, bs[0], dstLen)|, under, bs[1..], dstLen);
      var r := ReceivedBises(at, under, bs, dstLen);
      assert r[1..] == ReceivedBises(at + |BisFrom(at, bs[0], dstLen)|, under, bs[1..], dstLen);
    }
  }

  lemma MergedStays(under: Contexts, c: Contexts, again: Contexts)
    requires ValidContexts(under) && ValidContexts(c)
    requires var m := Merge(under, c); again == NO_CONTEXTS || again == m
    ensures var m := Merge(under, c); ValidContexts(m) && Merge(again, m) == m
  {
    hide Valid;
  }

  lemma GroupStable(at: nat, g: Subgroup, dstLen: int, under: Contexts, again: Contexts)
    requires GroupInRange(g) && ValidContexts(under)
    requires var r := ReceivedGroup(at, g, dstLen, under); again == NO_CONTEXTS || again == r.meta.contexts
    ensures var r := ReceivedGroup(at, g, dstLen, under);
      InFullGroup(r, again) == r && GroupInRange(r) && ContextsOnly(r.meta)
  {
    hide HeadCsc, HeadFrom, Truncated, InTables, AllInTables, Override, Fitting, Merge, ValidContexts;
    hide ReceivedBises, InFullBises;
    var contexts := Fitting(g.meta.contexts, dstLen - at - 6 - |HeadCsc(at, g, dstLen)| - 1);
    MergedStays(under, contexts, again);
    TruncatedInTables(g.csc, dstLen - at - 6);
    BisesStable(at + |HeadFrom(at, g, dstLen)|, Truncated(g.csc, dstLen - at - 6), g.bises, dstLen);
  }

  predicate Resumes(r: seq<Subgroup>, again: seq<Contexts>) {
    |r| <= |again| && forall i | 0 <= i < |r| :: again[i] == NO_CONTEXTS || again[i] == r[i].meta.contexts
  }

  lemma {:induction false} GroupsStable(at: nat, gs: seq<Subgroup>, dstLen: int, under: seq<Contexts>,
                                        again: seq<Contexts>)
    requires GroupsInRange(gs) && |gs| <= |under| && forall i | 0 <= i < |under| :: ValidContexts(under[i])
    requires Resumes(ReceivedGroups(at, gs, dstLen, under), again)
    ensures var r := ReceivedGroups(at, gs, dstLen, under);
      InFullGroups(r, again) == r && GroupsInRange(r) && AllContextsOnly(r)
    decreases |gs|
  {
    hide GroupFrom, ReceivedGroup, InFullGroup, GroupInRange, ValidContexts, ContextsOnly;
    if gs != [] {
      CountedRange(gs);
      var r, at' := ReceivedGroups(at, gs, dstLen, under), at + |GroupFrom(at, gs[0], dstLen)|;
      assert r[0] == ReceivedGroup(at, gs[0], dstLen, under[0]);
      assert r[1..] == ReceivedGroups(at', gs[1..], dstLen, under[1..]);
      GroupStable(at, gs[0], dstLen, under[0], again[0]);
      GroupsStable(at', gs[1..], dstLen, under[1..], again[1..]);
    }
  }

  lemma CountedRange(gs: seq<Subgroup>)
    requires GroupsInRange(gs)
    ensures Counted(gs) && GroupsInRange(gs) && (gs != [] ==> |gs[0].bises| <= 255 && Counted(gs[1..]))
  {
  }

  /** Building what was received, of a structure that was built in full or cut, and parsing it again, into fresh
      structures or into those that hold it, changes nothing: every BIS now carries its whole configuration. */
  lemma ReceivedIsStable(b: Base, dstLen: int, first: byte, under: seq<Contexts>, again: seq<Contexts>, rest: seq<byte>)
    requires InRange(b) && |under| == |again| == MAX_SUBGROUPS
    requires forall i | 0 <= i < |under| :: ValidContexts(under[i])
    requires Resumes(Received(b, dstLen, under).groups, again)
    ensures var r := Received(b, dstLen, under);
      && InRange(r) && Countable(r)
      && var s := Written(first, r, MAX_BASE_SIZE);
         2 <= |s| <= MAX_BASE_SIZE && ParseBase(s[2..] + rest, |s| - 2, again) == BaseOut(Accepted, |r.groups|, r)
  {
    hide ReceivedGroups, InFullGroups, Written, ParseBase, GroupInRange, ContextsOnly, Resumes;
    RangeCountable(b);
    GroupsStable(8, b.groups, dstLen, under, again);
    var r := Received(b, dstLen, under);
    RangeCountable(r);
    AlwaysFits(r, first, again);
    BuiltIsReceived(r, first, MAX_BASE_SIZE, again, rest);
  }
}
