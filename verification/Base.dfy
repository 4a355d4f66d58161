/** The Broadcast Audio Source Endpoint structure, section 3.7.2.2 of BAP v1.0: its builder and its parser, in which
    a BIS inherits the codec configuration of its subgroup. */
module Base {
  import opened Bytes
  import opened CodecConfig
  import opened Metadata

  const SERVICE_DATA: byte := 0x16
  const BASIC_AUDIO_ANNOUNCEMENT: uint16 := 0x1851
  const MAX_SUBGROUPS := 2
  const MAX_BISES := 2
  const MIN_SUBGROUP_LEN: byte := 8
  const MAX_BASE_SIZE := 252

  datatype Bis = Bis(index: byte, csc: Csc)

  datatype Subgroup =
    Subgroup(format: byte, company: uint16, vendorCodec: uint16, csc: Csc, meta: Meta, bises: seq<Bis>)

  datatype Base = Base(delay: uint24, groups: seq<Subgroup>)

  /** The counts and lengths are octets. */
  predicate Countable(b: Base) {
    && |b.groups| <= 255 && Counted(b.groups)
    && forall i | 0 <= i < |b.groups| :: |b.groups[i].meta.programInfo| <= 255
  }

  predicate Counted(gs: seq<Subgroup>) {
    forall i | 0 <= i < |gs| :: |gs[i].bises| <= 255
  }

  // ---- the builder, which appends to what it has written ----

  function AddBis(done: seq<byte>, b: Bis, dstLen: int): (s: seq<byte>)
    ensures done <= s
  {
    var s := done + [b.index];
    s + CscBytes(b.csc, dstLen - |s|)
  }

  function AddBises(done: seq<byte>, bs: seq<Bis>, dstLen: int): (s: seq<byte>)
    ensures done <= s
    decreases |bs|
  {
    if bs == [] then done else AddBises(AddBis(done, bs[0], dstLen), bs[1..], dstLen)
  }

  function GroupHeader(g: Subgroup): (s: seq<byte>)
    requires |g.bises| <= 255
    ensures |s| == 6
  {
    [|g.bises|, g.format] + Le(g.company, 2) + Le(g.vendorCodec, 2)
  }

  function AddHead(done: seq<byte>, g: Subgroup, dstLen: int): (s: seq<byte>)
    requires |g.bises| <= 255
    ensures done <= s
  {
    var s := done + GroupHeader(g);
    var s := s + CscBytes(g.csc, dstLen - |s|);
    s + MetadataBytes(g.meta, dstLen - |s|)
  }

  function AddGroup(done: seq<byte>, g: Subgroup, dstLen: int): (s: seq<byte>)
    requires |g.bises| <= 255
    ensures done <= s
  {
    AddBises(AddHead(done, g, dstLen), g.bises, dstLen)
  }

  function AddGroups(done: seq<byte>, gs: seq<Subgroup>, dstLen: int): (s: seq<byte>)
    requires Counted(gs)
    ensures done <= s
    decreases |gs|
  {
    if gs == [] then done else AddGroups(AddGroup(done, gs[0], dstLen), gs[1..], dstLen)
  }

  function BaseHeader(b: Base): (s: seq<byte>)
    requires |b.groups| <= 255
    ensures |s| == 7
  {
    [SERVICE_DATA] + Le(BASIC_AUDIO_ANNOUNCEMENT, 2) + Le(b.delay, 3) + [|b.groups|]
  }

  /** Everything the builder writes; `first` is the octet reserved for the length. */
  function Written(first: byte, b: Base, dstLen: int): (s: seq<byte>)
    requires Countable(b)
    ensures s != []
  {
    AddGroups([first] + BaseHeader(b), b.groups, dstLen)
  }

  method AppendCsc(buf: array<byte>, at: nat, p: nat, dstLen: nat, c: Csc, ghost orig: seq<byte>, ghost done: seq<byte>)
    returns (q: nat, ghost done': seq<byte>)
    requires at + dstLen <= buf.Length && p + |CscBytes(c, dstLen - |done|)| <= buf.Length && p == at + |done|
    requires Patched(orig, buf[..], at, done)
    modifies buf
    ensures done' == done + CscBytes(c, dstLen - |done|) && q == at + |done'|
    ensures Patched(orig, buf[..], at, done')
  {
    hide Patched, CscBytes;
    ghost var before, csc := buf[..], CscBytes(c, dstLen - |done|);
    var n := FillCsc(buf, p, dstLen - (p - at), c);
    PatchTwice(orig, before, buf[..], at, done, csc);
    q, done' := p + n, done + csc;
  }

  method AppendMetadata(buf: array<byte>, at: nat, p: nat, dstLen: nat, m: Meta, ghost orig: seq<byte>,
                        ghost done: seq<byte>)
    returns (q: nat, ghost done': seq<byte>)
    requires |m.programInfo| <= 255
    requires at + dstLen <= buf.Length && p + |MetadataBytes(m, dstLen - |done|)| <= buf.Length && p == at + |done|
    requires Patched(orig, buf[..], at, done)
    modifies buf
    ensures done' == done + MetadataBytes(m, dstLen - |done|) && q == at + |done'|
    ensures Patched(orig, buf[..], at, done')
  {
    hide Patched, MetadataBytes;
    ghost var before, meta := buf[..], MetadataBytes(m, dstLen - |done|);
    var n := FillMetadata(buf, p, dstLen - (p - at), m);
    PatchTwice(orig, before, buf[..], at, done, meta);
    q, done' := p + n, done + meta;
  }

  method FillBis(buf: array<byte>, at: nat, p: nat, dstLen: nat, b: Bis, ghost orig: seq<byte>, ghost done: seq<byte>)
    returns (q: nat, ghost done': seq<byte>)
    requires at + dstLen <= buf.Length && at + |AddBis(done, b, dstLen)| <= buf.Length && p == at + |done|
    requires Patched(orig, buf[..], at, done)
    modifies buf
    ensures done' == AddBis(done, b, dstLen) && q == at + |done'|
    ensures Patched(orig, buf[..], at, done')
  {
    hide Patched, CscBytes;
    q, done' := Append(buf, at, p, [b.index], orig, done);
    q, done' := AppendCsc(buf, at, q, dstLen, b.csc, orig, done');
  }

  method FillHead(buf: array<byte>, at: nat, p: nat, dstLen: nat, g: Subgroup, ghost orig: seq<byte>,
                  ghost done: seq<byte>)
    returns (q: nat, ghost done': seq<byte>)
    requires |g.bises| <= 255 && |g.meta.programInfo| <= 255
    requires at + dstLen <= buf.Length && at + |AddHead(done, g, dstLen)| <= buf.Length && p == at + |done|
    requires Patched(orig, buf[..], at, done)
    modifies buf
    ensures done' == AddHead(done, g, dstLen) && q == at + |done'|
    ensures Patched(orig, buf[..], at, done')
  {
    hide Patched, GroupHeader, MetadataBytes, CscBytes;
    q, done' := Append(buf, at, p, GroupHeader(g), orig, done);
    q, done' := AppendCsc(buf, at, q, dstLen, g.csc, orig, done');
    q, done' := AppendMetadata(buf, at, q, dstLen, g.meta, orig, done');
  }

  method FillSubgroup(buf: array<byte>, at: nat, p: nat, dstLen: nat, g: Subgroup, ghost orig: seq<byte>,
                      ghost done: seq<byte>)
    returns (q: nat, ghost done': seq<byte>)
    requires |g.bises| <= 255 && |g.meta.programInfo| <= 255
    requires at + dstLen <= buf.Length && at + |AddGroup(done, g, dstLen)| <= buf.Length && p == at + |done|
    requires Patched(orig, buf[..], at, done)
    modifies buf
    ensures done' == AddGroup(done, g, dstLen) && q == at + |done'|
    ensures Patched(orig, buf[..], at, done')
  {
    hide Patched, AddHead, AddBis;
    q, done' := FillHead(buf, at, p, dstLen, g, orig, done);
    var j := 0;
    while j < |g.bises|
      invariant 0 <= j <= |g.bises| && q == at + |done'|
      invariant AddBises(done', g.bises[j..], dstLen) == AddGroup(done, g, dstLen)
      invariant Patched(orig, buf[..], at, done')
    {
      q, done' := FillBis(buf, at, q, dstLen, g.bises[j], orig, done');
      j := j + 1;
    }
  }

  /** The counter of written octets has eight bits, so that the check against `dstLen` may pass for a structure longer
      than 255 octets. The buffer is longer than `dstLen` where the builder writes beyond it. */
  method BuildBaseData(buf: array<byte>, at: nat, dstLen: nat, b: Base) returns (n: byte)
    requires Countable(b) && at < buf.Length
    requires at + dstLen <= buf.Length && at + |Written(buf[at], b, dstLen)| <= buf.Length
    modifies buf
    ensures var s := Written(old(buf[at]), b, dstLen);
      && n == (if |s| % 256 > dstLen then 0 else |s| % 256)
      && Patched(old(buf[..]), buf[..], at, if |s| % 256 > dstLen then s else s[0 := (|s| % 256 - 1) % 256])
  {
    hide AddGroup, BaseHeader;
    ghost var orig, done := buf[..], [buf[at]];
    assert Patched(orig, buf[..], at, done);
    var p;
    p, done := Append(buf, at, at + 1, BaseHeader(b), orig, done);
    var i := 0;
    while i < |b.groups|
      invariant 0 <= i <= |b.groups| && p == at + |done|
      invariant AddGroups(done, b.groups[i..], dstLen) == Written(old(buf[at]), b, dstLen)
      invariant Patched(orig, buf[..], at, done)
    {
      assert b.groups[i..][0] == b.groups[i] && b.groups[i..][1..] == b.groups[i + 1..];
      p, done := FillSubgroup(buf, at, p, dstLen, b.groups[i], orig, done);
      i := i + 1;
    }
    n := (p - at) % 256;
    if n > dstLen {
      return 0;
    }
    PatchOctet(buf, at, 0, (n as int - 1) % 256, orig, done);
  }

  // ---- the parser ----

  datatype BisOut = BisOut(outcome: CodecConfig.Outcome, bises: seq<Bis>, rest: seq<byte>, left: byte)

  /** `left` is the announced length still to be used up, `acc` the BISes stored so far: there is room for two. */
  function ParseBises(s: seq<byte>, left: byte, n: nat, csc: Csc, acc: seq<Bis>): (r: BisOut)
    ensures |r.rest| <= |s|
    decreases n
  {
    if n == 0 then BisOut(Accepted, acc, s, left)
    else if |acc| >= MAX_BISES then BisOut(CodecConfig.Overrun, acc, s, left)
    else if left < 2 then BisOut(Rejected, acc, s, left)
    else if |s| < 2 then BisOut(CodecConfig.Overrun, acc, s, left)
    else if left - 2 < s[1] then BisOut(Rejected, acc, s, left)
    else
      var r := ParseCsc(s[2..], s[1], csc);
      if r.outcome == CodecConfig.Overrun || |s| - 2 < s[1] then BisOut(CodecConfig.Overrun, acc, s, left)
      else ParseBises(s[2 + s[1]..], left - 2 - s[1], n - 1, csc, acc + [Bis(s[0], r.csc)])
  }

  datatype HeadOut = HeadOut(outcome: CodecConfig.Outcome, group: Subgroup, count: byte, rest: seq<byte>, left: byte)

  const NO_SUBGROUP := Subgroup(0, 0, 0, NO_CSC, Meta(NO_CONTEXTS, [], [], []), [])

  /** The fields of a subgroup before its BISes; the contexts are stored over `under`. Whether the configuration and
      the metadata parsed well is not looked at. */
  function ParseHead(s: seq<byte>, left: byte, under: Contexts): (r: HeadOut)
    requires left >= MIN_SUBGROUP_LEN
    ensures |r.rest| <= |s|
  {
    var overrun := HeadOut(CodecConfig.Overrun, NO_SUBGROUP, 0, s, left);
    if |s| < 7 then overrun
    else if left - MIN_SUBGROUP_LEN < s[6] then overrun.(outcome := Rejected)
    else
      var c := ParseCsc(s[7..], s[6], NO_CSC);
      var at := 7 + s[6];
      if c.outcome == CodecConfig.Overrun || |s| <= at then overrun
      else if left - MIN_SUBGROUP_LEN - s[6] < s[at] then overrun.(outcome := Rejected)
      else
        var m := GetMetadata(s[at + 1..], s[at], under);
        if m.outcome == Metadata.Overrun || |s| < at + 1 + s[at] then overrun
        else
          HeadOut(Accepted,
                  Subgroup(s[1], FromLe(s[2..], 2), FromLe(s[4..], 2), c.csc, Meta(m.contexts, [], [], []), []),
                  s[0], s[at + 1 + s[at]..], left - MIN_SUBGROUP_LEN - s[6] - s[at])
  }

  datatype GroupsOut = GroupsOut(outcome: CodecConfig.Outcome, groups: seq<Subgroup>)

  /** `under` holds the contexts stored in the two subgroups before. */
  function ParseGroups(s: seq<byte>, left: byte, n: nat, under: seq<Contexts>, acc: seq<Subgroup>): GroupsOut
    requires |under| == MAX_SUBGROUPS
    decreases n
  {
    if n == 0 || left < MIN_SUBGROUP_LEN then GroupsOut(Accepted, acc)
    else if |acc| >= MAX_SUBGROUPS then GroupsOut(CodecConfig.Overrun, acc)
    else
      var h := ParseHead(s, left, under[|acc|]);
      if h.outcome != Accepted then GroupsOut(h.outcome, acc)
      else
        var b := ParseBises(h.rest, h.left, h.count, h.group.csc, []);
        if b.outcome != Accepted then GroupsOut(b.outcome, acc)
        else ParseGroups(b.rest, b.left, n - 1, under, acc + [h.group.(bises := b.bises)])
  }

  /** `count` is the number of subgroups the structure announces, which the program stores as it is. */
  datatype BaseOut = BaseOut(outcome: CodecConfig.Outcome, count: byte, base: Base)

  /** `s` starts at the service UUID; the announced length counts the UUID, but the parser does not take it off. */
  function ParseBase(s: seq<byte>, len: byte, under: seq<Contexts>): BaseOut
    requires |under| == MAX_SUBGROUPS
  {
    if |s| < 6 then BaseOut(CodecConfig.Overrun, 0, Base(0, []))
    else
      var g := ParseGroups(s[6..], (len - 4) % 256, s[5], under, []);
      BaseOut(g.outcome, s[5], Base(FromLe(s[2..], 3), g.groups))
  }

  /** One turn of the loop over the BISes, at the cursor `p`. */
  lemma BisTurn(data: seq<byte>, p: nat, left: byte, n: nat, csc: Csc, acc: seq<Bis>)
    requires p <= |data| && n > 0
    ensures var r := ParseBises(data[p..], left, n, csc, acc);
      var at := data[p..];
      if |acc| >= MAX_BISES then r == BisOut(CodecConfig.Overrun, acc, at, left)
      else if left < 2 then r == BisOut(Rejected, acc, at, left)
      else if p + 2 > |data| then r == BisOut(CodecConfig.Overrun, acc, at, left)
      else if left - 2 < data[p + 1] then r == BisOut(Rejected, acc, at, left)
      else
        var own := ParseCsc(data[p + 2..], data[p + 1], csc);
        if own.outcome == CodecConfig.Overrun || p + 2 + data[p + 1] as int > |data| then
          r == BisOut(CodecConfig.Overrun, acc, at, left)
        else
          r == ParseBises(data[p + 2 + data[p + 1]..], left - 2 - data[p + 1], n - 1, csc,
                          acc + [Bis(data[p], own.csc)])
  {
    hide ParseCsc;
    if p + 2 <= |data| {
      assert data[p..][2..] == data[p + 2..];
      if p + 2 + data[p + 1] as int <= |data| {
        assert data[p..][2 + data[p + 1]..] == data[p + 2 + data[p + 1]..];
      }
    }
  }

  lemma BisesDone(s: seq<byte>, left: byte, csc: Csc, acc: seq<Bis>)
    ensures ParseBises(s, left, 0, csc, acc) == BisOut(Accepted, acc, s, left)
  {
  }

  method ParseBisesStream(data: seq<byte>, start: nat, left0: byte, n: nat, csc: Csc)
    returns (outcome: CodecConfig.Outcome, bises: seq<Bis>, p: nat, left: byte)
    requires start <= |data|
    ensures p <= |data| && ParseBises(data[start..], left0, n, csc, []) == BisOut(outcome, bises, data[p..], left)
  {
    hide ParseCsc, ParseBises;
    bises, p, left := [], start, left0;
    var j := 0;
    while j < n
      invariant 0 <= j <= n && p <= |data|
      invariant ParseBises(data[p..], left, n - j, csc, bises) == ParseBises(data[start..], left0, n, csc, [])
    {
      BisTurn(data, p, left, n - j, csc, bises);
      if |bises| >= MAX_BISES {
        outcome := CodecConfig.Overrun;
        return;
      }
      if left < 2 {
        outcome := Rejected;
        return;
      }
      if |data| - p < 2 {
        outcome := CodecConfig.Overrun;
        return;
      }
      var index, cscLength := data[p], data[p + 1];
      if left - 2 < cscLength {
        outcome := Rejected;
        return;
      }
      var r := ParseCscStream(data, p + 2, cscLength, csc);
      if r.outcome == CodecConfig.Overrun || |data| - p - 2 < cscLength {
        outcome := CodecConfig.Overrun;
        return;
      }
      bises, left, p := bises + [Bis(index, r.csc)], left - 2 - cscLength, p + 2 + cscLength;
      j := j + 1;
    }
    BisesDone(data[p..], left, csc, bises);
    outcome := Accepted;
  }

  method ParseHeadStream(data: seq<byte>, start: nat, left0: byte, under: Contexts)
    returns (outcome: CodecConfig.Outcome, g: Subgroup, count: byte, p: nat, left: byte)
    requires start <= |data| && left0 >= MIN_SUBGROUP_LEN
    ensures p <= |data| && ParseHead(data[start..], left0, under) == HeadOut(outcome, g, count, data[p..], left)
  {
    hide ParseCsc, GetMetadata, FromLe;
    outcome, g, count, p, left := CodecConfig.Overrun, NO_SUBGROUP, 0, start, left0;
    if |data| - start < 7 {
      return;
    }
    var cscLength := data[start + 6];
    if left - MIN_SUBGROUP_LEN < cscLength {
      outcome := Rejected;
      return;
    }
    var c := ParseCscStream(data, start + 7, cscLength, NO_CSC);
    assert data[start..][7..] == data[start + 7..];
    var at := start + 7 + cscLength;
    if c.outcome == CodecConfig.Overrun || |data| <= at {
      return;
    }
    var metadataLength := data[at];
    if left - MIN_SUBGROUP_LEN - cscLength < metadataLength {
      outcome := Rejected;
      return;
    }
    var m := GetMetadataStream(data, at + 1, metadataLength, under);
    assert data[start..][8 + cscLength..] == data[at + 1..];
    if m.outcome == Metadata.Overrun || |data| < at + 1 + metadataLength {
      return;
    }
    assert data[start..][2..] == data[start + 2..] && data[start..][4..] == data[start + 4..];
    assert data[start..][8 + cscLength + metadataLength..] == data[at + 1 + metadataLength..];
    g := Subgroup(data[start + 1], FromLe(data[start + 2..], 2), FromLe(data[start + 4..], 2), c.csc,
                  Meta(m.contexts, [], [], []), []);
    outcome, count, p := Accepted, data[start], at + 1 + metadataLength;
    left := left - MIN_SUBGROUP_LEN - cscLength - metadataLength;
  }

  /** One subgroup at the cursor after the other; in the program the two loops stand in one function. */
  method ParseBaseInfo(data: seq<byte>, len: byte, under: seq<Contexts>) returns (r: BaseOut)
    requires |under| == MAX_SUBGROUPS
    ensures r == ParseBase(data, len, under)
  {
    hide ParseHead, ParseBises, FromLe;
    if |data| < 6 {
      return BaseOut(CodecConfig.Overrun, 0, Base(0, []));
    }
    var delay := FromLe(data[2..], 3);
    var left: byte := (len - 4) % 256;
    var p: nat := 6;
    var i, groups := 0, [];
    while i < data[5] && left >= MIN_SUBGROUP_LEN
      invariant 0 <= i <= data[5] && p <= |data|
      invariant ParseGroups(data[p..], left, data[5] - i, under, groups)
             == ParseGroups(data[6..], (len - 4) % 256, data[5], under, [])
    {
      if |groups| >= MAX_SUBGROUPS {
        return BaseOut(CodecConfig.Overrun, data[5], Base(delay, groups));
      }
      var outcome, g, count, bises;
      outcome, g, count, p, left := ParseHeadStream(data, p, left, under[|groups|]);
      if outcome != Accepted {
        return BaseOut(outcome, data[5], Base(delay, groups));
      }
      outcome, bises, p, left := ParseBisesStream(data, p, left, count, g.csc);
      if outcome != Accepted {
        return BaseOut(outcome, data[5], Base(delay, groups));
      }
      groups := groups + [g.(bises := bises)];
      i := i + 1;
    }
    r := BaseOut(Accepted, data[5], Base(delay, groups));
  }
}
