/** The octets of every format that is built here, in numbers: where each value stands, which type an element has, and
    in which order the octets of a value come. */
module Formats {
  import opened AscsPayload
  import opened Base
  import opened BaseRoundTrip
  import opened Bytes
  import opened CodecConfig
  import opened Metadata

  /** The values of `s[i..]`, least significant octet first. */
  function Number16(s: seq<byte>, i: nat): nat
    requires i + 2 <= |s|
  {
    s[i] as int + 0x100 * s[i + 1] as int
  }

  function Number24(s: seq<byte>, i: nat): nat
    requires i + 3 <= |s|
  {
    s[i] as int + 0x100 * s[i + 1] as int + 0x1_0000 * s[i + 2] as int
  }

  function Number32(s: seq<byte>, i: nat): nat
    requires i + 4 <= |s|
  {
    s[i] as int + 0x100 * s[i + 1] as int + 0x1_0000 * s[i + 2] as int + 0x100_0000 * s[i + 3] as int
  }

  lemma Two(v: uint16)
    ensures Number16(Le(v, 2), 0) == v
  {
    assert Le(v, 2)[1] == Le(v / 256, 1)[0];
  }

  lemma Three(v: uint24)
    ensures Number24(Le(v, 3), 0) == v
  {
    assert Le(v, 3)[1..] == Le(v / 256, 2);
    Two(v / 256);
  }

  lemma Four(v: uint32)
    ensures Number32(Le(v, 4), 0) == v
  {
    assert Le(v, 4)[1..] == Le(v / 256, 3);
    Three(v / 256);
  }

  // ---- the codec-specific configuration ----

  /** The codes of the sampling frequencies. */
  lemma FrequencyCodes()
    ensures FreqFromIndex(1) == 8000 && FreqFromIndex(2) == 11025 && FreqFromIndex(3) == 16000
    ensures FreqFromIndex(4) == 22050 && FreqFromIndex(5) == 24000 && FreqFromIndex(6) == 32000
    ensures FreqFromIndex(7) == 44100 && FreqFromIndex(8) == 48000 && FreqFromIndex(9) == 88200
    ensures FreqFromIndex(10) == 96000 && FreqFromIndex(11) == 176400 && FreqFromIndex(12) == 192000
    ensures FreqFromIndex(13) == 384000 && forall i: byte | i == 0 || i > 13 :: FreqFromIndex(i) == 0
  {
  }

  /** The element at `s[i..]` has this length and type. */
  predicate ElementAt(s: seq<byte>, i: nat, len: byte, typ: byte) {
    i + 1 + len as int <= |s| && len >= 1 && s[i] == len && s[i + 1] == typ
  }

  lemma FieldOctets(c: Csc)
    requires InTables(c) && c.freq != 0 && c.dur != 0
    ensures var s := Encode(Element(c, 0)); ElementAt(s, 0, 2, 1) && FreqFromIndex(s[2]) == c.freq && |s| == 3
    ensures var s := Encode(Element(c, 1)); ElementAt(s, 0, 2, 2) && c.dur == (if s[2] == 0 then 7500 else 10000)
                                            && s[2] <= 1 && |s| == 3
    ensures var s := Encode(Element(c, 2)); ElementAt(s, 0, 5, 3) && Number32(s, 2) == c.alloc && |s| == 6
    ensures var s := Encode(Element(c, 3)); ElementAt(s, 0, 3, 4) && Number16(s, 2) == c.octets && |s| == 4
    ensures var s := Encode(Element(c, 4)); ElementAt(s, 0, 2, 5) && s[2] == c.blocks && |s| == 3
  {
    hide FreqIndex, Le, FreqFromIndex;
    IndexRoundTrip(c);
    Four(c.alloc);
    Two(c.octets);
    assert Encode(Element(c, 2))[2..] == Le(c.alloc, 4) && Encode(Element(c, 3))[2..] == Le(c.octets, 2);
  }

  lemma AllFields(c: Csc)
    requires forall k | 0 <= k < FIELDS :: Get(c, k) != 0
    ensures EncodeAll(Fields(c, 0))
         == Encode(Element(c, 0)) + Encode(Element(c, 1)) + Encode(Element(c, 2)) + Encode(Element(c, 3))
            + Encode(Element(c, 4))
  {
    hide Encode, Element, Get;
    AddedField(c, 4);
    AddedField(c, 3);
    AddedField(c, 2);
    AddedField(c, 1);
    AddedField(c, 0);
  }

  lemma AddedField(c: Csc, k: nat)
    requires k < FIELDS && Get(c, k) != 0
    ensures EncodeAll(Fields(c, k)) == Encode(Element(c, k)) + EncodeAll(Fields(c, k + 1))
    ensures k + 1 == FIELDS ==> EncodeAll(Fields(c, k + 1)) == []
  {
    hide Encode, Element, Get;
    EncodeHead(Element(c, k), Fields(c, k + 1));
  }

  /** A configuration with all fields: 20 octets, the elements in the order of their types. */
  lemma ConfigurationOctets(c: Csc, maxLen: int)
    requires InTables(c) && maxLen >= 20 && forall k | 0 <= k < FIELDS :: Get(c, k) != 0
    ensures var s := CscBytes(c, maxLen);
      && |s| == 20 && s[0] == 19
      && ElementAt(s, 1, 2, 1) && FreqFromIndex(s[3]) == c.freq
      && ElementAt(s, 4, 2, 2) && s[6] <= 1 && c.dur == (if s[6] == 0 then 7500 else 10000)
      && ElementAt(s, 7, 5, 3) && Number32(s, 9) == c.alloc
      && ElementAt(s, 13, 3, 4) && Number16(s, 15) == c.octets
      && ElementAt(s, 17, 2, 5) && s[19] == c.blocks
  {
    hide Encode, Element, Fields, FreqFromIndex, Greedy, EncodeAll;
    assert Get(c, 0) != 0 && Get(c, 1) != 0;
    AllFields(c);
    FieldOctets(c);
    GreedyIsTruncate(c, maxLen - 1, 0);
    NothingLost(c, maxLen - 1, 0);
    assert CscBytes(c, maxLen) == [19] + EncodeAll(Fields(c, 0));
  }

  // ---- the entries of the control point ----

  lemma QosOctets(id: byte, q: Qos)
    requires QosInRange(q)
    ensures var s := QosEntry(id, q);
      && s[0] == id && s[1] == q.cig && s[2] == q.cis && Number24(s, 3) == q.sduInterval
      && s[6] == q.framing && s[7] == q.phy && Number16(s, 8) == q.maxSdu && s[10] == q.retransmissions
      && Number16(s, 11) == q.maxTransportLatency && Number24(s, 13) == q.presentationDelay
  {
    hide Le;
    Three(q.sduInterval);
    Two(q.maxSdu);
    Two(q.maxTransportLatency);
    Three(q.presentationDelay);
  }

  lemma CodecOctets(id: byte, cc: CodecArgs, maxLen: int)
    ensures var s := CodecEntry(id, cc, maxLen);
      && |s| >= 9 && s[0] == id && s[1] == cc.latency && s[2] == cc.phy
      && s[3] == cc.format && Number16(s, 4) == cc.company && Number16(s, 6) == cc.vendorCodec
      && s[8] == |s| - 9 && s[8..] == CscBytes(cc.csc, maxLen - 8)
  {
    hide Le, CscBytes;
    Two(cc.company);
    Two(cc.vendorCodec);
  }

  // ---- metadata ----

  /** Both contexts, if they are there and have room. */
  lemma ContextOctets(head: seq<byte>, c: Contexts, maxLen: int)
    requires c.preferred != 0 && c.streaming != 0 && maxLen >= |head| + 8
    ensures var s, n := WithContexts(head, c, maxLen), |head|;
      && |s| == n + 8 && s[..n] == head
      && ElementAt(s, n, 3, 1) && Number16(s, n + 2) == c.preferred
      && ElementAt(s, n + 4, 3, 2) && Number16(s, n + 6) == c.streaming
  {
    hide Le;
    Two(c.preferred);
    Two(c.streaming);
  }

  lemma Behind(a: seq<byte>, b: seq<byte>, c: seq<byte>)
    requires |b| >= 2
    ensures var s, n := a + b + c, |a|;
      && (forall i | 0 <= i < n :: s[i] == a[i]) && s[n] == b[0] && s[n + 1] == b[1]
      && s[n + 2..n + |b|] == b[2..] && s[n + |b|..] == c
  {
  }

  lemma ElementOctets(typ: byte, value: seq<byte>)
    requires |value| < 255
    ensures var s := LtvBytes(typ, value);
      |s| == 2 + |value| && s[0] == |value| + 1 && s[1] == typ && s[2..] == value
  {
  }

  lemma SameTail(r: seq<byte>, s: seq<byte>, k: nat)
    requires |r| == |s| && k <= |r| && r[k..] == s[k..]
    ensures forall i | k <= i < |r| :: r[i] == s[i]
    ensures forall i, j | k <= i <= j <= |r| :: r[i..j] == s[i..j]
    ensures forall i | k <= i <= |r| :: r[i..] == s[i..]
  {
    forall i | k <= i < |r| ensures r[i] == s[i] {
      assert r[k..][i - k] == s[k..][i - k];
    }
  }

  /** The metadata of a BASE subgroup with everything in it: contexts, program info and the upper-layer data. */
  lemma MetadataOctets(m: Meta, maxLen: int)
    requires m.contexts.preferred != 0 && m.contexts.streaming != 0 && m.programInfo != [] && m.upperLayer != []
    requires |m.programInfo| < 255
    requires maxLen >= 11 + |m.programInfo| + |m.upperLayer|
    ensures var s, n := MetadataBytes(m, maxLen), |m.programInfo|;
      && |s| == 11 + n + |m.upperLayer| && s[0] == (|s| - 1) % 256
      && ElementAt(s, 1, 3, 1) && Number16(s, 3) == m.contexts.preferred
      && ElementAt(s, 5, 3, 2) && Number16(s, 7) == m.contexts.streaming
      && ElementAt(s, 9, n as int + 1, 3) && s[11..11 + n] == m.programInfo && s[11 + n..] == m.upperLayer
  {
    hide WithContexts, LtvBytes;
    ElementOctets(3, m.programInfo);
    ContextOctets([0], m.contexts, maxLen);
    var head := WithContexts([0], m.contexts, maxLen);
    var s := head + LtvBytes(3, m.programInfo);
    var r := MetadataBytes(m, maxLen);
    assert r[1..] == (s + m.upperLayer)[1..];
    Behind(head, LtvBytes(3, m.programInfo), m.upperLayer);
    SameTail(r, s + m.upperLayer, 1);
  }

  /** An entry of Enable or Update Metadata with everything in it: contexts, program info and vendor data. */
  lemma CommandOctets(id: byte, m: Meta, maxLen: int)
    requires m.contexts.preferred != 0 && m.contexts.streaming != 0 && m.programInfo != [] && m.vendor != []
    requires |m.programInfo| < 255 && |m.vendor| < 255
    requires maxLen >= 14 + |m.programInfo| + |m.vendor|
    ensures var s, n := MetadataCommand(id, m, maxLen), |m.programInfo|;
      && |s| == 14 + n + |m.vendor| && s[0] == id && s[1] == (|s| - 2) % 256
      && ElementAt(s, 2, 3, 1) && Number16(s, 4) == m.contexts.preferred
      && ElementAt(s, 6, 3, 2) && Number16(s, 8) == m.contexts.streaming
      && ElementAt(s, 10, n as int + 1, 3) && s[12..12 + n] == m.programInfo
      && ElementAt(s, 12 + n, |m.vendor| + 1, 0xFF) && s[14 + n..] == m.vendor
  {
    hide WithContexts, LtvBytes;
    ElementOctets(3, m.programInfo);
    ElementOctets(0xFF, m.vendor);
    ContextOctets([id, 0], m.contexts, maxLen);
    var head := WithContexts([id, 0], m.contexts, maxLen);
    var s := head + LtvBytes(3, m.programInfo);
    var r, v := MetadataCommand(id, m, maxLen), LtvBytes(0xFF, m.vendor);
    assert r[2..] == (s + v)[2..];
    hide MetadataCommand;
    Behind(head, LtvBytes(3, m.programInfo), v);
    SameTail(r, s + v, 2);
    assert r[14 + |m.programInfo|..] == r[12 + |m.programInfo|..][2..];
  }

  // ---- the BASE ----

  /** The head of a BASE: service data of the basic audio announcement, the delay and the number of subgroups. */
  lemma BaseOctets(b: Base, first: byte, dstLen: int)
    requires Countable(b)
    ensures var s := Written(first, b, dstLen);
      && |s| >= 8 && s[0] == first && s[1] == 0x16 && Number16(s, 2) == 0x1851 && Number24(s, 4) == b.delay
      && s[7] == |b.groups| && s[8..] == GroupsFrom(8, b.groups, dstLen)
  {
    hide Le, GroupsFrom, AddGroups;
    GroupsAppended([first] + BaseHeader(b), b.groups, dstLen);
    Two(BASIC_AUDIO_ANNOUNCEMENT);
    Three(b.delay);
  }

  /** A subgroup: the number of BISes, the codec id, the configuration, the metadata, then the BISes. */
  lemma GroupOctets(at: nat, g: Subgroup, dstLen: int)
    requires |g.bises| <= 255
    ensures var s, csc, meta := GroupFrom(at, g, dstLen), HeadCsc(at, g, dstLen), HeadMetadata(at, g, dstLen);
      var n := 6 + |csc| + |meta|;
      && |s| >= n && s[0] == |g.bises| && s[1] == g.format && Number16(s, 2) == g.company
      && Number16(s, 4) == g.vendorCodec && s[6..6 + |csc|] == csc && s[6 + |csc|..n] == meta
      && s[n..] == BisesFrom(at + n, g.bises, dstLen)
  {
    hide Le, CscBytes, MetadataBytes, BisesFrom;
    Two(g.company);
    Two(g.vendorCodec);
  }

  /** A BIS: its index, then its configuration. */
  lemma BisOctets(at: nat, b: Bis, dstLen: int)
    ensures var s := BisFrom(at, b, dstLen); s[0] == b.index && s[1..] == CscBytes(b.csc, dstLen - at - 1)
  {
  }
}
