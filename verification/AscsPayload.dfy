/** Entries of the ASE Control Point operations, section 5 of ASCS v1.0: the client's builders, the server's parsers. */
module AscsPayload {
  import opened AscsTypes
  import opened Bytes
  import opened CodecConfig
  import opened Metadata

  datatype CodecArgs = CodecArgs(latency: byte, phy: byte, format: byte, company: uint16, vendorCodec: uint16, csc: Csc)

  datatype Qos = Qos(cig: byte, cis: byte, sduInterval: uint32, framing: byte, phy: byte, maxSdu: uint16,
                     retransmissions: byte, maxTransportLatency: uint16, presentationDelay: uint32)

  const NO_QOS := Qos(0, 0, 0, 0, 0, 0, 0, 0, 0)

  /** Every value the server's parser insists on; the two delays are 24-bit fields. */
  predicate QosInRange(q: Qos) {
    && 0xFF <= q.sduInterval <= 0xFFFFFF
    && q.framing < 2
    && q.phy < 4
    && q.maxSdu <= 0xFFF
    && 5 <= q.maxTransportLatency <= 0xFA0
    && q.presentationDelay <= 0xFFFFFF
  }

  /** The two values that the program holds in 32 bits fit their fields of 24. */
  predicate QosFits(q: Qos) {
    q.sduInterval <= 0xFFFFFF && q.presentationDelay <= 0xFFFFFF
  }

  // ---- the builders ----

  function CodecHeader(id: byte, cc: CodecArgs): (s: seq<byte>)
    ensures |s| == 8
  {
    [id, cc.latency, cc.phy, cc.format] + Le(cc.company, 2) + Le(cc.vendorCodec, 2)
  }

  function CodecEntry(id: byte, cc: CodecArgs, maxLen: int): seq<byte> {
    CodecHeader(id, cc) + CscBytes(cc.csc, maxLen - 8)
  }

  function QosEntry(id: byte, q: Qos): (s: seq<byte>)
    ensures |s| == 16
  {
    [id, q.cig, q.cis] + Le(q.sduInterval, 3) + [q.framing, q.phy] + Le(q.maxSdu, 2) + [q.retransmissions]
    + Le(q.maxTransportLatency, 2) + Le(q.presentationDelay, 3)
  }

  method BuildCpConfigCodec(buf: array<byte>, at: nat, maxLen: int, id: byte, cc: CodecArgs) returns (n: nat)
    requires at + 9 <= buf.Length && at + maxLen <= buf.Length
    modifies buf
    ensures Patched(old(buf[..]), buf[..], at, CodecEntry(id, cc, maxLen))
    ensures n == |CodecEntry(id, cc, maxLen)|
  {
    hide CodecHeader, CscBytes;
    ghost var orig := buf[..];
    var header := CodecHeader(id, cc);
    Put(buf, at, header);
    ghost var before := buf[..];
    n := FillCsc(buf, at + 8, maxLen - 8, cc.csc);
    PatchTwice(orig, before, buf[..], at, header, CscBytes(cc.csc, maxLen - 8));
    n := n + 8;
  }

  method BuildCpConfigQos(buf: array<byte>, at: nat, id: byte, q: Qos) returns (n: nat)
    requires at + 16 <= buf.Length
    modifies buf
    ensures Patched(old(buf[..]), buf[..], at, QosEntry(id, q)) && n == 16
  {
    Put(buf, at, QosEntry(id, q));
    n := 16;
  }

  // ---- the parsers ----

  datatype CodecParse = CodecOverrun | CodecParsed(cc: CodecArgs, used: nat, sts: Status)

  function ParseCodecConfig(s: seq<byte>, sts: Status): CodecParse {
    if |s| < 8 then CodecOverrun
    else
      var cc := CodecArgs(s[0], s[1], s[2], FromLe(s[3..], 2), FromLe(s[5..], 2), NO_CSC);
      if |s| - 8 < s[7] then CodecParsed(cc, 8, sts.(code := INVALID_LENGTH))
      else
        match CscLoop(s[8..], s[7], NO_CSC, 8, sts)
        case LoopOverrun => CodecOverrun
        case LoopDone(csc, used, sts') => CodecParsed(cc.(csc := csc), used, sts')
  }

  method ParseCodecConfigStream(data: seq<byte>, start: nat, sts0: Status) returns (r: CodecParse)
    requires start <= |data|
    ensures r == ParseCodecConfig(data[start..], sts0)
  {
    if |data| - start < 8 {
      return CodecOverrun;
    }
    ghost var s := data[start..];
    assert s[3..] == data[start + 3..] && s[5..] == data[start + 5..] && s[8..] == data[start + 8..];
    var cc := CodecArgs(data[start], data[start + 1], data[start + 2],
                        FromLe(data[start + 3..], 2), FromLe(data[start + 5..], 2), NO_CSC);
    if |data| - start - 8 < data[start + 7] {
      return CodecParsed(cc, 8, sts0.(code := INVALID_LENGTH));
    }
    hide FromLe;
    var l := CscLoopStream(data, start + 8, data[start + 7], 8, sts0);
    r := match l
      case LoopOverrun => CodecOverrun
      case LoopDone(csc, used, sts) => CodecParsed(cc.(csc := csc), used, sts);
  }

  /** One turn of the loop over the elements, at the cursor `p`; `left` is an octet that wraps. */
  lemma LoopTurn(data: seq<byte>, p: nat, left: byte, c: Csc, used: nat, sts: Status)
    requires p <= |data| && left != 0
    ensures CscLoop(data[p..], left, c, used, sts)
         == if p + 2 > |data| then LoopOverrun
            else if data[p] > left then LoopDone(c, used + 2, sts.(code := INVALID_LENGTH))
            else if data[p + 1] == |TYPE_LENGTH| then LoopOverrun
            else if data[p + 1] == 0 || data[p + 1] > |TYPE_LENGTH| || data[p] != TYPE_LENGTH[data[p + 1]] then
              LoopDone(c, used + 2, sts.(code := INVALID_CONFIGURATION, reason := REASON_CODEC_SPECIFIC_CONFIGURATION))
            else if !ReadField(data[p + 1], data[p + 2..]).Field? then LoopOverrun
            else if p + data[p] as int + 1 > |data| then LoopOverrun
            else CscLoop(data[p + data[p] + 1..], (left as int - (data[p] as int + 1)) % 256,
                         Apply(c, ReadField(data[p + 1], data[p + 2..]).l), used + data[p] as int + 1, sts)
  {
    hide ReadField, Apply, Encode;
    if p + 2 <= |data| {
      assert data[p..][2..] == data[p + 2..];
      var typ := data[p + 1];
      if 1 <= typ < |TYPE_LENGTH| && data[p] == TYPE_LENGTH[typ] && ReadField(typ, data[p + 2..]).Field? {
        FieldSize(typ, data[p + 2..]);
        assert data[p..][data[p] + 1..] == data[p + data[p] + 1..];
      }
    }
  }

  lemma LoopStops(s: seq<byte>, c: Csc, used: nat, sts: Status)
    ensures CscLoop(s, 0, c, used, sts) == LoopDone(c, used, sts)
  {
  }

  /** The elements of the codec-specific configuration, one by one. */
  method CscLoopStream(data: seq<byte>, start: nat, len: byte, used0: nat, sts: Status) returns (r: LoopResult)
    requires start <= |data|
    ensures r == CscLoop(data[start..], len, NO_CSC, used0, sts)
  {
    hide ReadField, Apply, Encode, CscLoop;
    var p, csc := start, NO_CSC;
    var left: byte := len;
    while left != 0
      invariant start <= p <= |data|
      invariant CscLoop(data[p..], left, csc, used0 + (p - start), sts)
          == CscLoop(data[start..], len, NO_CSC, used0, sts)
      decreases |data| - p
    {
      LoopTurn(data, p, left, csc, used0 + (p - start), sts);
      if p + 2 > |data| {
        return LoopOverrun;
      }
      var typeLen, typ := data[p], data[p + 1];
      var used := used0 + (p - start) + 2;
      if typeLen > left {
        return LoopDone(csc, used, sts.(code := INVALID_LENGTH));
      }
      if typ == |TYPE_LENGTH| {
        return LoopOverrun;
      }
      if typ == 0 || typ > |TYPE_LENGTH| || typeLen != TYPE_LENGTH[typ] {
        return LoopDone(csc, used, sts.(code := INVALID_CONFIGURATION, reason := REASON_CODEC_SPECIFIC_CONFIGURATION));
      }
      var f := ReadField(typ, data[p + 2..]);
      if !f.Field? {
        return LoopOverrun;
      }
      FieldSize(typ, data[p + 2..]);
      csc := Apply(csc, f.l);
      left := (left as int - (typeLen as int + 1)) % 256;
      p := p + typeLen + 1;
    }
    LoopStops(data[p..], csc, used0 + (p - start), sts);
    r := LoopDone(csc, used0 + (p - start), sts);
  }

  lemma FieldSize(typ: byte, v: seq<byte>)
    requires 1 <= typ < |TYPE_LENGTH| && ReadField(typ, v).Field?
    ensures |v| >= TYPE_LENGTH[typ] - 1
  {
  }

  datatype QosParse = QosParse(qos: Qos, used: nat, sts: Status)

  function ReadQos(s: seq<byte>): Qos
    requires |s| >= 15
  {
    Qos(s[0], s[1], FromLe(s[2..], 3), s[5], s[6], FromLe(s[7..], 2), s[9], FromLe(s[10..], 2), FromLe(s[12..], 3))
  }

  function ParseConfigQos(s: seq<byte>, sts: Status): (r: QosParse)
    ensures r.used <= |s|
    ensures r.sts.code == SUCCESS ==>
        r.sts == sts && |s| >= 15 && r.used == 15 && r.qos == ReadQos(s) && QosInRange(r.qos)
  {
    if |s| < 15 then QosParse(NO_QOS, 0, sts.(code := INVALID_LENGTH, reason := NOT_APPLICABLE))
    else
      var q := ReadQos(s);
      var bad := sts.(code := INVALID_CONFIGURATION);
      if q.sduInterval < 0xFF || q.sduInterval > 0xFFFFFF then QosParse(q, 15, bad.(reason := REASON_SDU_INTERVAL))
      else if q.framing >= 2 then QosParse(q, 15, bad.(reason := REASON_FRAMING))
      else if q.phy / 4 != 0 then QosParse(q, 15, bad.(reason := REASON_PHY))
      else if q.maxSdu > 0xFFF then QosParse(q, 15, bad.(reason := REASON_MAX_SDU))
      else if q.maxTransportLatency < 5 || q.maxTransportLatency > 0xFA0 then
        QosParse(q, 15, bad.(reason := REASON_MAX_TRANSPORT_LATENCY))
      else QosParse(q, 15, sts)
  }

  /** The value a reason is about is out of its range. */
  predicate Offends(q: Qos, reason: byte) {
    match reason
    case 3 => q.sduInterval < 0xFF || q.sduInterval > 0xFFFFFF
    case 4 => q.framing > 1
    case 5 => q.phy > 3
    case 6 => q.maxSdu > 0xFFF
    case 8 => q.maxTransportLatency < 5 || q.maxTransportLatency > 4000
    case _ => false
  }

  /** Success is exactly for fifteen octets whose values are all in range. With fewer octets the answer is "invalid
      length" (2), and otherwise "invalid configuration" (9) with the reason of the first value that offends. */
  lemma QosAnsweredExactly(s: seq<byte>, sts: Status)
    requires sts.code == SUCCESS
    ensures var r := ParseConfigQos(s, sts);
      && r.sts.aseId == sts.aseId
      && (r.sts == sts <==> |s| >= 15 && QosInRange(ReadQos(s)))
      && (|s| < 15 ==> r.used == 0 && r.sts.code == 2 && r.sts.reason == 0)
      && (|s| >= 15 ==>
            && r.used == 15 && r.qos == ReadQos(s)
            && (!QosInRange(r.qos) ==>
                  && r.sts.code == 9 && Offends(r.qos, r.sts.reason)
                  && forall earlier | 0 <= earlier < r.sts.reason :: !Offends(r.qos, earlier)))
  {
    hide FromLe;
    if |s| >= 15 {
      assert Pow256(3) == 0x100_0000 by {
        assert Pow256(1) == 256;
      }
    }
  }

  datatype MetaParse = MetaOverrun | MetaParsed(contexts: Contexts, used: nat, sts: Status)

  function ParseMetadata(s: seq<byte>, c: Contexts, sts: Status): MetaParse {
    if |s| < 1 then MetaParsed(c, 0, sts.(code := INVALID_LENGTH, reason := NOT_APPLICABLE))
    else if s[0] > |s| - 1 then MetaParsed(c, 1, sts.(code := INVALID_LENGTH, reason := NOT_APPLICABLE))
    else
      var r := GetMetadata(s[1..], s[0], c);
      if r.outcome == Metadata.Overrun then MetaOverrun else MetaParsed(r.contexts, s[0] as int + 1, sts)
  }

  // ---- build, then parse ----

  predicate CodecInRange(cc: CodecArgs) {
    InTables(cc.csc)
  }

  /** What a codec entry in a buffer of `maxLen` octets carries: everything, from 28 octets on. */
  function Sent(cc: CodecArgs, maxLen: int): CodecArgs {
    cc.(csc := Truncated(cc.csc, maxLen - 8))
  }

  lemma AllSent(cc: CodecArgs, maxLen: int)
    requires maxLen >= 28
    ensures Sent(cc, maxLen) == cc
  {
    NothingLost(cc.csc, maxLen - 9, 0);
  }

  /** A built Config Codec entry is read back, to its last octet: everything that fitted. */
  lemma CodecRoundTrip(id: byte, cc: CodecArgs, maxLen: int, rest: seq<byte>, sts: Status)
    requires CodecInRange(Sent(cc, maxLen))
    ensures var e := CodecEntry(id, cc, maxLen);
      ParseCodecConfig(e[1..] + rest, sts) == CodecParsed(Sent(cc, maxLen), |e| - 1, sts)
    ensures maxLen >= 28 ==> Sent(cc, maxLen) == cc
  {
    hide CscBytes, CscLoop, Le, FromLe, Truncated;
    if maxLen >= 28 {
      AllSent(cc, maxLen);
    }
    var b := CscBytes(cc.csc, maxLen - 8);
    var s := CodecEntry(id, cc, maxLen)[1..] + rest;
    assert s[3..] == Le(cc.company, 2) + (Le(cc.vendorCodec, 2) + b + rest);
    assert s[5..] == Le(cc.vendorCodec, 2) + (b + rest);
    assert s[7] == b[0] && s[8..] == b[1..] + rest;
    LeRoundTrip(cc.company, 2, Le(cc.vendorCodec, 2) + b + rest);
    LeRoundTrip(cc.vendorCodec, 2, b + rest);
    CscRoundTrip(cc.csc, maxLen - 8, rest, sts);
  }

  lemma CscRoundTrip(c: Csc, maxLen: int, rest: seq<byte>, sts: Status)
    requires InTables(Truncated(c, maxLen))
    ensures var b := CscBytes(c, maxLen);
      CscLoop(b[1..] + rest, b[0], NO_CSC, 8, sts) == LoopDone(Truncated(c, maxLen), 7 + |b|, sts)
  {
    hide Greedy, Fields, CscLoop, ApplyAll, Truncate;
    GreedyIsTruncate(c, maxLen - 1, 0);
    var b, t := CscBytes(c, maxLen), Truncated(c, maxLen);
    assert b[1..] == EncodeAll(Fields(t, 0));
    AscsParsesLtvs(Fields(t, 0), rest, NO_CSC, 8, sts);
    OverrideFields(NO_CSC, t);
  }

  lemma QosRoundTrip(id: byte, q: Qos, rest: seq<byte>, sts: Status)
    requires QosInRange(q)
    ensures ParseConfigQos(QosEntry(id, q)[1..] + rest, sts) == QosParse(q, 15, sts)
  {
    ReadBuiltQos(id, q, rest);
  }

  lemma ReadBuiltQos(id: byte, q: Qos, rest: seq<byte>)
    requires QosFits(q)
    ensures ReadQos(QosEntry(id, q)[1..] + rest) == q
  {
    hide Le, FromLe;
    var s := QosEntry(id, q)[1..] + rest;
    var r5 := Le(q.presentationDelay, 3) + rest;
    var r4 := Le(q.maxTransportLatency, 2) + r5;
    var r3 := Le(q.maxSdu, 2) + ([q.retransmissions] + r4);
    var r1 := Le(q.sduInterval, 3) + ([q.framing, q.phy] + r3);
    assert s[2..] == r1;
    assert s[7..] == r3;
    assert s[10..] == r4;
    assert s[12..] == r5;
    LeRoundTrip(q.sduInterval, 3, [q.framing, q.phy] + r3);
    LeRoundTrip(q.maxSdu, 2, [q.retransmissions] + r4);
    LeRoundTrip(q.maxTransportLatency, 2, r5);
    LeRoundTrip(q.presentationDelay, 3, rest);
  }

  /** The contexts of a built command that fitted are read back over the stored ones, and the cursor ends behind the
      entry. */
  lemma MetadataEntryRoundTrip(id: byte, m: Meta, maxLen: int, rest: seq<byte>, under: Contexts, sts: Status)
    requires ValidContexts(m.contexts) && |MetadataCommand(id, m, maxLen)| <= 257
    ensures var e := MetadataCommand(id, m, maxLen);
      ParseMetadata(e[1..] + rest, under, sts)
          == MetaParsed(Merge(under, Fitting(m.contexts, maxLen - 2)), |e| - 1, sts)
  {
    hide MetadataCommand, GetMetadata, Fitting;
    var e := MetadataCommand(id, m, maxLen);
    CommandRoundTrip(id, m, maxLen, rest, under);
    assert (e[1..] + rest)[1..] == e[2..] + rest;
  }
}
