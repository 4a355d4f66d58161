/** The published audio capabilities and the tests the control point makes against them. */
module Pacs {
  import opened AscsPayload
  import opened AscsTypes
  import opened Bytes
  import opened CodecConfig

  datatype AseType = Sink | Source

  const LC3: byte := 6
  const MAX_OCTETS_PER_FRAME: byte := 0x64
  const CONTEXTS: uint16 := 0x0FFF

  /** What `FillLc3CodecParam` reads out of a PAC record. */
  datatype Capabilities = Capabilities(frequencies: uint16, durations: byte, channelCounts: byte,
                                       minOctets: uint16, maxOctets: uint16, framesPerSdu: byte)

  const NO_CAPABILITIES := Capabilities(0, 0, 0, 0, 0, 0)

  /** The capability octets of the one PAC record of each direction: 44.1 kHz is for sinks only. */
  function Record(t: AseType): seq<byte> {
    [3, 1, Frequencies(t), 0] + ([2, 2, 3] + ([2, 3, 1] + [5, 4, 0x1A, 0, MAX_OCTETS_PER_FRAME, 0]))
  }

  function Frequencies(t: AseType): byte {
    if t.Sink? then 0xF5 else 0xB5
  }

  /** `data` is what the cursor still has before it; the length octets are skipped, not used. A value that is cut off
      gives nothing: the remaining length wraps, and reading goes on behind the record. */
  function ReadCapabilities(data: seq<byte>, c: Capabilities): Option<Capabilities>
    decreases |data|
  {
    if |data| <= 2 then Some(c)
    else
      var v := data[2..];
      match data[1]
      case 1 => if |v| < 2 then None else ReadCapabilities(v[2..], c.(frequencies := FromLe(v, 2)))
      case 2 => ReadCapabilities(v[1..], c.(durations := v[0]))
      case 3 => ReadCapabilities(v[1..], c.(channelCounts := v[0]))
      case 4 =>
        if |v| < 4 then None
        else ReadCapabilities(v[4..], c.(minOctets := FromLe(v, 2), maxOctets := FromLe(v[2..], 2)))
      case 5 => ReadCapabilities(v[1..], c.(framesPerSdu := v[0]))
      case _ => ReadCapabilities(v, c)
  }

  method FillLc3CodecParam(data: seq<byte>) returns (r: Option<Capabilities>)
    ensures r == ReadCapabilities(data, NO_CAPABILITIES)
  {
    hide FromLe;
    var p, c := 0, NO_CAPABILITIES;
    while |data| - p > 2
      invariant 0 <= p <= |data|
      invariant ReadCapabilities(data[p..], c) == ReadCapabilities(data, NO_CAPABILITIES)
      decreases |data| - p
    {
      var typ, v := data[p + 1], data[p + 2..];
      assert data[p..][2..] == v;
      var size;
      match typ {
        case 1 =>
          if |v| < 2 {
            return None;
          }
          c := c.(frequencies := FromLe(v, 2));
          size := 2;
        case 2 =>
          c := c.(durations := v[0]);
          size := 1;
        case 3 =>
          c := c.(channelCounts := v[0]);
          size := 1;
        case 4 =>
          if |v| < 4 {
            return None;
          }
          c := c.(minOctets := FromLe(v, 2), maxOctets := FromLe(v[2..], 2));
          size := 4;
        case 5 =>
          c := c.(framesPerSdu := v[0]);
          size := 1;
        case _ =>
          size := 0;
      }
      assert v[size..] == data[p + 2 + size..];
      p := p + 2 + size;
    }
    r := Some(c);
  }

  function Pow2(n: nat): (p: nat)
    ensures p > 0
  {
    if n == 0 then 1 else 2 * Pow2(n - 1)
  }

  /** The number of bits set. */
  function Popcount(v: nat): nat {
    if v == 0 then 0 else v % 2 + Popcount(v / 2)
  }

  lemma AndHalf(x: nat, y: nat)
    requires x != 0 && y != 0
    ensures BitAnd(x, y) == (x % 2) * (y % 2) + 2 * BitAnd(x / 2, y / 2)
  {
  }

  lemma AndZero(x: nat)
    ensures BitAnd(x, 0) == 0
  {
  }

  lemma Halves(v: nat)
    requires v > 0
    ensures v == 2 * (v / 2) + v % 2
    ensures v % 2 == 1 ==> (v - 1) / 2 == v / 2 && (v - 1) % 2 == 0
    ensures v % 2 == 0 ==> (v - 1) / 2 == v / 2 - 1 && (v - 1) % 2 == 1
  {
  }

  lemma {:induction false} AndSelf(v: nat)
    ensures BitAnd(v, v) == v
  {
    hide BitAnd;
    if v == 0 {
      AndZero(0);
    } else {
      AndHalf(v, v);
      Halves(v);
      AndSelf(v / 2);
    }
  }

  lemma Doubled(n: nat)
    ensures Popcount(2 * n) == Popcount(n)
  {
    assert 2 * n / 2 == n;
  }

  /** The mask with the predecessor, from the half of the number. */
  lemma MaskHalf(v: nat)
    requires v > 1
    ensures BitAnd(v, v - 1) == 2 * if v % 2 == 1 then v / 2 else BitAnd(v / 2, v / 2 - 1)
  {
    hide BitAnd;
    AndHalf(v, v - 1);
    Halves(v);
    AndSelf(v / 2);
  }

  /** Masking a number with its predecessor clears its lowest bit. */
  lemma {:induction false} LowestBit(v: nat)
    requires v > 0
    ensures Popcount(BitAnd(v, v - 1)) == Popcount(v) - 1 && BitAnd(v, v - 1) < v
  {
    hide BitAnd;
    if v == 1 {
      AndZero(1);
    } else {
      Halves(v);
      MaskHalf(v);
      if v % 2 == 1 {
        Doubled(v / 2);
      } else {
        LowestBit(v / 2);
        Doubled(BitAnd(v / 2, v / 2 - 1));
      }
    }
  }

  method NumBitSet(val: uint32) returns (count: nat)
    ensures count == Popcount(val)
  {
    var v: nat := val;
    count := 0;
    while v > 0
      invariant count + Popcount(v) == Popcount(val)
    {
      LowestBit(v);
      v := BitAnd(v, v - 1);
      count := count + 1;
    }
  }

  predicate CompareCodecParam(p: Capabilities, c: Csc) {
    && (c.octets != 0 ==> p.minOctets <= c.octets <= p.maxOctets)
    && (c.freq != 0 ==> FreqIndex(c.freq) != 0 && BitAnd(p.frequencies, Pow2(FreqIndex(c.freq) - 1)) != 0)
    && (c.dur != 0 ==> DurIndex(c.dur) != NO_DURATION && BitAnd(p.durations, Pow2(DurIndex(c.dur))) != 0)
    && var channels := if c.alloc != 0 then Popcount(c.alloc) else 1;
       (channels != 0 && c.blocks != 0 ==> c.blocks * channels >= p.framesPerSdu)
  }

  /** The PAC record comparison of one direction. */
  predicate RecordAccepts(t: AseType, cc: CodecArgs) {
    var p := ReadCapabilities(Record(t), NO_CAPABILITIES);
    cc.format == LC3 && p.Some? && CompareCodecParam(p.value, cc.csc)
  }

  predicate VerifyCodecConfig(t: AseType, locations: uint32, cc: CodecArgs) {
    RecordAccepts(t, cc) && (cc.csc.alloc != 0 && locations != 0 ==> BitAnd(cc.csc.alloc, locations) != 0)
  }

  method VerifyAudioConfig(t: AseType, locations: uint32, cc: CodecArgs) returns (ok: bool)
    ensures ok == VerifyCodecConfig(t, locations, cc)
  {
    if cc.format != LC3 {
      return false;
    }
    var p := FillLc3CodecParam(Record(t));
    ok := p.Some? && CompareCodecParam(p.value, cc.csc);
    if ok && cc.csc.alloc != 0 && locations != 0 {
      ok := BitAnd(cc.csc.alloc, locations) != 0;
    }
  }

  predicate VerifyContext(context: uint16) {
    BitAnd(context, CONTEXTS) != 0
  }

  lemma TwoOctets(lo: byte, hi: byte, rest: seq<byte>)
    ensures FromLe([lo, hi] + rest, 2) == lo as int + 256 * hi
  {
    var s := [lo, hi] + rest;
    assert s[1..][1..] == rest;
    assert FromLe(s, 2) == lo as int + 256 * FromLe(s[1..], 1);
  }

  lemma ReadFrequencies(l: byte, lo: byte, rest: seq<byte>, c: Capabilities)
    ensures ReadCapabilities([l, 1, lo, 0] + rest, c) == ReadCapabilities(rest, c.(frequencies := lo))
  {
    hide FromLe;
    assert ([l, 1, lo, 0] + rest)[2..] == [lo, 0] + rest;
    assert ([lo, 0] + rest)[2..] == rest;
    TwoOctets(lo, 0, rest);
  }

  lemma ReadOne(l: byte, typ: byte, v: byte, rest: seq<byte>, c: Capabilities)
    requires typ == 2 || typ == 3
    ensures ReadCapabilities([l, typ, v] + rest, c)
         == ReadCapabilities(rest, if typ == 2 then c.(durations := v) else c.(channelCounts := v))
  {
    assert ([l, typ, v] + rest)[2..] == [v] + rest;
    assert ([v] + rest)[1..] == rest;
  }

  lemma ReadOctets(l: byte, lo: byte, hi: byte, c: Capabilities)
    ensures ReadCapabilities([l, 4, lo, 0, hi, 0], c) == Some(c.(minOctets := lo, maxOctets := hi))
  {
    hide FromLe;
    var s := [l, 4, lo, 0, hi, 0];
    assert s[2..] == [lo, 0] + [hi, 0] && s[2..][2..] == [hi, 0] + [] && s[2..][4..] == [];
    TwoOctets(lo, 0, [hi, 0]);
    TwoOctets(hi, 0, []);
    assert ReadCapabilities([], c.(minOctets := lo, maxOctets := hi)) == Some(c.(minOctets := lo, maxOctets := hi));
  }

  /** What the capability octets say. */
  lemma RecordCapabilities(t: AseType)
    ensures ReadCapabilities(Record(t), NO_CAPABILITIES)
         == Some(Capabilities(Frequencies(t), 3, 1, 26, MAX_OCTETS_PER_FRAME, 0))
  {
    hide ReadCapabilities, Frequencies;
    var last := [5, 4, 0x1A, 0, MAX_OCTETS_PER_FRAME, 0];
    var c := NO_CAPABILITIES.(frequencies := Frequencies(t));
    ReadFrequencies(3, Frequencies(t), [2, 2, 3] + ([2, 3, 1] + last), NO_CAPABILITIES);
    ReadOne(2, 2, 3, [2, 3, 1] + last, c);
    ReadOne(2, 3, 1, last, c.(durations := 3));
    ReadOctets(5, 0x1A, MAX_OCTETS_PER_FRAME, c.(durations := 3, channelCounts := 1));
  }

  /** Bit `i` of `x`. */
  predicate Bit(x: nat, i: nat) {
    if i == 0 then x % 2 == 1 else Bit(x / 2, i - 1)
  }

  lemma {:induction false} MaskTestsBit(x: nat, i: nat)
    ensures BitAnd(x, Pow2(i)) != 0 <==> Bit(x, i)
  {
    if i > 0 {
      MaskTestsBit(x / 2, i - 1);
      if x == 0 {
        assert BitAnd(x / 2, Pow2(i - 1)) == 0;
      }
    } else {
      assert BitAnd(x / 2, 0) == 0;
    }
  }

  lemma FrequencyBits(t: AseType, i: nat)
    requires i < 13
    ensures BitAnd(Frequencies(t), Pow2(i)) != 0 <==> i in {0, 2, 4, 5, 7} || (i == 6 && t.Sink?)
  {
    hide BitAnd, Pow2;
    MaskTestsBit(Frequencies(t), i);
    SmallBits(Frequencies(t), i);
  }

  /** A number has no bit beyond its size. */
  lemma {:induction false} NoBit(x: nat, n: nat, i: nat)
    requires x < Pow2(n) && i >= n
    ensures !Bit(x, i)
    decreases i
  {
    if i > 0 {
      NoBit(x / 2, if n > 0 then n - 1 else 0, i - 1);
    }
  }

  lemma SinkBits(i: nat)
    requires i < 8
    ensures Bit(0xF5, i) <==> i in {0, 2, 4, 5, 6, 7}
  {
    assert Bit(0xF5, 0) && !Bit(0xF5, 1) && Bit(0xF5, 2) && !Bit(0xF5, 3);
    assert Bit(0xF5, 4) && Bit(0xF5, 5) && Bit(0xF5, 6) && Bit(0xF5, 7);
  }

  lemma SourceBits(i: nat)
    requires i < 8
    ensures Bit(0xB5, i) <==> i in {0, 2, 4, 5, 7}
  {
    assert Bit(0xB5, 0) && !Bit(0xB5, 1) && Bit(0xB5, 2) && !Bit(0xB5, 3);
    assert Bit(0xB5, 4) && Bit(0xB5, 5) && !Bit(0xB5, 6) && Bit(0xB5, 7);
  }

  lemma Pow2Of8()
    ensures Pow2(8) == 256
  {
    assert Pow2(4) == 16;
  }

  lemma SmallBits(x: nat, i: nat)
    requires x == 0xF5 || x == 0xB5
    ensures Bit(x, i) <==> i in {0, 2, 4, 5, 7} || (i == 6 && x == 0xF5)
  {
    hide Bit, Pow2;
    if i >= 8 {
      Pow2Of8();
      NoBit(x, 8, i);
    } else {
      SinkBits(i);
      SourceBits(i);
    }
  }

  /** The frequencies a direction supports. */
  function Supported(t: AseType): set<uint32> {
    {8000, 16000, 24000, 32000, 48000} + if t.Sink? then {44100} else {}
  }

  lemma SupportedAt(t: AseType, k: nat)
    requires k < |SAMPLING_FREQUENCIES|
    ensures SAMPLING_FREQUENCIES[k] in Supported(t) <==> k in {0, 2, 4, 5, 7} || (k == 6 && t.Sink?)
  {
  }

  lemma SupportedListed(t: AseType, hz: uint32)
    requires hz in Supported(t)
    ensures hz in SAMPLING_FREQUENCIES
  {
    assert 8000 == SAMPLING_FREQUENCIES[0] && 16000 == SAMPLING_FREQUENCIES[2] && 24000 == SAMPLING_FREQUENCIES[4];
    assert 32000 == SAMPLING_FREQUENCIES[5] && 44100 == SAMPLING_FREQUENCIES[6] && 48000 == SAMPLING_FREQUENCIES[7];
  }

  lemma FrequencySupported(t: AseType, hz: uint32)
    ensures FreqIndex(hz) != 0 && BitAnd(Frequencies(t), Pow2(FreqIndex(hz) - 1)) != 0 <==> hz in Supported(t)
  {
    hide BitAnd, Pow2, Frequencies, FreqIndex, Supported;
    IndexFinds(hz);
    if FreqIndex(hz) != 0 {
      FrequencyBits(t, FreqIndex(hz) - 1);
      SupportedAt(t, FreqIndex(hz) - 1);
    } else if hz in Supported(t) {
      SupportedListed(t, hz);
    }
  }

  /** Exactly these configurations pass the record comparison; the number of blocks and the channels never decide. */
  lemma AcceptedExactly(t: AseType, cc: CodecArgs)
    ensures RecordAccepts(t, cc) <==>
            && cc.format == LC3
            && (cc.csc.octets == 0 || 26 <= cc.csc.octets <= MAX_OCTETS_PER_FRAME)
            && (cc.csc.freq == 0 || cc.csc.freq in Supported(t))
            && (cc.csc.dur == 0 || cc.csc.dur in {7500, 10000})
  {
    hide BitAnd, Pow2, Popcount, Frequencies, FreqIndex, ReadCapabilities, Record;
    RecordCapabilities(t);
    FrequencySupported(t, cc.csc.freq);
    DurationBits();
    assert cc.csc.blocks * (if cc.csc.alloc != 0 then Popcount(cc.csc.alloc) else 1) >= 0;
  }

  // ---- locations and contexts ----

  lemma {:induction false} NoBitOfZero(i: nat)
    ensures !Bit(0, i)
  {
    if i > 0 {
      NoBitOfZero(i - 1);
    }
  }

  lemma {:induction false} CommonBit(x: nat, y: nat, i: nat)
    requires Bit(x, i) && Bit(y, i)
    ensures BitAnd(x, y) != 0
    decreases i
  {
    if x == 0 || y == 0 {
      NoBitOfZero(i);
    } else {
      AndHalf(x, y);
      if i > 0 {
        CommonBit(x / 2, y / 2, i - 1);
      }
    }
  }

  lemma {:induction false} SomeCommonBit(x: nat, y: nat) returns (i: nat)
    requires BitAnd(x, y) != 0
    ensures Bit(x, i) && Bit(y, i)
  {
    AndHalf(x, y);
    i := 0;
    if x % 2 == 0 || y % 2 == 0 {
      i := SomeCommonBit(x / 2, y / 2);
      i := i + 1;
    }
  }

  /** Some bit is set in both numbers. */
  ghost predicate Overlap(x: nat, y: nat) {
    exists i: nat :: Bit(x, i) && Bit(y, i)
  }

  /** Two numbers have a common bit exactly if their bitwise AND is not zero. */
  lemma SharesBit(x: nat, y: nat)
    ensures BitAnd(x, y) != 0 <==> Overlap(x, y)
  {
    if BitAnd(x, y) != 0 {
      var i := SomeCommonBit(x, y);
    }
    if Overlap(x, y) {
      var i: nat :| Bit(x, i) && Bit(y, i);
      CommonBit(x, y, i);
    }
  }

  /** The verdict on a configuration, value by value: what the record of the direction supports, and at a location of
      the channel allocation, unless there is none or no location is configured. */
  lemma VerifiedExactly(t: AseType, locations: uint32, cc: CodecArgs)
    ensures VerifyCodecConfig(t, locations, cc) <==>
            && cc.format == 6
            && (cc.csc.octets == 0 || 26 <= cc.csc.octets <= 100)
            && (cc.csc.freq == 0 || cc.csc.freq in Supported(t))
            && (cc.csc.dur == 0 || cc.csc.dur in {7500, 10000})
            && (cc.csc.alloc == 0 || locations == 0 || Overlap(cc.csc.alloc, locations))
  {
    hide RecordAccepts, BitAnd, Overlap, Supported;
    AcceptedExactly(t, cc);
    SharesBit(cc.csc.alloc, locations);
  }

  /** The bits of a number that is all ones. */
  lemma {:induction false} Ones(n: nat, i: nat)
    ensures Bit(Pow2(n) - 1, i) <==> i < n
  {
    if n == 0 {
      NoBitOfZero(i);
    } else {
      assert (Pow2(n) - 1) / 2 == Pow2(n - 1) - 1 && (Pow2(n) - 1) % 2 == 1;
      if i > 0 {
        Ones(n - 1, i - 1);
      }
    }
  }

  lemma ContextBits(i: nat)
    ensures Bit(CONTEXTS, i) <==> i < 12
  {
    hide Bit;
    assert Pow2(12) == 4096 by {
      assert Pow2(4) == 16 && Pow2(8) == 256;
    }
    Ones(12, i);
  }

  /** One of the twelve assigned bits is set. */
  ghost predicate HasAssigned(context: nat) {
    exists i: nat :: i < 12 && Bit(context, i)
  }

  /** A streaming context is supported if it has one of the twelve assigned bits. */
  lemma ContextSupported(context: uint16)
    ensures VerifyContext(context) <==> HasAssigned(context)
  {
    hide BitAnd;
    SharesBit(context, CONTEXTS);
    forall i: nat ensures Bit(CONTEXTS, i) <==> i < 12 {
      ContextBits(i);
    }
    assert Overlap(context, CONTEXTS) <==> HasAssigned(context);
  }

  // ---- any record ----

  datatype Capability =
    | SamplingFrequencies(mask: uint16) | FrameDurations(bits: byte) | ChannelCounts(counts: byte)
    | FrameOctets(min: uint16, max: uint16) | FramesPerSdu(frames: byte)

  /** A capability as an element; its length octet may be any. */
  function CapabilityBytes(len: byte, e: Capability): seq<byte> {
    match e
    case SamplingFrequencies(m) => [len, 1] + Le(m, 2)
    case FrameDurations(b) => [len, 2, b]
    case ChannelCounts(b) => [len, 3, b]
    case FrameOctets(min, max) => [len, 4] + Le(min, 2) + Le(max, 2)
    case FramesPerSdu(n) => [len, 5, n]
  }

  function Has(c: Capabilities, e: Capability): Capabilities {
    match e
    case SamplingFrequencies(m) => c.(frequencies := m)
    case FrameDurations(b) => c.(durations := b)
    case ChannelCounts(b) => c.(channelCounts := b)
    case FrameOctets(min, max) => c.(minOctets := min, maxOctets := max)
    case FramesPerSdu(n) => c.(framesPerSdu := n)
  }

  /** Each element of a record, in any order and whatever its length octet says, sets its own capability. */
  lemma ReadsCapability(len: byte, e: Capability, rest: seq<byte>, c: Capabilities)
    ensures ReadCapabilities(CapabilityBytes(len, e) + rest, c) == ReadCapabilities(rest, Has(c, e))
  {
    hide Le, FromLe;
    var data := CapabilityBytes(len, e) + rest;
    match e
    case SamplingFrequencies(m) =>
      LeRoundTrip(m, 2, rest);
      assert data[2..] == Le(m, 2) + rest && data[2..][2..] == rest;
    case FrameDurations(b) => assert data[2..][1..] == rest;
    case ChannelCounts(b) => assert data[2..][1..] == rest;
    case FrameOctets(min, max) =>
      LeRoundTrip(min, 2, Le(max, 2) + rest);
      LeRoundTrip(max, 2, rest);
      assert data[2..] == Le(min, 2) + (Le(max, 2) + rest) && data[2..][2..] == Le(max, 2) + rest;
      assert data[2..][4..] == rest;
    case FramesPerSdu(n) => assert data[2..][1..] == rest;
  }

  /** Of an element of another type only the length and the type are skipped: its value is read as elements. */
  lemma ReadsUnknown(len: byte, typ: byte, value: seq<byte>, c: Capabilities)
    requires (typ == 0 || typ > 5) && value != []
    ensures ReadCapabilities([len, typ] + value, c) == ReadCapabilities(value, c)
  {
    assert ([len, typ] + value)[2..] == value;
  }

  lemma FrequenciesDiffer(j: nat, k: nat)
    requires j < |SAMPLING_FREQUENCIES| && k < |SAMPLING_FREQUENCIES|
    ensures SAMPLING_FREQUENCIES[j] == SAMPLING_FREQUENCIES[k] ==> j == k
  {
  }

  /** The comparison with any capabilities, bit by bit: the bit of the frequency's place in the table, bit 0 for 7.5 ms
      and bit 1 for 10 ms, the octets between the two limits, and blocks for all frames of an SDU. */
  lemma ComparesExactly(p: Capabilities, c: Csc)
    ensures CompareCodecParam(p, c) <==>
            && (c.octets == 0 || p.minOctets <= c.octets <= p.maxOctets)
            && (c.freq == 0
                || exists k ::
                     0 <= k < |SAMPLING_FREQUENCIES| && SAMPLING_FREQUENCIES[k] == c.freq && Bit(p.frequencies, k))
            && (c.dur == 0 || (c.dur == 7500 && Bit(p.durations, 0)) || (c.dur == 10000 && Bit(p.durations, 1)))
            && (c.blocks == 0 || c.blocks * (if c.alloc == 0 then 1 else Popcount(c.alloc)) >= p.framesPerSdu)
  {
    hide BitAnd, Bit, Pow2, Popcount, FreqIndex;
    IndexFinds(c.freq);
    if FreqIndex(c.freq) != 0 {
      MaskTestsBit(p.frequencies, FreqIndex(c.freq) - 1);
      forall k | 0 <= k < |SAMPLING_FREQUENCIES| && SAMPLING_FREQUENCIES[k] == c.freq
        ensures k == FreqIndex(c.freq) - 1
      {
        FrequenciesDiffer(k, FreqIndex(c.freq) - 1);
      }
    }
    MaskTestsBit(p.durations, 0);
    MaskTestsBit(p.durations, 1);
    if c.alloc != 0 {
      SomeBit(c.alloc);
    }
  }

  lemma {:induction false} SomeBit(v: nat)
    requires v > 0
    ensures Popcount(v) > 0
  {
    if v % 2 == 0 {
      SomeBit(v / 2);
    }
  }

  lemma DurationBits()
    ensures BitAnd(3, Pow2(0)) != 0 && BitAnd(3, Pow2(1)) != 0
  {
    assert Pow2(0) == 1 && Pow2(1) == 2 && BitAnd(3, 1) == 1 && BitAnd(3, 2) == 2;
  }
}
