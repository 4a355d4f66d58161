/** The codec-specific configuration of BAP: its LTV encoder and its two independently written parsers. */
module CodecConfig {
  import opened AscsTypes
  import opened Bytes

  /** A zero field is an absent field. */
  datatype Csc = Csc(freq: uint32, dur: uint32, alloc: uint32, octets: uint16, blocks: byte)

  const NO_CSC := Csc(0, 0, 0, 0, 0)

  const SAMPLING_FREQUENCIES: seq<uint32> :=
    [8000, 11025, 16000, 22050, 24000, 32000, 44100, 48000, 88200, 96000, 176400, 192000, 384000]

  function FreqFromIndex(index: byte): (hz: uint32) {
    if 1 <= index <= |SAMPLING_FREQUENCIES| then SAMPLING_FREQUENCIES[index - 1] else 0
  }

  /** One more than the first place of `hz` from `i` on, or zero. */
  function FirstFrom(table: seq<uint32>, hz: uint32, i: nat): (r: nat)
    requires i <= |table|
    ensures r <= |table|
    decreases |table| - i
  {
    if i == |table| then 0 else if table[i] == hz then i + 1 else FirstFrom(table, hz, i + 1)
  }

  function FreqIndex(hz: uint32): byte {
    FirstFrom(SAMPLING_FREQUENCIES, hz, 0)
  }

  lemma {:induction false} FirstFromFinds(table: seq<uint32>, hz: uint32, i: nat)
    requires i <= |table|
    ensures var r := FirstFrom(table, hz, i);
      && (r == 0 <==> forall j | i <= j < |table| :: table[j] != hz)
      && (r != 0 ==> table[r - 1] == hz)
    decreases |table| - i
  {
    if i < |table| && table[i] != hz {
      FirstFromFinds(table, hz, i + 1);
    }
  }

  lemma IndexFinds(hz: uint32)
    ensures FreqIndex(hz) == 0 <==> hz !in SAMPLING_FREQUENCIES
    ensures FreqIndex(hz) != 0 ==>
        FreqIndex(hz) <= |SAMPLING_FREQUENCIES| && SAMPLING_FREQUENCIES[FreqIndex(hz) - 1] == hz
  {
    hide FirstFrom;
    FirstFromFinds(SAMPLING_FREQUENCIES, hz, 0);
  }

  method GetSamplingFreqIndex(hz: uint32) returns (index: byte)
    ensures index == FreqIndex(hz)
    ensures index != 0 ==> FreqFromIndex(index) == hz
    ensures index == 0 ==> hz !in SAMPLING_FREQUENCIES
  {
    var place := SearchTable(SAMPLING_FREQUENCIES, hz);
    IndexFinds(hz);
    index := place;
  }

  /** The loop over the table. */
  method SearchTable(table: seq<uint32>, hz: uint32) returns (r: nat)
    ensures r == FirstFrom(table, hz, 0)
  {
    var i := 0;
    while i < |table|
      invariant 0 <= i <= |table|
      invariant FirstFrom(table, hz, i) == FirstFrom(table, hz, 0)
    {
      if table[i] == hz {
        return i + 1;
      }
      i := i + 1;
    }
    r := 0;
  }

  const DURATION_7_5: byte := 0
  const DURATION_10: byte := 1
  const NO_DURATION: byte := 0xFF

  function DurFromIndex(index: byte): uint32 {
    if index == DURATION_7_5 then 7500 else if index == DURATION_10 then 10000 else 0
  }

  function DurIndex(us: uint32): byte {
    if us == 10000 then DURATION_10 else if us == 7500 then DURATION_7_5 else NO_DURATION
  }

  /** A number the two index tables can carry, or an absent one. */
  predicate InTables(c: Csc) {
    && (c.freq == 0 || c.freq in SAMPLING_FREQUENCIES)
    && (c.dur == 0 || c.dur in {7500, 10000})
  }

  /** The index look-ups are inverse on the tables, and a number outside them has the index that reads as absent. */
  lemma IndexRoundTrip(c: Csc)
    ensures FreqFromIndex(FreqIndex(c.freq)) == if c.freq in SAMPLING_FREQUENCIES then c.freq else 0
    ensures DurFromIndex(DurIndex(c.dur)) == if c.dur in {7500, 10000} then c.dur else 0
  {
    hide FreqIndex;
    IndexFinds(c.freq);
  }

  // ---- the LTV view ----

  datatype Ltv = Freq(index: byte) | Dur(index: byte) | Alloc(mask: uint32) | Octets(n: uint16) | Blocks(count: byte)

  function Encode(l: Ltv): (s: seq<byte>)
    ensures 3 <= |s| <= 6 && s[0] == |s| - 1
  {
    match l
    case Freq(i) => [2, 1, i]
    case Dur(i) => [2, 2, i]
    case Alloc(m) => [5, 3] + Le(m, 4)
    case Octets(n) => [3, 4] + Le(n, 2)
    case Blocks(b) => [2, 5, b]
  }

  function EncodeAll(ls: seq<Ltv>): seq<byte> {
    if ls == [] then [] else Encode(ls[0]) + EncodeAll(ls[1..])
  }

  /** What an element means: it overrides one field. */
  function Apply(c: Csc, l: Ltv): Csc {
    match l
    case Freq(i) => c.(freq := FreqFromIndex(i))
    case Dur(i) => c.(dur := DurFromIndex(i))
    case Alloc(m) => c.(alloc := m)
    case Octets(n) => c.(octets := n)
    case Blocks(b) => c.(blocks := b)
  }

  function ApplyAll(c: Csc, ls: seq<Ltv>): Csc
    decreases |ls|
  {
    if ls == [] then c else ApplyAll(Apply(c, ls[0]), ls[1..])
  }

  /** The element's index has no meaning in its table. */
  predicate BadIndex(l: Ltv) {
    (l.Freq? && FreqFromIndex(l.index) == 0) || (l.Dur? && DurFromIndex(l.index) == 0)
  }

  predicate AllMeaningful(ls: seq<Ltv>) {
    ls == [] || (!BadIndex(ls[0]) && AllMeaningful(ls[1..]))
  }

  // ---- the encoder ----

  const FIELDS := 5

  /** The `k`-th field in the order the encoder writes them. */
  function Get(c: Csc, k: nat): uint32
    requires k < FIELDS
  {
    match k
    case 0 => c.freq
    case 1 => c.dur
    case 2 => c.alloc
    case 3 => c.octets
    case _ => c.blocks
  }

  function Element(c: Csc, k: nat): (l: Ltv)
    requires k < FIELDS
    ensures |Encode(l)| == Size(k)
  {
    match k
    case 0 => Freq(FreqIndex(c.freq))
    case 1 => Dur(DurIndex(c.dur))
    case 2 => Alloc(c.alloc)
    case 3 => Octets(c.octets)
    case _ => Blocks(c.blocks)
  }

  function Size(k: nat): nat
    requires k < FIELDS
  {
    [3, 3, 6, 4, 3][k]
  }

  function Clear(c: Csc, k: nat): (r: Csc)
    requires k < FIELDS
    ensures Get(r, k) == 0 && forall j | 0 <= j < FIELDS && j != k :: Get(r, j) == Get(c, j)
  {
    match k
    case 0 => c.(freq := 0)
    case 1 => c.(dur := 0)
    case 2 => c.(alloc := 0)
    case 3 => c.(octets := 0)
    case _ => c.(blocks := 0)
  }

  /** The elements of the fields from the `k`-th on that are present. */
  function Fields(c: Csc, k: nat): seq<Ltv>
    requires k <= FIELDS
    decreases FIELDS - k
  {
    if k == FIELDS then []
    else if Get(c, k) != 0 then [Element(c, k)] + Fields(c, k + 1)
    else Fields(c, k + 1)
  }

  /** An element that does not fit is skipped; a later, smaller one may still fit. */
  function Greedy(ls: seq<Ltv>, room: int): seq<Ltv> {
    if ls == [] then []
    else if |Encode(ls[0])| <= room then [ls[0]] + Greedy(ls[1..], room - |Encode(ls[0])|)
    else Greedy(ls[1..], room)
  }

  lemma {:induction false} GreedyFits(ls: seq<Ltv>, room: int)
    ensures room >= 0 ==> |EncodeAll(Greedy(ls, room))| <= room
    ensures |EncodeAll(Greedy(ls, room))| <= 6 * |ls|
    decreases |ls|
  {
    hide Encode;
    if ls != [] {
      var n := |Encode(ls[0])|;
      if n <= room {
        GreedyFits(ls[1..], room - n);
        assert ([ls[0]] + Greedy(ls[1..], room - n))[1..] == Greedy(ls[1..], room - n);
      } else {
        GreedyFits(ls[1..], room);
      }
    }
  }

  lemma {:induction false} FewFields(c: Csc, k: nat)
    requires k <= FIELDS
    ensures |Fields(c, k)| <= FIELDS - k
    decreases FIELDS - k
  {
    if k < FIELDS {
      FewFields(c, k + 1);
    }
  }

  /** The octets the encoder leaves behind its cursor: a length octet, then the elements that fit. */
  function CscBytes(c: Csc, maxLen: int): (s: seq<byte>)
    ensures 1 <= |s| <= 31 && s[0] == |s| - 1
    ensures maxLen >= 1 ==> |s| <= maxLen
  {
    FewFields(c, 0);
    GreedyFits(Fields(c, 0), maxLen - 1);
    var e := EncodeAll(Greedy(Fields(c, 0), maxLen - 1));
    [|e|] + e
  }

  /** What the buffer holds so far and what the greedy encoder still adds. */
  ghost function Outlook(done: seq<byte>, c: Csc, k: nat, maxLen: int): seq<byte>
    requires k <= FIELDS
  {
    done + EncodeAll(Greedy(Fields(c, k), maxLen - |done|))
  }

  /** `done` after the attempt to add the `k`-th field. */
  ghost function Attempt(done: seq<byte>, c: Csc, k: nat, maxLen: int): seq<byte>
    requires k < FIELDS
  {
    if Get(c, k) != 0 then Fit(done, Encode(Element(c, k)), maxLen) else done
  }

  lemma GreedyHead(e: Ltv, later: seq<Ltv>, room: int)
    ensures Greedy([e] + later, room)
         == if |Encode(e)| <= room then [e] + Greedy(later, room - |Encode(e)|) else Greedy(later, room)
  {
    assert ([e] + later)[1..] == later;
  }

  lemma EncodeHead(e: Ltv, later: seq<Ltv>)
    ensures EncodeAll([e] + later) == Encode(e) + EncodeAll(later)
  {
    assert ([e] + later)[1..] == later;
  }

  lemma OutlookStep(done: seq<byte>, c: Csc, k: nat, maxLen: int)
    requires k < FIELDS
    ensures Outlook(done, c, k, maxLen) == Outlook(Attempt(done, c, k, maxLen), c, k + 1, maxLen)
  {
    hide Encode, Element;
    if Get(c, k) != 0 {
      var e, later, room := Element(c, k), Fields(c, k + 1), maxLen - |done|;
      assert Fields(c, k) == [e] + later;
      GreedyHead(e, later, room);
      if |Encode(e)| <= room {
        EncodeHead(e, Greedy(later, room - |Encode(e)|));
      }
    }
  }

  lemma OutlookEnd(first: byte, done: seq<byte>, c: Csc, maxLen: int)
    requires Outlook(done, c, FIELDS, maxLen) == Outlook([first], c, 0, maxLen)
    ensures |done| <= 256 && [|done| - 1 as byte] + done[1..] == CscBytes(c, maxLen)
    ensures done != []
  {
    assert done == Outlook(done, c, FIELDS, maxLen);
    FewFields(c, 0);
    GreedyFits(Fields(c, 0), maxLen - 1);
  }

  /** The `k`-th field, written at the cursor if it is present and fits. */
  method FillField(buf: array<byte>, at: nat, p: nat, maxLen: int, c: Csc, k: nat,
                   ghost orig: seq<byte>, ghost done: seq<byte>)
    returns (q: nat, ghost done': seq<byte>)
    requires k < FIELDS && at + |done| == p <= buf.Length && at + maxLen <= buf.Length
    requires Patched(orig, buf[..], at, done)
    modifies buf
    ensures at + |done'| == q <= buf.Length
    ensures done' == Attempt(done, c, k, maxLen)
    ensures Patched(orig, buf[..], at, done')
  {
    hide Patched;
    var e := Encode(Element(c, k));
    assert LtvBytes(e[1], e[2..]) == e;
    q, done' := FillLtv(buf, at, p, maxLen, Get(c, k) != 0, e[1], e[2..], orig, done);
  }

  /** All fields behind the length octet, which still holds whatever was there. */
  method FillFields(buf: array<byte>, at: nat, maxLen: int, c: Csc) returns (p: nat, ghost done: seq<byte>)
    requires at + 1 <= buf.Length && at + maxLen <= buf.Length
    modifies buf
    ensures p == at + |done| && 1 <= |done| <= 256
    ensures Patched(old(buf[..]), buf[..], at, done)
    ensures [|done| - 1 as byte] + done[1..] == CscBytes(c, maxLen)
  {
    hide CscBytes, Outlook, Attempt;
    ghost var orig := buf[..];
    ghost var first := buf[at];
    p, done := at + 1, [first];
    OutlookStep(done, c, 0, maxLen);
    p, done := FillField(buf, at, p, maxLen, c, 0, orig, done);
    OutlookStep(done, c, 1, maxLen);
    p, done := FillField(buf, at, p, maxLen, c, 1, orig, done);
    OutlookStep(done, c, 2, maxLen);
    p, done := FillField(buf, at, p, maxLen, c, 2, orig, done);
    OutlookStep(done, c, 3, maxLen);
    p, done := FillField(buf, at, p, maxLen, c, 3, orig, done);
    OutlookStep(done, c, 4, maxLen);
    p, done := FillField(buf, at, p, maxLen, c, 4, orig, done);
    OutlookEnd(first, done, c, maxLen);
  }

  method FillCsc(buf: array<byte>, at: nat, maxLen: int, c: Csc) returns (n: nat)
    requires at + 1 <= buf.Length && at + maxLen <= buf.Length
    modifies buf
    ensures Patched(old(buf[..]), buf[..], at, CscBytes(c, maxLen))
    ensures n == |CscBytes(c, maxLen)|
  {
    hide Patched, CscBytes;
    ghost var orig := buf[..];
    var p, done := FillFields(buf, at, maxLen, c);
    n := p - at;
    PatchOctet(buf, at, 0, n - 1, orig, done);
    assert done[0 := (n - 1) as byte] == [(n - 1) as byte] + done[1..];
  }

  // ---- the parser of the BAP library ----

  datatype Outcome = Accepted | Rejected | Overrun  // Overrun: a read beyond the end of the buffer
  datatype CscResult = CscResult(outcome: Outcome, csc: Csc)
  datatype FieldRead = Unknown | Short | Field(l: Ltv, size: nat)

  /** The value of an element of type `typ` at the front of `v`. */
  function ReadField(typ: byte, v: seq<byte>): (r: FieldRead)
    ensures r.Field? ==> r.size == |Encode(r.l)| - 2 && r.size <= |v|
  {
    match typ
    case 1 => if |v| < 1 then Short else Field(Freq(v[0]), 1)
    case 2 => if |v| < 1 then Short else Field(Dur(v[0]), 1)
    case 3 => if |v| < 4 then Short else Field(Alloc(FromLe(v, 4)), 4)
    case 4 => if |v| < 2 then Short else Field(Octets(FromLe(v, 2)), 2)
    case 5 => if |v| < 1 then Short else Field(Blocks(v[0]), 1)
    case _ => Unknown
  }

  lemma ReadEncoded(l: Ltv, rest: seq<byte>)
    ensures ReadField(Encode(l)[1], (Encode(l) + rest)[2..]) == Field(l, |Encode(l)| - 2)
    ensures (Encode(l) + rest)[|Encode(l)|..] == rest
  {
    hide Le, FromLe;
    DropPrefix(Encode(l), rest);
    var v := (Encode(l) + rest)[2..];
    assert v == Encode(l)[2..] + rest;
    match l
    case Alloc(m) =>
      LeRoundTrip(m, 4, rest);
      assert v == Le(m, 4) + rest;
    case Octets(n) =>
      LeRoundTrip(n, 2, rest);
      assert v == Le(n, 2) + rest;
    case _ =>
  }

  /** `left` is the declared length still to be used up; the cursor moves by the size of the value, not by the
      element's length octet. */
  function ParseCsc(s: seq<byte>, left: int, c: Csc): CscResult
    decreases |s|
  {
    if left <= 0 then CscResult(if left == 0 then Accepted else Rejected, c)
    else if |s| < 2 then CscResult(Overrun, c)
    else
      match ReadField(s[1], s[2..])
      case Unknown => CscResult(Rejected, c)
      case Short => CscResult(Overrun, c)
      case Field(l, n) =>
        if BadIndex(l) then CscResult(Rejected, Apply(c, l))
        else ParseCsc(s[2 + n..], left - (s[0] as int + 1), Apply(c, l))
  }

  /** One turn of the loop, at the cursor `p`. */
  lemma ParseTurn(data: seq<byte>, p: nat, left: int, c: Csc)
    requires p <= |data| && left > 0
    ensures ParseCsc(data[p..], left, c)
         == if p + 2 > |data| then CscResult(Overrun, c)
            else
              match ReadField(data[p + 1], data[p + 2..])
              case Unknown => CscResult(Rejected, c)
              case Short => CscResult(Overrun, c)
              case Field(l, n) =>
                if BadIndex(l) then CscResult(Rejected, Apply(c, l))
                else ParseCsc(data[p + 2 + n..], left - (data[p] as int + 1), Apply(c, l))
  {
    hide ReadField, BadIndex, Apply, ParseCsc;
    var s := data[p..];
    TurnOf(s, left, c);
    if p + 2 <= |data| {
      Dropped(data, p, 2);
      var f := ReadField(data[p + 1], data[p + 2..]);
      if f.Field? {
        Dropped(data, p, 2 + f.size);
      }
    }
  }

  lemma Dropped(data: seq<byte>, p: nat, n: nat)
    requires p + n <= |data|
    ensures data[p..][n..] == data[p + n..]
  {
  }

  /** One turn of the parser. */
  lemma TurnOf(s: seq<byte>, left: int, c: Csc)
    requires left > 0
    ensures ParseCsc(s, left, c)
         == if |s| < 2 then CscResult(Overrun, c)
            else
              match ReadField(s[1], s[2..])
              case Unknown => CscResult(Rejected, c)
              case Short => CscResult(Overrun, c)
              case Field(l, n) =>
                if BadIndex(l) then CscResult(Rejected, Apply(c, l))
                else ParseCsc(s[2 + n..], left - (s[0] as int + 1), Apply(c, l))
  {
    hide ReadField, BadIndex, Apply;
  }

  method ParseCscStream(data: seq<byte>, start: nat, len: int, c: Csc) returns (r: CscResult)
    requires start <= |data|
    ensures r == ParseCsc(data[start..], len, c)
  {
    hide Apply, ReadField, BadIndex, ParseCsc;
    var p, left, csc := start, len, c;
    while left > 0
      invariant start <= p <= |data|
      invariant ParseCsc(data[p..], left, csc) == ParseCsc(data[start..], len, c)
      decreases |data| - p
    {
      ParseTurn(data, p, left, csc);
      if p + 2 > |data| {
        return CscResult(Overrun, csc);
      }
      var length, typ := data[p], data[p + 1];
      match ReadField(typ, data[p + 2..]) {
        case Unknown => return CscResult(Rejected, csc);
        case Short => return CscResult(Overrun, csc);
        case Field(l, size) =>
          csc := Apply(csc, l);
          if BadIndex(l) {
            return CscResult(Rejected, csc);
          }
          p := p + 2 + size;
          left := left - (length as int + 1);
      }
    }
    ParseDone(data[p..], left, csc);
    r := CscResult(if left == 0 then Accepted else Rejected, csc);
  }

  lemma ParseDone(s: seq<byte>, left: int, c: Csc)
    requires left <= 0
    ensures ParseCsc(s, left, c) == CscResult(if left == 0 then Accepted else Rejected, c)
  {
  }

  lemma ParseEnd(rest: seq<byte>, c: Csc)
    ensures ParseCsc(EncodeAll([]) + rest, 0, c) == CscResult(Accepted, c)
  {
  }

  lemma ParseOne(l: Ltv, rest: seq<byte>, left: int, c: Csc)
    requires left > 0
    ensures ParseCsc(Encode(l) + rest, left, c)
         == if BadIndex(l) then CscResult(Rejected, Apply(c, l)) else ParseCsc(rest, left - |Encode(l)|, Apply(c, l))
  {
    ReadEncoded(l, rest);
    assert (Encode(l) + rest)[0] == |Encode(l)| - 1;
  }

  /** Each element overrides its field, up to the first one whose index means nothing. */
  function Meaning(c: Csc, ls: seq<Ltv>): (r: CscResult)
    ensures r.outcome == if AllMeaningful(ls) then Accepted else Rejected
    ensures AllMeaningful(ls) ==> r.csc == ApplyAll(c, ls)
    decreases |ls|
  {
    if ls == [] then CscResult(Accepted, c)
    else if BadIndex(ls[0]) then CscResult(Rejected, Apply(c, ls[0]))
    else Meaning(Apply(c, ls[0]), ls[1..])
  }

  /** On any list of elements, in any order and with repetitions, the BAP parser computes the meaning of the list:
      it accepts exactly the lists whose indices all mean something. */
  lemma {:induction false} BapParsesLtvs(ls: seq<Ltv>, rest: seq<byte>, c: Csc)
    ensures ParseCsc(EncodeAll(ls) + rest, |EncodeAll(ls)|, c) == Meaning(c, ls)
    decreases |ls|
  {
    hide Encode, BadIndex, Apply, ParseCsc;
    if ls == [] {
      ParseEnd(rest, c);
    } else {
      var l, tail := ls[0], EncodeAll(ls[1..]) + rest;
      assert EncodeAll(ls) + rest == Encode(l) + tail;
      ParseOne(l, tail, |EncodeAll(ls)|, c);
      BapParsesLtvs(ls[1..], rest, Apply(c, l));
    }
  }

  // ---- the parser of the ASCS library ----

  /** The length octet each element type must carry. */
  const TYPE_LENGTH: seq<byte> := [0, 2, 2, 5, 3, 2]

  datatype LoopResult = LoopOverrun | LoopDone(csc: Csc, used: nat, sts: Status)

  /** `left` is an octet and wraps; `used` counts the octets the cursor has moved over. */
  function CscLoop(s: seq<byte>, left: byte, c: Csc, used: nat, sts: Status): LoopResult
    decreases |s|
  {
    if left == 0 then LoopDone(c, used, sts)
    else if |s| < 2 then LoopOverrun
    else
      var typeLen, typ := s[0], s[1];
      if typeLen > left then LoopDone(c, used + 2, sts.(code := INVALID_LENGTH))
      else if typ == |TYPE_LENGTH| then LoopOverrun  // the length table is read one entry past its end
      else if typ == 0 || typ > |TYPE_LENGTH| || typeLen != TYPE_LENGTH[typ] then
        LoopDone(c, used + 2, sts.(code := INVALID_CONFIGURATION, reason := REASON_CODEC_SPECIFIC_CONFIGURATION))
      else
        match ReadField(typ, s[2..])
        case Unknown => LoopOverrun
        case Short => LoopOverrun
        case Field(l, _) =>
          CscLoop(s[typeLen + 1..], (left as int - (typeLen as int + 1)) % 256, Apply(c, l),
                  used + typeLen as int + 1, sts)
  }

  lemma {:induction false} CscLoopUsed(s: seq<byte>, left: byte, c: Csc, used: nat, sts: Status)
    ensures var r := CscLoop(s, left, c, used, sts); r.LoopDone? ==> used <= r.used <= used + |s|
    decreases |s|
  {
    if left != 0 && |s| >= 2 && s[0] <= left && 1 <= s[1] < |TYPE_LENGTH| && s[0] == TYPE_LENGTH[s[1]] {
      var f := ReadField(s[1], s[2..]);
      if f.Field? {
        CscLoopUsed(s[s[0] + 1..], (left as int - (s[0] as int + 1)) % 256, Apply(c, f.l), used + s[0] as int + 1, sts);
      }
    }
  }

  lemma LoopEnd(rest: seq<byte>, c: Csc, used: nat, sts: Status)
    ensures CscLoop(EncodeAll([]) + rest, 0, c, used, sts) == LoopDone(c, used, sts)
  {
  }

  lemma LoopOne(l: Ltv, rest: seq<byte>, left: byte, c: Csc, used: nat, sts: Status)
    requires left >= |Encode(l)|
    ensures CscLoop(Encode(l) + rest, left, c, used, sts)
         == CscLoop(rest, left - |Encode(l)|, Apply(c, l), used + |Encode(l)|, sts)
  {
    ReadEncoded(l, rest);
    assert (Encode(l) + rest)[0] == |Encode(l)| - 1;
    assert (Encode(l) + rest)[1] == Encode(l)[1];
  }

  /** On any list of elements that a length octet can announce, the ASCS parser accepts and each element overrides
      its field. */
  lemma {:induction false} AscsParsesLtvs(ls: seq<Ltv>, rest: seq<byte>, c: Csc, used: nat, sts: Status)
    requires |EncodeAll(ls)| <= 255
    ensures CscLoop(EncodeAll(ls) + rest, |EncodeAll(ls)|, c, used, sts)
         == LoopDone(ApplyAll(c, ls), used + |EncodeAll(ls)|, sts)
    decreases |ls|
  {
    hide Encode, Apply, CscLoop;
    if ls == [] {
      LoopEnd(rest, c, used, sts);
    } else {
      var l, tail := ls[0], EncodeAll(ls[1..]) + rest;
      assert EncodeAll(ls) + rest == Encode(l) + tail;
      LoopOne(l, tail, |EncodeAll(ls)|, c, used, sts);
      AscsParsesLtvs(ls[1..], rest, Apply(c, l), used + |Encode(l)|, sts);
    }
  }

  /** The two parsers agree on every list of elements whose indices mean something, whatever the order or the
      repetition of types; on any other list the BAP parser rejects what the ASCS parser accepts. */
  lemma ParsersAgree(ls: seq<Ltv>, rest: seq<byte>, c: Csc, sts: Status)
    requires |EncodeAll(ls)| <= 255
    ensures var bap := ParseCsc(EncodeAll(ls) + rest, |EncodeAll(ls)|, c);
      var ascs := CscLoop(EncodeAll(ls) + rest, |EncodeAll(ls)|, c, 0, sts);
      && ascs.LoopDone? && ascs.sts == sts
      && (bap.outcome == Accepted <==> AllMeaningful(ls))
      && (bap.outcome == Accepted ==> bap.csc == ascs.csc)
  {
    BapParsesLtvs(ls, rest, c);
    AscsParsesLtvs(ls, rest, c, 0, sts);
  }

  /** Such a list: a frequency of code zero, or of one beyond the table, is rejected by one and stored as zero by the
      other. */
  lemma ParsersDisagree(index: byte, rest: seq<byte>, c: Csc, sts: Status)
    requires index == 0 || FreqFromIndex(index) == 0
    ensures ParseCsc([2, 1, index] + rest, 3, c).outcome == Rejected
    ensures CscLoop([2, 1, index] + rest, 3, c, 0, sts) == LoopDone(c.(freq := 0), 3, sts)
  {
    var ls := [Freq(index)];
    assert EncodeAll(ls) == [2, 1, index];
    assert !AllMeaningful(ls);
    BapParsesLtvs(ls, rest, c);
    AscsParsesLtvs(ls, rest, c, 0, sts);
  }

  /** What a list of elements followed by a malformed one does: the length of an element's type, or more octets than
      are left. */
  predicate Malformed(len: byte, typ: byte, left: byte) {
    || len > left
    || (typ in {1, 2, 5} && len != 2) || (typ == 3 && len != 5) || (typ == 4 && len != 3)
    || typ == 0 || typ > 6
  }

  lemma LoopRejects(len: byte, typ: byte, left: byte, rest: seq<byte>, c: Csc, used: nat, sts: Status)
    requires left > 0 && Malformed(len, typ, left)
    ensures CscLoop([len, typ] + rest, left, c, used, sts)
         == LoopDone(c, used + 2, if len > left then sts.(code := 2) else sts.(code := 9, reason := 2))
  {
    hide ReadField, Apply;
    var s := [len, typ] + rest;
    assert s[0] == len && s[1] == typ;
  }

  lemma ReadsAnyLength(l: Ltv, len: byte, rest: seq<byte>, left: int, c: Csc)
    requires left > 0
    ensures ParseCsc(Encode(l)[0 := len] + rest, left, c)
         == if BadIndex(l) then CscResult(Rejected, Apply(c, l))
            else ParseCsc(rest, left - (len as int + 1), Apply(c, l))
  {
    ReadEncoded(l, rest);
    var s, t := Encode(l) + rest, Encode(l)[0 := len] + rest;
    assert t[0] == len && t[1] == s[1] && t[2..] == s[2..];
  }

  /** The BAP parser takes an element whatever its length octet says: its cursor moves by the size of the value, and
      only what is left by the length octet. An element longer than what is left is taken, and then rejected. */
  lemma {:induction false} BapTrustsTypes(ls: seq<Ltv>, l: Ltv, len: byte, rest: seq<byte>, left: nat, c: Csc)
    requires AllMeaningful(ls) && !BadIndex(l) && left > 0
    ensures ParseCsc(EncodeAll(ls) + (Encode(l)[0 := len] + rest), |EncodeAll(ls)| + left, c)
         == if len as int + 1 > left then CscResult(Rejected, Apply(ApplyAll(c, ls), l))
            else ParseCsc(rest, left - (len as int + 1), Apply(ApplyAll(c, ls), l))
    decreases |ls|
  {
    hide Encode, BadIndex, Apply, ParseCsc;
    if ls == [] {
      assert EncodeAll(ls) + (Encode(l)[0 := len] + rest) == Encode(l)[0 := len] + rest;
      ReadsAnyLength(l, len, rest, left, c);
      if len as int + 1 > left {
        ParseDone(rest, left - (len as int + 1), Apply(c, l));
      }
    } else {
      var tail := EncodeAll(ls[1..]) + (Encode(l)[0 := len] + rest);
      assert EncodeAll(ls) + (Encode(l)[0 := len] + rest) == Encode(ls[0]) + tail;
      ParseOne(ls[0], tail, |EncodeAll(ls)| + left, c);
      BapTrustsTypes(ls[1..], l, len, rest, left, Apply(c, ls[0]));
    }
  }

  lemma BapRejects(len: byte, typ: byte, left: byte, rest: seq<byte>, c: Csc)
    requires left > 0 && (typ == 0 || typ > 5)
    ensures ParseCsc([len, typ] + rest, left, c) == CscResult(Rejected, c)
  {
    var s := [len, typ] + rest;
    assert s[0] == len && s[1] == typ;
  }

  /** The ASCS parser takes over what stands before a malformed element and stops behind its type: with "invalid length"
      (2) if it is longer than what is left, otherwise with "invalid configuration" (9) of the codec-specific
      configuration (2). */
  lemma {:induction false} AscsRejectsElement(ls: seq<Ltv>, len: byte, typ: byte, left: byte, rest: seq<byte>, c: Csc,
                                              used: nat, sts: Status)
    requires |EncodeAll(ls)| + left <= 255 && left > 0 && Malformed(len, typ, left)
    ensures CscLoop(EncodeAll(ls) + ([len, typ] + rest), |EncodeAll(ls)| + left, c, used, sts)
         == LoopDone(ApplyAll(c, ls), used + |EncodeAll(ls)| + 2,
                     if len > left then sts.(code := 2) else sts.(code := 9, reason := 2))
    decreases |ls|
  {
    hide Encode, Apply, CscLoop, Malformed;
    LoopRejects(len, typ, left, rest, c, used, sts);
    if ls == [] {
      assert EncodeAll(ls) + ([len, typ] + rest) == [len, typ] + rest;
    } else {
      var l, tail := ls[0], EncodeAll(ls[1..]) + ([len, typ] + rest);
      assert EncodeAll(ls) + ([len, typ] + rest) == Encode(l) + tail;
      LoopOne(l, tail, |EncodeAll(ls)| + left, c, used, sts);
      AscsRejectsElement(ls[1..], len, typ, left, rest, Apply(c, l), used + |Encode(l)|, sts);
    }
  }

  /** The BAP parser rejects at the first type it does not know, and has taken over what stands before it, up to the
      first element without a meaning. */
  lemma {:induction false} BapRejectsElement(ls: seq<Ltv>, len: byte, typ: byte, left: byte, rest: seq<byte>, c: Csc)
    requires left > 0 && (typ == 0 || typ > 5)
    ensures ParseCsc(EncodeAll(ls) + ([len, typ] + rest), |EncodeAll(ls)| + left, c)
         == CscResult(Rejected, Meaning(c, ls).csc)
    decreases |ls|
  {
    hide Encode, BadIndex, Apply, ParseCsc;
    BapRejects(len, typ, left, rest, c);
    if ls == [] {
      assert EncodeAll(ls) + ([len, typ] + rest) == [len, typ] + rest;
    } else {
      var l, tail := ls[0], EncodeAll(ls[1..]) + ([len, typ] + rest);
      assert EncodeAll(ls) + ([len, typ] + rest) == Encode(l) + tail;
      ParseOne(l, tail, |EncodeAll(ls)| + left, c);
      BapRejectsElement(ls[1..], len, typ, left, rest, Apply(c, l));
    }
  }

  // ---- encode, then parse ----

  /** What survives when the fields from the `k`-th on are written into `room` octets: a field that does not fit is
      lost, and takes no room. */
  function Truncate(c: Csc, room: int, k: nat): (t: Csc)
    requires k <= FIELDS
    ensures forall j | 0 <= j < k :: Get(t, j) == Get(c, j)
    ensures forall j | 0 <= j < FIELDS :: Get(t, j) == Get(c, j) || Get(t, j) == 0
    decreases FIELDS - k
  {
    if k == FIELDS then c
    else if Get(c, k) == 0 then Truncate(c, room, k + 1)
    else if Size(k) <= room then Truncate(c, room - Size(k), k + 1)
    else Truncate(Clear(c, k), room, k + 1)
  }

  function Truncated(c: Csc, maxLen: int): Csc {
    Truncate(c, maxLen - 1, 0)
  }

  lemma {:induction false} NothingLost(c: Csc, room: int, k: nat)
    requires k <= FIELDS && room >= [19, 16, 13, 7, 3, 0][k]
    ensures Truncate(c, room, k) == c
    decreases FIELDS - k
  {
    if k < FIELDS {
      NothingLost(c, if Get(c, k) == 0 then room else room - Size(k), k + 1);
    }
  }

  lemma {:induction false} FieldsDependOn(c: Csc, d: Csc, k: nat)
    requires k <= FIELDS && forall j | k <= j < FIELDS :: Get(c, j) == Get(d, j)
    ensures Fields(c, k) == Fields(d, k)
    decreases FIELDS - k
  {
    if k < FIELDS {
      FieldsDependOn(c, d, k + 1);
    }
  }

  lemma {:induction false} GreedyIsTruncate(c: Csc, room: int, k: nat)
    requires k <= FIELDS
    ensures Greedy(Fields(c, k), room) == Fields(Truncate(c, room, k), k)
    decreases FIELDS - k
  {
    if k < FIELDS {
      var later := Fields(c, k + 1);
      assert ([Element(c, k)] + later)[1..] == later;
      if Get(c, k) == 0 {
        GreedyIsTruncate(c, room, k + 1);
        assert Get(Truncate(c, room, k + 1), k) == 0;
      } else if Size(k) <= room {
        GreedyIsTruncate(c, room - Size(k), k + 1);
        assert Get(Truncate(c, room - Size(k), k + 1), k) == Get(c, k);
      } else {
        FieldsDependOn(c, Clear(c, k), k + 1);
        GreedyIsTruncate(Clear(c, k), room, k + 1);
        assert Get(Truncate(Clear(c, k), room, k + 1), k) == 0;
      }
    }
  }

  /** The fields that `over` carries win over those of `under`. */
  function Override(under: Csc, over: Csc): Csc {
    Csc(if over.freq != 0 then over.freq else under.freq,
        if over.dur != 0 then over.dur else under.dur,
        if over.alloc != 0 then over.alloc else under.alloc,
        if over.octets != 0 then over.octets else under.octets,
        if over.blocks != 0 then over.blocks else under.blocks)
  }

  /** The later fields of `c` override a configuration that already holds the earlier ones. */
  lemma {:induction false} ApplyFields(under: Csc, c: Csc, k: nat)
    requires k <= FIELDS && InTables(c)
    ensures var r := ApplyAll(under, Fields(c, k));
      forall j | 0 <= j < FIELDS :: Get(r, j) == if j >= k && Get(c, j) != 0 then Get(c, j) else Get(under, j)
    decreases FIELDS - k
  {
    if k < FIELDS {
      IndexRoundTrip(c);
      var e, later := Element(c, k), Fields(c, k + 1);
      assert ([e] + later)[1..] == later;
      if Get(c, k) != 0 {
        ApplyFields(Apply(under, e), c, k + 1);
      } else {
        ApplyFields(under, c, k + 1);
      }
    }
  }

  lemma OverrideFields(under: Csc, c: Csc)
    requires InTables(c)
    ensures ApplyAll(under, Fields(c, 0)) == Override(under, c)
  {
    ApplyFields(under, c, 0);
    var r := ApplyAll(under, Fields(c, 0));
    assert Get(r, 0) == r.freq && Get(r, 1) == r.dur && Get(r, 2) == r.alloc;
    assert Get(r, 3) == r.octets && Get(r, 4) == r.blocks;
  }

  lemma MeaningfulFields(c: Csc)
    ensures AllMeaningful(Fields(c, 0)) <==> InTables(c)
  {
    IndexRoundTrip(c);
    LaterFieldsMeaningful(c, 2);
    assert 0 !in SAMPLING_FREQUENCIES;
    var l1 := Fields(c, 1);
    assert c.dur != 0 ==> l1[1..] == Fields(c, 2);
    assert c.freq != 0 ==> Fields(c, 0)[1..] == l1;
  }

  lemma {:induction false} LaterFieldsMeaningful(c: Csc, k: nat)
    requires 2 <= k <= FIELDS
    ensures AllMeaningful(Fields(c, k))
    decreases FIELDS - k
  {
    if k < FIELDS {
      LaterFieldsMeaningful(c, k + 1);
      assert Get(c, k) != 0 ==> Fields(c, k)[1..] == Fields(c, k + 1);
    }
  }

  /** For every buffer of at least one octet: the encoder stays inside it, its length octet is right, and the parser
      accepts the elements exactly when the numbers that fitted are in the tables; it then recovers the input with
      only the fields that did not fit zeroed. Twenty octets lose nothing. */
  lemma FillThenParse(c: Csc, maxLen: int, rest: seq<byte>)
    requires maxLen >= 1
    ensures var s := CscBytes(c, maxLen); var r := ParseCsc(s[1..] + rest, s[0], NO_CSC);
      && |s| <= maxLen
      && s[0] == |s| - 1
      && (r.outcome == Accepted <==> InTables(Truncated(c, maxLen)))
      && (r.outcome == Accepted ==> r.csc == Truncated(c, maxLen))
    ensures maxLen >= 20 ==> Truncated(c, maxLen) == c
  {
    ParseOver(c, maxLen, rest, NO_CSC);
    if maxLen >= 20 {
      NothingLost(c, maxLen - 1, 0);
    }
  }

  /** Parsing on top of a configuration, as a BIS does with the one of its subgroup, overrides it field by field. */
  lemma ParseOver(c: Csc, maxLen: int, rest: seq<byte>, under: Csc)
    ensures var s := CscBytes(c, maxLen); var r := ParseCsc(s[1..] + rest, s[0], under);
      && (r.outcome == Accepted <==> InTables(Truncated(c, maxLen)))
      && (r.outcome == Accepted ==> r.csc == Override(under, Truncated(c, maxLen)))
  {
    var t := Truncated(c, maxLen);
    var s := CscBytes(c, maxLen);
    GreedyIsTruncate(c, maxLen - 1, 0);
    assert s[1..] == EncodeAll(Fields(t, 0));
    BapParsesLtvs(Fields(t, 0), rest, under);
    MeaningfulFields(t);
    if InTables(t) {
      OverrideFields(under, t);
    }
  }
}
