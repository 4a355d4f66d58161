/** Metadata elements: the two audio contexts, and what the builders put behind them. */
module Metadata {
  import opened Bytes

  const PREFERRED_CONTEXTS: byte := 1
  const STREAMING_CONTEXTS: byte := 2
  const PROGRAM_INFO: byte := 3
  const CCID_LIST: byte := 5
  const VENDOR_SPECIFIC: byte := 0xFF

  /** The contexts a parser stores; zero is absent. */
  datatype Contexts = Contexts(preferred: uint16, streaming: uint16)

  const NO_CONTEXTS := Contexts(0, 0)

  /** What a builder is given; an empty sequence is absent. */
  datatype Meta = Meta(contexts: Contexts, programInfo: seq<byte>, upperLayer: seq<byte>, vendor: seq<byte>)

  /** Only the twelve assigned context bits are set. */
  predicate Valid(context: uint16) {
    context / 0x1000 == 0
  }

  predicate ValidContexts(c: Contexts) {
    Valid(c.preferred) && Valid(c.streaming)
  }

  /** Contexts that are present win over the stored ones. */
  function Merge(stored: Contexts, c: Contexts): Contexts {
    Contexts(if c.preferred != 0 then c.preferred else stored.preferred,
             if c.streaming != 0 then c.streaming else stored.streaming)
  }

  // ---- the builders ----

  function ContextLtv(typ: byte, context: uint16): (s: seq<byte>)
    ensures |s| == 4 && s[0] == 3 && s[1] == typ
  {
    LtvBytes(typ, Le(context, 2))
  }

  function FitIf(present: bool, done: seq<byte>, chunk: seq<byte>, maxLen: int): (s: seq<byte>)
    ensures done <= s
  {
    if present then Fit(done, chunk, maxLen) else done
  }

  /** `head`, whose last octet is the metadata length, then the elements of the contexts that fit. */
  function WithContexts(head: seq<byte>, c: Contexts, maxLen: int): (s: seq<byte>)
    ensures head <= s
  {
    var s := FitIf(c.preferred != 0, head, ContextLtv(PREFERRED_CONTEXTS, c.preferred), maxLen);
    FitIf(c.streaming != 0, s, ContextLtv(STREAMING_CONTEXTS, c.streaming), maxLen)
  }

  /** The metadata of a BASE subgroup: the length octet is the number of octets behind it, in eight bits. */
  function MetadataBytes(m: Meta, maxLen: int): (s: seq<byte>)
    ensures s != []
  {
    var s := WithContexts([0], m.contexts, maxLen);
    var s := FitIf(m.programInfo != [], s, LtvBytes(PROGRAM_INFO, m.programInfo), maxLen);
    var s := FitIf(m.upperLayer != [], s, m.upperLayer, maxLen);
    [(|s| - 1) % 256] + s[1..]
  }

  /** One entry of an Enable or Update Metadata command. */
  function MetadataCommand(id: byte, m: Meta, maxLen: int): (s: seq<byte>)
    ensures |s| >= 2 && s[0] == id
  {
    var s := WithContexts([id, 0], m.contexts, maxLen);
    var s := FitIf(m.programInfo != [], s, LtvBytes(PROGRAM_INFO, m.programInfo), maxLen);
    var s := FitIf(m.vendor != [], s, LtvBytes(VENDOR_SPECIFIC, m.vendor), maxLen);
    [id, (|s| - 2) % 256] + s[2..]
  }

  method FillContexts(buf: array<byte>, at: nat, p: nat, maxLen: int, c: Contexts,
                      ghost orig: seq<byte>, ghost done: seq<byte>)
    returns (q: nat, ghost done': seq<byte>)
    requires at + |done| == p <= buf.Length && at + maxLen <= buf.Length
    requires Patched(orig, buf[..], at, done)
    modifies buf
    ensures at + |done'| == q <= buf.Length
    ensures done' == WithContexts(done, c, maxLen)
    ensures Patched(orig, buf[..], at, done')
  {
    hide Patched;
    q, done' := FillLtv(buf, at, p, maxLen, c.preferred != 0, PREFERRED_CONTEXTS, Le(c.preferred, 2), orig, done);
    q, done' := FillLtv(buf, at, q, maxLen, c.streaming != 0, STREAMING_CONTEXTS, Le(c.streaming, 2), orig, done');
  }

  /** Metadata of a BASE subgroup, written in place; the length octet is patched last. */
  method FillMetadata(buf: array<byte>, at: nat, maxLen: int, m: Meta) returns (n: nat)
    requires |m.programInfo| <= 255
    requires at + 1 <= buf.Length && at + maxLen <= buf.Length
    modifies buf
    ensures Patched(old(buf[..]), buf[..], at, MetadataBytes(m, maxLen))
    ensures n == |MetadataBytes(m, maxLen)|
  {
    hide Patched, WithContexts, LtvBytes;
    ghost var orig := buf[..];
    Put(buf, at, [0]);
    var p, done := FillContexts(buf, at, at + 1, maxLen, m.contexts, orig, [0]);
    p, done := FillLtv(buf, at, p, maxLen, m.programInfo != [], PROGRAM_INFO, m.programInfo, orig, done);
    if m.upperLayer != [] && maxLen - (p - at) >= |m.upperLayer| {
      p, done := Append(buf, at, p, m.upperLayer, orig, done);
    }
    var len: byte := (p - at - 1) % 256;
    PatchOctet(buf, at, 0, len, orig, done);
    assert done[0 := len] == [len] + done[1..];
    n := p - at;
  }

  method BuildCpMetadataCmd(buf: array<byte>, at: nat, maxLen: int, id: byte, m: Meta) returns (n: nat)
    requires |m.programInfo| <= 255 && |m.vendor| <= 255
    requires at + 2 <= buf.Length && at + maxLen <= buf.Length
    modifies buf
    ensures Patched(old(buf[..]), buf[..], at, MetadataCommand(id, m, maxLen))
    ensures n == |MetadataCommand(id, m, maxLen)|
  {
    hide Patched, WithContexts, LtvBytes;
    ghost var orig := buf[..];
    Put(buf, at, [id, 0]);
    var p, done := FillContexts(buf, at, at + 2, maxLen, m.contexts, orig, [id, 0]);
    p, done := FillLtv(buf, at, p, maxLen, m.programInfo != [], PROGRAM_INFO, m.programInfo, orig, done);
    p, done := FillLtv(buf, at, p, maxLen, m.vendor != [], VENDOR_SPECIFIC, m.vendor, orig, done);
    var len: byte := (p - at - 2) % 256;
    PatchOctet(buf, at, 1, len, orig, done);
    assert done[1 := len] == [id, len] + done[2..];
    n := p - at;
  }

  // ---- the parser ----

  datatype Outcome = Parsed | RejectedMetadata | Overrun  // Overrun: a read beyond the end of the buffer
  datatype MetaResult = MetaResult(outcome: Outcome, contexts: Contexts)

  /** `left` may become negative; the loop then stops at its next length check. */
  function GetMetadata(s: seq<byte>, left: int, c: Contexts): MetaResult
    decreases |s|
  {
    if left == 0 then MetaResult(Parsed, c)
    else if |s| < 2 then MetaResult(Overrun, c)
    else if s[0] > left then MetaResult(Parsed, c)
    else if s[1] == PREFERRED_CONTEXTS || s[1] == STREAMING_CONTEXTS then
      if |s| < 4 then MetaResult(Overrun, c)
      else
        var v := FromLe(s[2..], 2);
        var c' := if s[1] == PREFERRED_CONTEXTS then c.(preferred := v) else c.(streaming := v);
        if Valid(v) then GetMetadata(s[4..], left - (s[0] as int + 1), c') else MetaResult(RejectedMetadata, c')
    else if s[1] == CCID_LIST then
      // the cursor moves by the element's whole length from behind its type
      if left == s[0] as int + 1 then MetaResult(Parsed, c)
      else if 2 + s[0] as int > |s| then MetaResult(Overrun, c)
      else GetMetadata(s[2 + s[0]..], left - (s[0] as int + 1), c)
    else MetaResult(RejectedMetadata, c)
  }

  method GetMetadataStream(data: seq<byte>, start: nat, len: nat, c0: Contexts) returns (r: MetaResult)
    requires start <= |data|
    ensures r == GetMetadata(data[start..], len, c0)
  {
    var p, left, c := start, len as int, c0;
    while left != 0
      invariant start <= p <= |data|
      invariant GetMetadata(data[p..], left, c) == GetMetadata(data[start..], len, c0)
      decreases |data| - p
    {
      if p + 2 > |data| {
        return MetaResult(Overrun, c);
      }
      var length, typ := data[p], data[p + 1];
      if length > left {
        break;
      }
      var size;
      if typ == PREFERRED_CONTEXTS || typ == STREAMING_CONTEXTS {
        if p + 4 > |data| {
          return MetaResult(Overrun, c);
        }
        assert data[p..][2..] == data[p + 2..];
        var v := FromLe(data[p + 2..], 2);
        c := if typ == PREFERRED_CONTEXTS then c.(preferred := v) else c.(streaming := v);
        if !Valid(v) {
          return MetaResult(RejectedMetadata, c);
        }
        size := 4;
      } else if typ == CCID_LIST {
        if left == length as int + 1 {
          break;
        }
        size := 2 + length;
        if p + size > |data| {
          return MetaResult(Overrun, c);
        }
      } else {
        return MetaResult(RejectedMetadata, c);
      }
      assert data[p..][size..] == data[p + size..];
      p := p + size;
      left := left - (length as int + 1);
    }
    r := MetaResult(Parsed, c);
  }

  // ---- build, then parse ----

  lemma ParseContext(typ: byte, v: uint16, rest: seq<byte>, left: int, c: Contexts)
    requires left >= 4 && Valid(v) && (typ == PREFERRED_CONTEXTS || typ == STREAMING_CONTEXTS)
    ensures GetMetadata(ContextLtv(typ, v) + rest, left, c)
         == GetMetadata(rest, left - 4, if typ == PREFERRED_CONTEXTS then c.(preferred := v) else c.(streaming := v))
  {
    var s := ContextLtv(typ, v) + rest;
    LeRoundTrip(v, 2, rest);
    assert s[2..] == Le(v, 2) + rest;
    assert s[4..] == rest;
  }

  /** Octets behind the contexts that the parser does not go beyond: nothing, or an element of another type. */
  predicate Stops(tail: seq<byte>) {
    tail == [] || (|tail| >= 2 && tail[1] !in {PREFERRED_CONTEXTS, STREAMING_CONTEXTS, CCID_LIST})
  }

  lemma ParseTail(tail: seq<byte>, rest: seq<byte>, c: Contexts)
    requires Stops(tail)
    ensures var r := GetMetadata(tail + rest, |tail|, c); r.outcome != Overrun && r.contexts == c
  {
    if tail != [] {
      assert (tail + rest)[1] == tail[1];
    }
  }

  function Present(typ: byte, v: uint16): (s: seq<byte>)
    ensures |s| == if v != 0 then 4 else 0
  {
    if v != 0 then ContextLtv(typ, v) else []
  }

  /** The contexts that fit into `room` octets; a context that does not fit is lost. */
  function Fitting(c: Contexts, room: int): (f: Contexts)
    ensures room >= 8 ==> f == c
    ensures ValidContexts(c) ==> ValidContexts(f)
  {
    var preferred := if room >= 4 then c.preferred else 0;
    Contexts(preferred, if room >= (if preferred != 0 then 8 else 4) then c.streaming else 0)
  }

  lemma ContextsAre(c: Contexts, maxLen: int)
    ensures var f := Fitting(c, maxLen);
      WithContexts([], c, maxLen) == Present(PREFERRED_CONTEXTS, f.preferred) + Present(STREAMING_CONTEXTS, f.streaming)
  {
    hide ContextLtv;
    var a, b := ContextLtv(PREFERRED_CONTEXTS, c.preferred), ContextLtv(STREAMING_CONTEXTS, c.streaming);
    assert [] + a == a && [] + b == b;
  }

  lemma ParsePresent(typ: byte, v: uint16, rest: seq<byte>, left: int, c: Contexts)
    requires left >= |Present(typ, v)| && Valid(v) && (typ == PREFERRED_CONTEXTS || typ == STREAMING_CONTEXTS)
    ensures var d := Contexts(if typ == PREFERRED_CONTEXTS then v else 0, if typ == STREAMING_CONTEXTS then v else 0);
      GetMetadata(Present(typ, v) + rest, left, c) == GetMetadata(rest, left - |Present(typ, v)|, Merge(c, d))
  {
    hide GetMetadata;
    if v != 0 {
      ParseContext(typ, v, rest, left, c);
    } else {
      assert [] + rest == rest;
    }
  }

  /** The parser takes the contexts that fitted over the stored ones and goes on with whatever follows them. */
  lemma ContextsParseOn(contexts: Contexts, maxLen: int, tail: seq<byte>, rest: seq<byte>, under: Contexts)
    requires ValidContexts(contexts)
    ensures var s := WithContexts([], contexts, maxLen) + tail;
      GetMetadata(s + rest, |s|, under) == GetMetadata(tail + rest, |tail|, Merge(under, Fitting(contexts, maxLen)))
  {
    hide GetMetadata, WithContexts, Present, Fitting;
    var c := Fitting(contexts, maxLen);
    var a, b := Present(PREFERRED_CONTEXTS, c.preferred), Present(STREAMING_CONTEXTS, c.streaming);
    var s := WithContexts([], contexts, maxLen) + tail;
    ContextsAre(contexts, maxLen);
    assert s + rest == a + (b + (tail + rest));
    ParsePresent(PREFERRED_CONTEXTS, c.preferred, b + (tail + rest), |s|, under);
    ParsePresent(STREAMING_CONTEXTS, c.streaming, tail + rest, |s| - |a|, Merge(under, Contexts(c.preferred, 0)));
  }

  lemma ContextsBehind(head: seq<byte>, c: Contexts, maxLen: int)
    ensures WithContexts(head, c, maxLen) == head + WithContexts([], c, maxLen - |head|)
  {
    assert head + [] == head;
    var a, b := ContextLtv(PREFERRED_CONTEXTS, c.preferred), ContextLtv(STREAMING_CONTEXTS, c.streaming);
    hide ContextLtv;
    var s := FitIf(c.preferred != 0, [], a, maxLen - |head|);
    assert FitIf(c.preferred != 0, head, a, maxLen) == head + s by {
      assert [] + a == a;
    }
    assert FitIf(c.streaming != 0, head + s, b, maxLen) == head + FitIf(c.streaming != 0, s, b, maxLen - |head|) by {
      assert (head + s) + b == head + (s + b);
    }
  }

  lemma Behind(head: seq<byte>, s: seq<byte>, tail: seq<byte>)
    ensures (head + s + tail)[|head|..] == s + tail
  {
  }

  /** What follows the contexts when up to two further chunks are tried. */
  function TailOf(at: nat, p: seq<byte>, v: seq<byte>, maxLen: int): (tail: seq<byte>)
    ensures |tail| <= |p| + |v|
  {
    var t := if |p| <= maxLen - at then p else [];
    t + if |v| <= maxLen - at - |t| then v else []
  }

  lemma TailFits(done: seq<byte>, p: seq<byte>, v: seq<byte>, hasP: bool, hasV: bool, maxLen: int)
    ensures FitIf(hasV, FitIf(hasP, done, p, maxLen), v, maxLen)
         == done + TailOf(|done|, if hasP then p else [], if hasV then v else [], maxLen)
  {
    var t1 := if hasP && |p| <= maxLen - |done| then p else [];
    var t2 := if hasV && |v| <= maxLen - |done| - |t1| then v else [];
    assert FitIf(hasP, done, p, maxLen) == done + t1;
    assert (done + t1) + t2 == done + (t1 + t2);
    assert TailOf(|done|, if hasP then p else [], if hasV then v else [], maxLen) == t1 + t2;
  }

  lemma TailStops(at: nat, p: seq<byte>, v: seq<byte>, maxLen: int)
    requires Stops(p) && Stops(v)
    ensures Stops(TailOf(at, p, v, maxLen))
  {
    assert [] + v == v && p + [] == p;
  }

  function ProgramInfo(m: Meta): (s: seq<byte>)
    ensures Stops(s)
  {
    if m.programInfo != [] then LtvBytes(PROGRAM_INFO, m.programInfo) else []
  }

  function VendorData(m: Meta): (s: seq<byte>)
    ensures Stops(s)
  {
    if m.vendor != [] then LtvBytes(VENDOR_SPECIFIC, m.vendor) else []
  }

  /** What the metadata of a subgroup holds behind its contexts: program info and opaque upper-layer data that
      fitted. */
  function MetadataTail(m: Meta, maxLen: int): seq<byte> {
    TailOf(1 + |WithContexts([], m.contexts, maxLen - 1)|, ProgramInfo(m), m.upperLayer, maxLen)
  }

  /** For every metadata whose length its octet can carry: the length octet is right, and parsing it is parsing what
      follows the contexts, over those contexts that fitted. */
  lemma MetadataParsesOn(m: Meta, maxLen: int, rest: seq<byte>, under: Contexts)
    requires ValidContexts(m.contexts) && |MetadataBytes(m, maxLen)| <= 256
    ensures var s, tail := MetadataBytes(m, maxLen), MetadataTail(m, maxLen);
      && s[0] == |s| - 1
      && GetMetadata(s[1..] + rest, s[0], under)
         == GetMetadata(tail + rest, |tail|, Merge(under, Fitting(m.contexts, maxLen - 1)))
  {
    hide WithContexts, GetMetadata, Fitting, TailOf, LtvBytes, Merge, ValidContexts;
    var w := WithContexts([], m.contexts, maxLen - 1);
    ContextsBehind([0], m.contexts, maxLen);
    TailFits([0] + w, LtvBytes(PROGRAM_INFO, m.programInfo), m.upperLayer, m.programInfo != [], m.upperLayer != [],
             maxLen);
    var tail := MetadataTail(m, maxLen);
    Behind([0], w, tail);
    ContextsParseOn(m.contexts, maxLen - 1, tail, rest, under);
  }

  /** The metadata of a subgroup gives those contexts back that fitted, if its upper-layer data do not begin with an
      element the parser goes into. */
  lemma MetadataRoundTrip(m: Meta, maxLen: int, rest: seq<byte>, under: Contexts)
    requires ValidContexts(m.contexts) && Stops(m.upperLayer) && |MetadataBytes(m, maxLen)| <= 256
    ensures var s := MetadataBytes(m, maxLen);
      var r := GetMetadata(s[1..] + rest, s[0], under);
      && s[0] == |s| - 1
      && r.outcome != Overrun && r.contexts == Merge(under, Fitting(m.contexts, maxLen - 1))
  {
    hide WithContexts, GetMetadata, Fitting, TailOf, Stops, MetadataBytes;
    MetadataParsesOn(m, maxLen, rest, under);
    var w := WithContexts([], m.contexts, maxLen - 1);
    TailStops(1 + |w|, ProgramInfo(m), m.upperLayer, maxLen);
    ParseTail(MetadataTail(m, maxLen), rest, Merge(under, Fitting(m.contexts, maxLen - 1)));
  }

  /** Upper-layer data that carry a streaming context of their own override it: the contexts come back exactly if it is
      the same. */
  lemma UpperLayerOverrides(m: Meta, maxLen: int, rest: seq<byte>, under: Contexts, v: uint16)
    requires ValidContexts(m.contexts) && m.programInfo == [] && Valid(v) && |MetadataBytes(m, maxLen)| <= 256
    requires m.upperLayer == ContextLtv(STREAMING_CONTEXTS, v) && maxLen >= 13
    ensures var s := MetadataBytes(m, maxLen);
      var r := GetMetadata(s[1..] + rest, s[0], under).contexts;
      && r == Merge(under, m.contexts).(streaming := v)
      && (r == Merge(under, m.contexts) <==> v == Merge(under, m.contexts).streaming)
  {
    hide WithContexts, GetMetadata, MetadataBytes, ContextLtv;
    MetadataParsesOn(m, maxLen, rest, under);
    ContextsAre(m.contexts, maxLen - 1);
    var upper := ContextLtv(STREAMING_CONTEXTS, v);
    assert [] + upper == upper;
    assert MetadataTail(m, maxLen) == upper;
    ParseContext(STREAMING_CONTEXTS, v, rest, 4, Merge(under, m.contexts));
    NothingToParse(rest, Merge(under, m.contexts).(streaming := v));
  }

  lemma NothingToParse(s: seq<byte>, c: Contexts)
    ensures GetMetadata(s, 0, c) == MetaResult(Parsed, c)
  {
  }

  lemma CommandRoundTrip(id: byte, m: Meta, maxLen: int, rest: seq<byte>, under: Contexts)
    requires ValidContexts(m.contexts) && |MetadataCommand(id, m, maxLen)| <= 257
    ensures var s := MetadataCommand(id, m, maxLen);
      var r := GetMetadata(s[2..] + rest, s[1], under);
      && s[1] == |s| - 2
      && r.outcome != Overrun && r.contexts == Merge(under, Fitting(m.contexts, maxLen - 2))
  {
    hide WithContexts, GetMetadata, Fitting, TailOf, Stops;
    var w := WithContexts([], m.contexts, maxLen - 2);
    ContextsBehind([id, 0], m.contexts, maxLen);
    TailFits([id, 0] + w, LtvBytes(PROGRAM_INFO, m.programInfo), LtvBytes(VENDOR_SPECIFIC, m.vendor),
             m.programInfo != [], m.vendor != [], maxLen);
    var tail := TailOf(2 + |w|, ProgramInfo(m), VendorData(m), maxLen);
    Behind([id, 0], w, tail);
    ContextsParseOn(m.contexts, maxLen - 2, tail, rest, under);
    TailStops(2 + |w|, ProgramInfo(m), VendorData(m), maxLen);
    ParseTail(tail, rest, Merge(under, Fitting(m.contexts, maxLen - 2)));
  }

  // ---- any metadata ----

  /** A context element as a peer may send it. */
  datatype ContextElement = PreferredContext(context: uint16) | StreamingContext(context: uint16)

  function ElementsBytes(es: seq<ContextElement>): (s: seq<byte>)
    ensures |s| == 4 * |es|
  {
    if es == [] then []
    else ContextLtv(if es[0].PreferredContext? then 1 else 2, es[0].context) + ElementsBytes(es[1..])
  }

  function TakenOne(c: Contexts, e: ContextElement): Contexts {
    if e.PreferredContext? then c.(preferred := e.context) else c.(streaming := e.context)
  }

  function Taken(c: Contexts, es: seq<ContextElement>): Contexts
    decreases |es|
  {
    if es == [] then c
    else Taken(TakenOne(c, es[0]), es[1..])
  }

  predicate AllValid(es: seq<ContextElement>) {
    forall i | 0 <= i < |es| :: es[i].context < 0x1000
  }

  /** Contexts in any order and number are taken one after the other, and parsing goes on behind them. */
  lemma {:induction false} ElementsParseOn(es: seq<ContextElement>, tail: seq<byte>, left: nat, c: Contexts)
    requires AllValid(es)
    ensures GetMetadata(ElementsBytes(es) + tail, 4 * |es| + left, c) == GetMetadata(tail, left, Taken(c, es))
    decreases |es|
  {
    hide GetMetadata, ContextLtv;
    if es == [] {
      assert ElementsBytes(es) + tail == tail;
    } else {
      var typ: byte, rest := if es[0].PreferredContext? then 1 else 2, ElementsBytes(es[1..]) + tail;
      assert ElementsBytes(es) + tail == ContextLtv(typ, es[0].context) + rest;
      ParseContext(typ, es[0].context, rest, 4 * |es| + left, c);
      ElementsParseOn(es[1..], tail, left, TakenOne(c, es[0]));
    }
  }

  /** What an element of length `len` and another type than a context's does at the end of the contexts. A length
      beyond what is left ends the parse, and an unknown type is rejected; the contexts taken so far are kept. A CCID
      list ends it if it is the last element. */
  lemma ElementsThenOther(es: seq<ContextElement>, len: byte, typ: byte, value: seq<byte>, left: nat, c: Contexts)
    requires AllValid(es) && left > 0 && typ != 1 && typ != 2
    ensures var r := GetMetadata(ElementsBytes(es) + ([len, typ] + value), 4 * |es| + left, c);
      && (len > left ==> r == MetaResult(Parsed, Taken(c, es)))
      && (len <= left && typ != 5 ==> r == MetaResult(RejectedMetadata, Taken(c, es)))
      && (typ == 5 && left == len as int + 1 ==> r == MetaResult(Parsed, Taken(c, es)))
  {
    ElementsParseOn(es, [len, typ] + value, left, c);
  }

  /** A context with an unassigned bit is stored all the same, and then the metadata is rejected. */
  lemma ElementsThenInvalid(es: seq<ContextElement>, e: ContextElement, rest: seq<byte>, left: nat, c: Contexts)
    requires AllValid(es) && left >= 4 && e.context >= 0x1000
    ensures GetMetadata(ElementsBytes(es) + (ContextLtv(if e.PreferredContext? then 1 else 2, e.context) + rest),
                        4 * |es| + left, c)
         == MetaResult(RejectedMetadata, Taken(Taken(c, es), [e]))
  {
    hide Le, FromLe;
    var typ: byte := if e.PreferredContext? then 1 else 2;
    var s := ContextLtv(typ, e.context) + rest;
    ElementsParseOn(es, s, left, c);
    LeRoundTrip(e.context, 2, rest);
    assert s[2..] == Le(e.context, 2) + rest;
    assert [e][1..] == [];
  }

  /** Behind a CCID list that is not the last element the first octet of the next element is skipped as well: parsing
      goes on with its type, as if this were a length. */
  lemma CcidSkipsTooFar(es: seq<ContextElement>, ccids: seq<byte>, next: byte, rest: seq<byte>, left: nat, c: Contexts)
    requires AllValid(es) && |ccids| < 255 && left > |ccids| + 2
    ensures GetMetadata(ElementsBytes(es) + ([|ccids| + 1, 5] + ccids + [next] + rest), 4 * |es| + left, c)
         == GetMetadata(rest, left - |ccids| - 2, Taken(c, es))
  {
    var s := [|ccids| + 1, 5] + ccids + [next] + rest;
    ElementsParseOn(es, s, left, c);
    assert s[3 + |ccids|..] == rest;
  }
}
