/** What the server answers to a command it does not grant, in the numbers of section 5 of ASCS v1.0, and what such a
    command leaves behind. */
module Refusals {
  import opened AscsEvents
  import opened AscsPayload
  import opened AscsRuns
  import opened AscsTypes
  import opened AseMachine
  import opened Bytes
  import opened CodecConfig
  import opened ControlPoint
  import opened CpRoundTrip
  import opened Metadata
  import opened Pacs
  import opened TwoPass

  // ---- the header ----

  /** An opcode above 10 is answered with "unsupported opcode" (1), and a number of ASEs other than 1 to 3 with "invalid
      ASE id" (3); nothing changes. A write of less than a header is read beyond its end. */
  lemma HeaderAnswered(ases: seq<Ase>, c: nat, data: seq<byte>, env: Env)
    requires Shape(ases) && c < CONNECTIONS
    ensures var f := CheckWrite(env, false, ases, c * ASES, data, [NO_STATUS, NO_STATUS, NO_STATUS]);
      && (|data| < 2 ==> f.verdict == Overran)
      && (|data| >= 2 && data[0] > 10 ==> f.verdict == Replied(1))
      && (|data| >= 2 && data[0] <= 10 && (data[1] == 0 || data[1] > 3) ==> f.verdict == Replied(3))
      && (|data| < 2 || data[0] > 10 || data[1] == 0 || data[1] > 3 ==> Step(ases, Written(c, data, env)) == ases)
  {
    hide Pass;
  }

  /** A command that names an ASE the connection does not have is answered with success all the same: only the status
      says "invalid ASE id" (3). Nothing behind it is looked at, and nothing changes. */
  lemma UnknownAseAnswered(ases: seq<Ase>, c: nat, op: byte, n: byte, id: byte, rest: seq<byte>, env: Env)
    requires Shape(ases) && c < CONNECTIONS && op <= 10 && 1 <= n <= 3
    requires forall i | c * ASES <= i < c * ASES + ASES :: ases[i].id != id && ases[i].id != 0
    ensures var data, z := [op, n, id] + rest, [NO_STATUS, NO_STATUS, NO_STATUS];
      && CheckWrite(env, false, ases, c * ASES, data, z) == PassOut(ases, z[0 := Status(id, 3, 0)], Replied(0))
      && Step(ases, Written(c, data, env)) == ases
  {
    hide Handle, Pass, Settle;
    var data, z, base := [op, n, id] + rest, [NO_STATUS, NO_STATUS, NO_STATUS], c * ASES;
    var sts := z[0 := Status(id, 3, 0)];
    assert data[2..] == [id] + rest;
    NotThere(ases, base, id, 0);
    NotThere(ases, base, 0, 0);
    PassEnds(env, false, op, ases, base, [id] + rest, z, 0);
    PassEnds(env, true, op, ases, base, [id] + rest, sts, 0);
    assert sts[0 := Status(id, 3, 0)] == sts;
    forall j | 0 <= j < |ases| ensures Settle(env, ases, base, sts, n, 0)[j] == ases[j] {
      SettlesAnswered(env, ases, base, sts, n, 0, j);
    }
    assert Settle(env, ases, base, sts, n, 0) == ases;
  }

  lemma {:induction false} NotThere(ases: seq<Ase>, base: nat, id: byte, i: nat)
    requires base + ASES <= |ases| && i <= ASES && forall j | base + i <= j < base + ASES :: ases[j].id != id
    ensures Find(ases, base, id, i) == None
    decreases ASES - i
  {
    if i < ASES {
      NotThere(ases, base, id, i + 1);
    }
  }

  // ---- one entry ----

  /** A request whose values fit the fields of its entry; they need not be in the server's ranges. */
  predicate WellBuilt(op: byte, r: Request) {
    && (op == CONFIG_CODEC ==> CodecInRange(Carried(r).cc))
    && (op == CONFIG_QOS ==> QosFits(r.qos))
    && (op == ENABLE || op == UPDATE_METADATA ==>
          ValidContexts(r.meta.contexts) && |MetadataCommand(r.id, r.meta, r.room)| <= 257)
  }

  /** The code a command is refused with: "invalid state transition" (4), "unsupported configuration" (7) or
      "unsupported metadata" (10), the last after the contexts are stored; zero if it is not. */
  function RefusedWith(env: Env, op: byte, a: Ase, r: Request): byte {
    if Next(a.typ, a.state, op) == Max then 4
    else if op == 1 then
      if VerifyCodecConfig(a.typ, if a.typ == Sink then env.sinkLocations else env.sourceLocations, Carried(r).cc)
      then 0 else 7
    else if op == 3 || op == 7 then
      if VerifyContext(Merge(a.contexts, Carried(r).meta.contexts).streaming) then 0 else 10
    else 0
  }

  /** The reason that goes with a code. */
  function ReasonOf(code: byte): byte {
    if code == 7 then 2 else 0
  }

  lemma CodecRefused(env: Env, apply: bool, a: Ase, r: Request, rest: seq<byte>, sts: Status)
    requires WellBuilt(CONFIG_CODEC, r) && sts.code == SUCCESS && sts.reason == 0
    requires RefusedWith(env, CONFIG_CODEC, a, r) == 7
    ensures var h := HandleCodec(env, apply, Next(a.typ, a.state, 1), a, EntryBytes(CONFIG_CODEC, r)[1..] + rest, sts);
      h.flow == Return(7) && h.sts == sts.(code := 7, reason := 2) && h.ase == a
  {
    hide ParseCodecConfig, CodecEntry, Next, VerifyCodecConfig, Truncated, InTables;
    CodecRoundTrip(r.id, r.cc, r.room, rest, sts);
  }

  lemma MetadataRefused(apply: bool, op: byte, a: Ase, r: Request, rest: seq<byte>, sts: Status, env: Env)
    requires WellBuilt(op, r) && sts.code == SUCCESS && sts.reason == 0 && (op == ENABLE || op == UPDATE_METADATA)
    requires RefusedWith(env, op, a, r) == 10
    ensures var h := HandleMetadata(apply, op, Next(a.typ, a.state, op), a, EntryBytes(op, r)[1..] + rest, sts);
      && h.flow == Return(10) && h.sts == sts.(code := 10)
      && h.ase == a.(contexts := Merge(a.contexts, Carried(r).meta.contexts))
  {
    hide ParseMetadata, MetadataCommand, VerifyContext, Next, Merge;
    MetadataEntryRoundTrip(r.id, r.meta, r.room, rest, a.contexts, sts);
  }

  /** QoS values out of range are no refusal of the command: its status says so, and the ASE stays as it is. */
  lemma QosRefused(env: Env, apply: bool, a: Ase, r: Request, rest: seq<byte>, sts: Status)
    requires WellBuilt(CONFIG_QOS, r) && sts.code == SUCCESS && !QosInRange(r.qos)
    ensures var h := HandleQos(env, apply, Next(a.typ, a.state, 2), a, EntryBytes(CONFIG_QOS, r)[1..] + rest, sts);
      && h.flow == Continue && h.used == 15 && h.sts.aseId == sts.aseId && h.sts.code == 9
      && Offends(r.qos, h.sts.reason) && (forall k | 0 <= k < h.sts.reason :: !Offends(r.qos, k))
      && h.ase == a
  {
    hide ParseConfigQos, QosEntry, QosInRange, Next, ReadQos, Offends;
    var s := QosEntry(r.id, r.qos)[1..] + rest;
    ReadBuiltQos(r.id, r.qos, rest);
    QosAnsweredExactly(s, sts);
  }

  /** One entry, whatever it asks for and whatever follows it. */
  lemma EntryAnswered(env: Env, apply: bool, op: byte, a: Ase, r: Request, rest: seq<byte>, sts: Status, k: nat)
    requires WellBuilt(op, r) && sts.code == SUCCESS && sts.reason == 0 && env.setupOk(k)
    ensures var code, e := RefusedWith(env, op, a, r), EntryBytes(op, r);
      var h := Handle(env, apply, op, a, e[1..] + rest, sts, k);
      if code != 0 then
        && h.flow == Return(code) && h.sts == sts.(code := code, reason := ReasonOf(code))
        && h.ase == a.(contexts := h.ase.contexts) && (code != 10 ==> h.ase == a)
      else if op == CONFIG_QOS && !QosInRange(r.qos) then
        && h.flow == Continue && h.used == |e| - 1 && h.sts.aseId == sts.aseId && h.sts.code == 9
        && Offends(r.qos, h.sts.reason) && (forall k | 0 <= k < h.sts.reason :: !Offends(r.qos, k))
        && h.ase == a
      else h.flow == Continue && h.used == |e| - 1 && h.sts == sts && Granted(env, op, apply, a, h.ase, r)
  {
    var code := RefusedWith(env, op, a, r);
    if code == 7 {
      CodecRefused(env, apply, a, r, rest, sts);
    } else if code == 10 {
      MetadataRefused(apply, op, a, r, rest, sts, env);
    } else if code == 0 && op == CONFIG_QOS && !QosInRange(r.qos) {
      QosRefused(env, apply, a, r, rest, sts);
    } else if code == 0 {
      EntryGranted(env, apply, op, a, r, rest, sts, k);
    }
    hide HandleCodec, HandleQos, HandleMetadata, CodecEntry, QosEntry, MetadataCommand, Next, Granted, Offends,
         QosInRange, VerifyCodecConfig, VerifyContext, Merge, Carried, CodecInRange;
  }

  lemma NotRefused(env: Env, op: byte, a: Ase, r: Request)
    requires WellBuilt(op, r) && RefusedWith(env, op, a, r) == 0 && (op == CONFIG_QOS ==> QosInRange(r.qos))
    ensures Acceptable(env, op, a, r) && op < 10
  {
    hide VerifyCodecConfig, VerifyContext, Merge, Carried, CodecInRange, QosInRange, MetadataCommand, Table;
  }

  /** A pass over one entry. */
  lemma SinglePass(env: Env, apply: bool, op: byte, ases: seq<Ase>, base: nat, r: Request, i: nat, sts: seq<Status>)
    requires base + ASES <= |ases| && |sts| == ASES && Find(ases, base, r.id, 0) == Some(i)
    ensures var e := EntryBytes(op, r);
      var h := Handle(env, apply, op, ases[i], e[1..] + [], sts[0].(aseId := r.id), 0);
      (h.flow.Return? || (h.flow.Continue? && h.used == |e| - 1)) ==>
        Pass(env, apply, op, ases, base, e, sts, 0)
        == PassOut(ases[i := h.ase], sts[0 := h.sts], Replied(if h.flow.Return? then h.flow.code else SUCCESS))
  {
    hide Handle, Pass, Find, EntryBytes;
    var e := EntryBytes(op, r);
    assert e[1..] + [] == e[1..];
    PassEnds(env, apply, op, ases, base, e, sts, 0);
    var h := Handle(env, apply, op, ases[i], e[1..], sts[0].(aseId := r.id), 0);
    if h.flow.Continue? && h.used == |e| - 1 {
      PassContinues(env, apply, op, ases, base, e, sts, 0, i);
      assert e[1 + h.used..] == [];
      PassEnds(env, apply, op, ases[i := h.ase], base, [], sts[0 := h.sts], 1);
    }
  }

  lemma CommandIs(op: byte, r: Request)
    ensures var data := CommandBytes(op, [r]);
      |data| > 2 && data[0] == op && data[1] == 1 && data[2..] == EntryBytes(op, r)
  {
    hide EntryBytes;
    assert [r][1..] == [];
    assert Concat(op, [r]) == EntryBytes(op, r) + [];
  }

  lemma CheckIs(env: Env, apply: bool, ases: seq<Ase>, base: nat, op: byte, r: Request, sts: seq<Status>)
    requires base + ASES <= |ases| && |sts| == ASES && op <= 10
    ensures CheckWrite(env, apply, ases, base, CommandBytes(op, [r]), sts)
         == Pass(env, apply, op, ases, base, EntryBytes(op, r), sts, 0)
  {
    hide Pass, EntryBytes, CommandBytes;
    CommandIs(op, r);
  }

  lemma QosStates(t: AseType, s: State)
    requires Next(t, s, CONFIG_QOS) != Max
    ensures s in {CodecConfigured, QosConfigured}
  {
  }

  /** QoS values out of range, once more in the apply pass and the settling. */
  lemma BadQosChangesNothing(ases: seq<Ase>, c: nat, r: Request, i: nat, env: Env)
    requires Shape(ases) && c < CONNECTIONS && InUse(ases, c) && WellBuilt(CONFIG_QOS, r) && !QosInRange(r.qos)
    requires Find(ases, c * ASES, r.id, 0) == Some(i) && forall j | 0 <= j < ASES :: env.setupOk(j)
    requires RefusedWith(env, CONFIG_QOS, ases[i], r) == 0
    ensures Step(ases, Written(c, CommandBytes(CONFIG_QOS, [r]), env)) == ases
  {
    hide Pass, Find, QosInRange, Offends, EntryBytes, CommandBytes, Next, Handle, Settle, CheckWrite, Granted;
    var base, z, op, e, data := c * ASES, [NO_STATUS, NO_STATUS, NO_STATUS], CONFIG_QOS, EntryBytes(CONFIG_QOS, r),
      CommandBytes(CONFIG_QOS, [r]);
    CommandIs(op, r);
    CheckIs(env, false, ases, base, op, r, z);
    SinglePass(env, false, op, ases, base, r, i, z);
    var st := NO_STATUS.(aseId := r.id);
    EntryAnswered(env, false, op, ases[i], r, [], st, 0);
    var h := Handle(env, false, op, ases[i], e[1..] + [], st, 0);
    assert ases[i := h.ase] == ases;
    var sts := z[0 := h.sts];
    CheckIs(env, true, ases, base, op, r, sts);
    SinglePass(env, true, op, ases, base, r, i, sts);
    assert sts[0].(aseId := r.id) == h.sts;
    HandleTwice(env, op, ases[i], e[1..] + [], st, 0);
    assert sts[0 := h.sts] == sts;
    QosStates(ases[i].typ, ases[i].state);
    forall j | 0 <= j < |ases| ensures Settle(env, ases, base, sts, 1, 0)[j] == ases[j] {
      SettlesAnswered(env, ases, base, sts, 1, 0, j);
    }
    assert Settle(env, ases, base, sts, 1, 0) == ases;
  }

  /** A command for one ASE of any connection: the response carries the code it is refused with, and so does the status
      of the ASE, which otherwise says whether QoS values are in range. If it is neither, the ASE is served; if it is,
      the ASE keeps everything but for contexts that are not supported. */
  lemma CommandAnswered(ases: seq<Ase>, c: nat, op: byte, r: Request, i: nat, env: Env)
    requires Shape(ases) && c < CONNECTIONS && InUse(ases, c) && op <= 10 && WellBuilt(op, r)
    requires Find(ases, c * ASES, r.id, 0) == Some(i) && forall j | 0 <= j < ASES :: env.setupOk(j)
    ensures var data := CommandBytes(op, [r]);
      var f := CheckWrite(env, false, ases, c * ASES, data, [NO_STATUS, NO_STATUS, NO_STATUS]);
      var code, after := RefusedWith(env, op, ases[i], r), Step(ases, Written(c, data, env));
      && f.verdict == Replied(code) && f.sts[0].aseId == r.id
      && (forall j | 0 <= j < |ases| && j != i :: after[j] == ases[j])
      && if code != 0 then
           && f.sts[0] == Status(r.id, code, ReasonOf(code))
           && after[i] == ases[i].(contexts := after[i].contexts) && (code != 10 ==> after[i] == ases[i])
         else if op == CONFIG_QOS && !QosInRange(r.qos) then
           && f.sts[0].code == 9 && Offends(r.qos, f.sts[0].reason)
           && (forall k | 0 <= k < f.sts[0].reason :: !Offends(r.qos, k))
           && after[i] == ases[i]
         else f.sts[0] == Status(r.id, 0, 0) && Served(env, op, ases[i], after[i], r)
  {
    hide Pass, Find, QosInRange, Offends, EntryBytes, CommandBytes, Next, Handle, Settle, CheckWrite, Served,
         RefusedWith, WellBuilt;
    var base, z := c * ASES, [NO_STATUS, NO_STATUS, NO_STATUS];
    CheckIs(env, false, ases, base, op, r, z);
    SinglePass(env, false, op, ases, base, r, i, z);
    EntryAnswered(env, false, op, ases[i], r, [], NO_STATUS.(aseId := r.id), 0);
    if RefusedWith(env, op, ases[i], r) == 0 {
      if op == CONFIG_QOS && !QosInRange(r.qos) {
        BadQosChangesNothing(ases, c, r, i, env);
      } else {
        NotRefused(env, op, ases[i], r);
        var rs, t := [r], [i];
        CommandWritten(env, op, ases, c, rs, t);
        assert Served(env, op, ases[t[0]], Step(ases, Written(c, CommandBytes(op, rs), env))[t[0]], rs[0]);
        assert forall j | 0 <= j < |ases| && j != i :: j !in t;
      }
    }
  }

  // ---- an entry that is cut off ----

  /** How a cut-off entry ends: "invalid length" (2); "unsupported metadata" (10) if the contexts stored before are not
      supported, which is tested first; and a read beyond the end for the head of a configuration. */
  predicate CutOff(op: byte, a: Ase, n: nat, flow: Flow) {
    match op
    case 1 => flow == if n < 8 then Undefined else Return(2)
    case 2 => flow == Return(2)
    case _ => flow == Return(if VerifyContext(a.contexts.streaming) then 2 else 10)
  }

  lemma CodecCutOff(env: Env, apply: bool, next: State, a: Ase, r: Request, n: nat, sts: Status)
    requires sts.code == SUCCESS && n < |CodecEntry(r.id, r.cc, r.room)| - 1
    ensures var h := HandleCodec(env, apply, next, a, CodecEntry(r.id, r.cc, r.room)[1..][..n], sts);
      CutOff(1, a, n, h.flow) && h.ase == a
  {
    hide CscBytes, CscLoop, VerifyCodecConfig, Le, FromLe, Finish;
    var e := CodecEntry(r.id, r.cc, r.room);
    if n >= 8 {
      assert e[1..][..n][7] == e[8];
    }
  }

  lemma MetadataCutOff(apply: bool, op: byte, next: State, a: Ase, r: Request, n: nat, sts: Status)
    requires sts.code == SUCCESS && (op == ENABLE || op == UPDATE_METADATA)
    requires n < |MetadataCommand(r.id, r.meta, r.room)| - 1 <= 256
    ensures var h := HandleMetadata(apply, op, next, a, MetadataCommand(r.id, r.meta, r.room)[1..][..n], sts);
      CutOff(op, a, n, h.flow) && h.ase == a
  {
    hide GetMetadata, VerifyContext, WithContexts;
    var e := MetadataCommand(r.id, r.meta, r.room);
    if n >= 1 {
      assert e[1..][..n][0] == e[1];
    }
  }

  /** No operation that takes arguments accepts an entry that is cut off anywhere behind its ASE id; the ASE stays as it
      is. */
  lemma PrefixRefused(env: Env, apply: bool, op: byte, a: Ase, r: Request, n: nat, sts: Status, k: nat)
    requires op in {CONFIG_CODEC, CONFIG_QOS, ENABLE, UPDATE_METADATA} && Next(a.typ, a.state, op) != Max
    requires WellBuilt(op, r) && sts.code == SUCCESS && n < |EntryBytes(op, r)| - 1
    ensures var h := Handle(env, apply, op, a, EntryBytes(op, r)[1..][..n], sts, k);
      CutOff(op, a, n, h.flow) && h.ase == a
  {
    hide HandleCodec, HandleMetadata, CodecEntry, QosEntry, MetadataCommand, Next, ReadQos, CutOff, VerifyContext;
    var next := Next(a.typ, a.state, op);
    if op == CONFIG_CODEC {
      CodecCutOff(env, apply, next, a, r, n, sts);
    } else if op == CONFIG_QOS {
      QosCutOff(env, apply, next, a, r, n, sts);
    } else {
      MetadataCutOff(apply, op, next, a, r, n, sts);
    }
  }

  lemma QosCutOff(env: Env, apply: bool, next: State, a: Ase, r: Request, n: nat, sts: Status)
    requires sts.code == SUCCESS && n < |QosEntry(r.id, r.qos)| - 1
    ensures var h := HandleQos(env, apply, next, a, QosEntry(r.id, r.qos)[1..][..n], sts);
      CutOff(2, a, n, h.flow) && h.ase == a
  {
    hide QosEntry, ReadQos;
  }
}
