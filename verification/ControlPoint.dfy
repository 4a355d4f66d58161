/** One pass of the server over an ASE Control Point write, as a function of the ASEs and the octets. */
module ControlPoint {
  import opened AscsPayload
  import opened AscsTypes
  import opened AseMachine
  import opened Bytes
  import opened CodecConfig
  import opened Metadata
  import opened Pacs

  const ASES := 3  // per connection
  const NO_STATUS := Status(0, SUCCESS, NOT_APPLICABLE)

  datatype Preferences = Preferences(framing: byte, phy: byte, retransmissions: byte, maxTransportLatency: uint16,
                                     maxDelay: uint32, preferredMaxDelay: uint32)

  /** `hist` is a history variable of the model: every assignment to `state` is recorded in it. */
  datatype Ase = Ase(id: byte, typ: AseType, state: State, codec: CodecArgs, preferences: Preferences, qos: Qos,
                     contexts: Contexts, acl: uint16, cis: uint16, dataPath: bool, hist: seq<Move>)

  function Assign(a: Ase, cause: Cause, to: State): Ase {
    a.(state := to, hist := a.hist + [Move(cause, a.state, to)])
  }

  /** What the stack answers while a write is handled. */
  datatype Env = Env(cisHandle: (byte, byte, uint16) -> uint16, setupOk: nat -> bool, connected: uint16 -> bool,
                     sinkLocations: uint32, sourceLocations: uint32)

  datatype Flow = Continue | Return(code: byte) | SetupFailed | Undefined
  datatype Handled = Handled(ase: Ase, used: nat, sts: Status, flow: Flow)

  // ---- one entry ----

  /** What every operation ends with: only an entry whose status is still success moves its ASE, and only when the
      pass applies the write. */
  function Finish(apply: bool, op: byte, next: State, a: Ase, used: nat, sts: Status): Handled {
    if sts.code == INVALID_LENGTH then Handled(a, used, sts, Return(sts.code))
    else if sts.code == SUCCESS && apply then Handled(Assign(a, Op(op), next), used, sts, Continue)
    else Handled(a, used, sts, Continue)
  }

  function Preferred(t: AseType, cc: CodecArgs): Preferences {
    var framing := if cc.csc.freq == 44100 then 1 else 0;
    if cc.latency == 1 then
      var delay := if t.Source? then 60000 else 10000;
      Preferences(framing, 2, 1, if cc.csc.dur == 7500 then 15 else 20, delay, delay)
    else Preferences(framing, 2, 4, 0x64, 40000, 40000)
  }

  /** What the server prefers, value by value: framing only for 44.1 kHz, the 2M PHY, and either low latency, which is
      that of the frame duration, with the delay a direction needs, or high reliability. */
  predicate PreferencesFor(t: AseType, cc: CodecArgs, p: Preferences) {
    && p.phy == 2
    && p.framing == (if cc.csc.freq == 44100 then 1 else 0)
    && p.retransmissions == (if cc.latency == 1 then 1 else 4)
    && p.maxTransportLatency == (if cc.latency != 1 then 100 else if cc.csc.dur == 7500 then 15 else 20)
    && p.maxDelay == (if cc.latency != 1 then 40000 else if t == Source then 60000 else 10000)
    && p.preferredMaxDelay == p.maxDelay
  }

  lemma PreferencesAre(t: AseType, cc: CodecArgs)
    ensures forall p :: PreferencesFor(t, cc, p) <==> p == Preferred(t, cc)
  {
  }

  /** A client that takes over the server's preferences for a codec configuration stays inside the ranges the server
      insists on in Config QoS. */
  lemma PreferencesInRange(t: AseType, cc: CodecArgs, q: Qos)
    requires var p := Preferred(t, cc);
      && q.framing == p.framing && q.phy == p.phy && q.maxTransportLatency == p.maxTransportLatency
      && q.presentationDelay <= p.maxDelay
    requires 0xFF <= q.sduInterval <= 0xFFFFFF && q.maxSdu <= 0xFFF
    ensures QosInRange(q) && Preferred(t, cc).preferredMaxDelay <= Preferred(t, cc).maxDelay
    ensures ParseConfigQos(QosEntry(0, q)[1..], NO_STATUS).sts == NO_STATUS
  {
    hide QosEntry, ReadQos;
    assert QosEntry(0, q)[1..] + [] == QosEntry(0, q)[1..];
    QosRoundTrip(0, q, [], NO_STATUS);
  }

  function WithAllocation(cc: CodecArgs): CodecArgs {
    if cc.csc.alloc == 0 then cc.(csc := cc.csc.(alloc := 1)) else cc
  }

  function Configure(a: Ase, cc: CodecArgs): Ase {
    a.(codec := WithAllocation(cc), preferences := Preferred(a.typ, WithAllocation(cc)))
  }

  function HandleCodec(env: Env, apply: bool, next: State, a: Ase, s: seq<byte>, sts: Status): Handled {
    match ParseCodecConfig(s, sts)
    case CodecOverrun => Handled(a, 0, sts, Undefined)
    case CodecParsed(cc, used, sts') =>
      if sts'.code != SUCCESS then Handled(a, used, sts', Return(sts'.code))
      else if !VerifyCodecConfig(a.typ, if a.typ.Sink? then env.sinkLocations else env.sourceLocations, cc) then
        var bad := sts'.(code := UNSUPPORTED_CONFIGURATION, reason := REASON_CODEC_SPECIFIC_CONFIGURATION);
        Handled(a, used, bad, Return(bad.code))
      else Finish(apply, CONFIG_CODEC, next, if apply then Configure(a, cc) else a, used, sts')
  }

  /** The values are stored by the check pass already. */
  function HandleQos(env: Env, apply: bool, next: State, a: Ase, s: seq<byte>, sts: Status): Handled {
    var r := ParseConfigQos(s, sts);
    var a' := if r.sts.code == SUCCESS then a.(qos := r.qos, cis := env.cisHandle(r.qos.cig, r.qos.cis, a.acl)) else a;
    Finish(apply, CONFIG_QOS, next, a', r.used, r.sts)
  }

  /** The contexts are stored by the check pass already, and before they are verified. */
  function HandleMetadata(apply: bool, op: byte, next: State, a: Ase, s: seq<byte>, sts: Status): Handled {
    match ParseMetadata(s, a.contexts, sts)
    case MetaOverrun => Handled(a, 0, sts, Undefined)
    case MetaParsed(contexts, used, sts') =>
      var a' := a.(contexts := contexts);
      if !VerifyContext(contexts.streaming) then
        var bad := sts'.(code := UNSUPPORTED_METADATA, reason := NOT_APPLICABLE);
        Handled(a', used, bad, Return(bad.code))
      else Finish(apply, op, next, a', used, sts')
  }

  /** `s` is what follows the ASE id, `k` the position of the entry in the write. */
  function Handle(env: Env, apply: bool, op: byte, a: Ase, s: seq<byte>, sts: Status, k: nat): Handled {
    var next := Next(a.typ, a.state, op);
    if next == Max then
      Handled(a, 0, sts.(code := INVALID_TRANSITION), Return(INVALID_TRANSITION))
    else if op == CONFIG_CODEC then HandleCodec(env, apply, next, a, s, sts)
    else if op == CONFIG_QOS then HandleQos(env, apply, next, a, s, sts)
    else if op == ENABLE || op == UPDATE_METADATA then HandleMetadata(apply, op, next, a, s, sts)
    else if op == RECEIVER_START_READY && apply && !env.setupOk(k) then Handled(a, 0, sts, SetupFailed)
    else Finish(apply, op, next, a, 0, sts)
  }

  lemma HandledUsed(env: Env, apply: bool, op: byte, a: Ase, s: seq<byte>, sts: Status, k: nat)
    ensures Handle(env, apply, op, a, s, sts, k).used <= |s|
  {
    hide Apply, ReadField, GetMetadata, ReadQos, VerifyCodecConfig;
    if |s| >= 8 {
      CscLoopUsed(s[8..], s[7], NO_CSC, 8, sts);
    }
  }

  // ---- all entries ----

  datatype Verdict = Replied(code: byte) | Failed | Overran
  datatype PassOut = PassOut(ases: seq<Ase>, sts: seq<Status>, verdict: Verdict)

  /** The first of the connection's ASEs, which start at `base`, with the given id. */
  function Find(ases: seq<Ase>, base: nat, id: byte, i: nat): Option<nat>
    requires base + ASES <= |ases| && i <= ASES
    ensures Find(ases, base, id, i).Some? ==>
              base + i <= Find(ases, base, id, i).value < base + ASES && ases[Find(ases, base, id, i).value].id == id
    decreases ASES - i
  {
    if i == ASES then None else if ases[base + i].id == id then Some(base + i) else Find(ases, base, id, i + 1)
  }

  /** The entries of a write in turn: `s` is the rest of the write, `sts` the status array, `k` the next status. The
      loop is bounded by the length of the write, not by the number of ASEs it announces. */
  function Pass(env: Env, apply: bool, op: byte, ases: seq<Ase>, base: nat, s: seq<byte>, sts: seq<Status>,
                k: nat)
    : (r: PassOut)
    requires base + ASES <= |ases| && |sts| == ASES
    ensures |r.ases| == |ases| && |r.sts| == ASES
    decreases |s|
  {
    if s == [] then PassOut(ases, sts, Replied(SUCCESS))
    else if k >= ASES then PassOut(ases, sts, Overran)
    else
      var st := sts[k].(aseId := s[0]);
      match Find(ases, base, s[0], 0)
      case None => PassOut(ases, sts[k := st.(code := INVALID_ASE_ID)], Replied(SUCCESS))
      case Some(i) =>
        var h := Handle(env, apply, op, ases[i], s[1..], st, k);
        HandledUsed(env, apply, op, ases[i], s[1..], st, k);
        var ases', sts' := ases[i := h.ase], sts[k := h.sts];
        match h.flow
        case Return(code) => PassOut(ases', sts', Replied(code))
        case SetupFailed => PassOut(ases', sts', Failed)
        case Undefined => PassOut(ases', sts', Overran)
        case Continue => Pass(env, apply, op, ases', base, s[1 + h.used..], sts', k + 1)
  }

  lemma PassContinues(env: Env, apply: bool, op: byte, ases: seq<Ase>, base: nat, s: seq<byte>, sts: seq<Status>,
                      k: nat, i: nat)
    requires base + ASES <= |ases| && |sts| == ASES && s != [] && k < ASES && Find(ases, base, s[0], 0) == Some(i)
    requires Handle(env, apply, op, ases[i], s[1..], sts[k].(aseId := s[0]), k).flow.Continue?
    ensures var h := Handle(env, apply, op, ases[i], s[1..], sts[k].(aseId := s[0]), k);
      && h.used <= |s| - 1
      && Pass(env, apply, op, ases, base, s, sts, k)
         == Pass(env, apply, op, ases[i := h.ase], base, s[1 + h.used..], sts[k := h.sts], k + 1)
  {
    hide Handle;
    HandledUsed(env, apply, op, ases[i], s[1..], sts[k].(aseId := s[0]), k);
  }

  /** How a pass ends: at the end of the write, at an unknown ASE, or with the verdict of the entry that stops it. */
  lemma PassEnds(env: Env, apply: bool, op: byte, ases: seq<Ase>, base: nat, s: seq<byte>, sts: seq<Status>, k: nat)
    requires base + ASES <= |ases| && |sts| == ASES
    ensures s == [] ==> Pass(env, apply, op, ases, base, s, sts, k) == PassOut(ases, sts, Replied(SUCCESS))
    ensures s != [] && k >= ASES ==> Pass(env, apply, op, ases, base, s, sts, k) == PassOut(ases, sts, Overran)
    ensures s != [] && k < ASES ==>
      match Find(ases, base, s[0], 0)
      case None => Pass(env, apply, op, ases, base, s, sts, k)
                   == PassOut(ases, sts[k := sts[k].(aseId := s[0], code := INVALID_ASE_ID)], Replied(SUCCESS))
      case Some(i) =>
        var h := Handle(env, apply, op, ases[i], s[1..], sts[k].(aseId := s[0]), k);
        !h.flow.Continue? ==>
          Pass(env, apply, op, ases, base, s, sts, k)
          == PassOut(ases[i := h.ase], sts[k := h.sts],
                     if h.flow.Return? then Replied(h.flow.code) else if h.flow.SetupFailed? then Failed else Overran)
  {
    hide Handle;
  }

  /** The header, then the entries. */
  function CheckWrite(env: Env, apply: bool, ases: seq<Ase>, base: nat, data: seq<byte>, sts: seq<Status>): (r: PassOut)
    requires base + ASES <= |ases| && |sts| == ASES
    ensures |r.ases| == |ases| && |r.sts| == ASES
  {
    if |data| < 2 then PassOut(ases, sts, Overran)
    else if data[0] > OPCODE_MAX then PassOut(ases, sts, Replied(UNSUPPORTED_OPCODE))
    else if data[1] == 0 || data[1] > ASES then PassOut(ases, sts, Replied(INVALID_ASE_ID))
    else Pass(env, apply, data[0], ases, base, data[2..], sts, 0)
  }

  /** An ASE that has nothing to wait for, because its CIS is not connected, leaves Releasing and Disabling at once. */
  function SettleOne(env: Env, a: Ase): Ase {
    if env.connected(a.cis) then a
    else if a.state.Releasing? then Assign(a, NoCis, Idle)
    else if a.state.Disabling? then Assign(a, NoCis, QosConfigured)
    else a
  }

  function Settle(env: Env, ases: seq<Ase>, base: nat, sts: seq<Status>, n: nat, i: nat): (r: seq<Ase>)
    requires base + ASES <= |ases| && i <= n <= |sts|
    ensures |r| == |ases|
    decreases n - i
  {
    if i == n then ases
    else
      match Find(ases, base, sts[i].aseId, 0)
      case None => Settle(env, ases, base, sts, n, i + 1)
      case Some(j) => Settle(env, ases[j := SettleOne(env, ases[j])], base, sts, n, i + 1)
  }

  /** A whole write: the check pass; unless it is rejected, the apply pass over the same octets, the ASEs and statuses
      the check pass left, and then the settling. */
  function Write(env: Env, ases: seq<Ase>, base: nat, data: seq<byte>): (r: seq<Ase>)
    requires base + ASES <= |ases|
    ensures |r| == |ases|
  {
    var first := CheckWrite(env, false, ases, base, data, [NO_STATUS, NO_STATUS, NO_STATUS]);
    if first.verdict != Replied(SUCCESS) then first.ases
    else
      var second := CheckWrite(env, true, first.ases, base, data, first.sts);
      if second.verdict == Overran then second.ases
      else Settle(env, second.ases, base, second.sts, data[1], 0)
  }
}
