/** The asynchronous steps of the server and what holds in every run of writes and events. */
module AscsRuns {
  import opened AscsPayload
  import opened AscsTypes
  import opened AseMachine
  import opened Bytes
  import opened CodecConfig
  import opened ControlPoint
  import opened Metadata
  import opened Pacs
  import opened TwoPass

  const CONNECTIONS := 2

  predicate Shape(ases: seq<Ase>) {
    |ases| == CONNECTIONS * ASES
  }

  // ---- steps ----

  function FreshAse(i: nat, acl: uint16): Ase
    requires i < ASES
  {
    Ase(10 + i, if i < 2 then Sink else Source, Idle, CodecArgs(0, 0, 0, 0, 0, NO_CSC), Preferences(0, 0, 0, 0, 0, 0),
        NO_QOS.(cig := 0xFF, cis := 0xFF), NO_CONTEXTS, acl, 0, false, [])
  }

  /** An ASE that is overwritten with another keeps its history; clearing one that is not idle is a move. */
  function Renew(a: Ase, b: Ase): Ase {
    b.(hist := if a.state.Idle? then a.hist else a.hist + [Move(Cleared, a.state, Idle)])
  }

  /** A new connection starts with fresh ASEs. */
  function Connect(ases: seq<Ase>, c: nat, acl: uint16): (r: seq<Ase>)
    requires Shape(ases) && c < CONNECTIONS
    ensures Shape(r)
  {
    var b := c * ASES;
    ases[b := Renew(ases[b], FreshAse(0, acl))]
        [b + 1 := Renew(ases[b + 1], FreshAse(1, acl))]
        [b + 2 := Renew(ases[b + 2], FreshAse(2, acl))]
  }

  /** An ASE of a connection that is not in use: all zero. Its type, which is zero as well, is read of no idle ASE. */
  function FreeAse(i: nat): Ase
    requires i < ASES
  {
    FreshAse(i, 0).(id := 0, qos := NO_QOS)
  }

  predicate InUse(ases: seq<Ase>, c: nat)
    requires Shape(ases) && c < CONNECTIONS
  {
    ases[c * ASES].id != 0
  }

  /** The control block of a connection that ends is cleared. */
  function Disconnect(ases: seq<Ase>, c: nat): (r: seq<Ase>)
    requires Shape(ases) && c < CONNECTIONS
    ensures Shape(r)
  {
    var b := c * ASES;
    ases[b := Renew(ases[b], FreeAse(0))]
        [b + 1 := Renew(ases[b + 1], FreeAse(1))]
        [b + 2 := Renew(ases[b + 2], FreeAse(2))]
  }

  lemma ConnectIs(before: seq<Ase>, after: seq<Ase>, c: nat, acl: uint16)
    requires Shape(before) && |after| == |before| && c < CONNECTIONS
    requires forall j | 0 <= j < |before| ::
               after[j] == if c * ASES <= j < c * ASES + ASES then Renew(before[j], FreshAse(j - c * ASES, acl))
                           else before[j]
    ensures after == Connect(before, c, acl)
  {
    hide Renew, FreshAse;
  }

  lemma DisconnectIs(before: seq<Ase>, after: seq<Ase>, c: nat)
    requires Shape(before) && |after| == |before| && c < CONNECTIONS
    requires forall j | 0 <= j < |before| ::
               after[j] == if c * ASES <= j < c * ASES + ASES then Renew(before[j], FreeAse(j - c * ASES))
                           else before[j]
    ensures after == Disconnect(before, c)
  {
    hide Renew, FreeAse;
  }

  predicate HasQos(s: State) {
    s !in {Idle, CodecConfigured}
  }

  predicate OnCis(a: Ase, cig: byte, cis: byte, t: AseType) {
    HasQos(a.state) && a.qos.cig == cig && a.qos.cis == cis && a.typ == t
  }

  /** The first ASE, over all connections, that is coupled to the CIS. */
  function FindOnCis(ases: seq<Ase>, cig: byte, cis: byte, t: AseType, i: nat): (r: Option<nat>)
    requires i <= |ases|
    ensures r.Some? ==> i <= r.value < |ases| && OnCis(ases[r.value], cig, cis, t)
    decreases |ases| - i
  {
    if i == |ases| then None
    else if OnCis(ases[i], cig, cis, t) then Some(i)
    else FindOnCis(ases, cig, cis, t, i + 1)
  }

  function Bind(ases: seq<Ase>, cig: byte, cis: byte, t: AseType, handle: uint16): (r: seq<Ase>)
    ensures |r| == |ases|
  {
    match FindOnCis(ases, cig, cis, t, 0)
    case None => ases
    case Some(i) => ases[i := ases[i].(cis := handle)]
  }

  /** A data path is up: a sink in Enabling starts streaming. */
  function DataPath(a: Ase): Ase {
    var b := a.(dataPath := true);
    if a.typ.Sink? && a.state.Enabling? then Assign(b, DataPathUp, Streaming) else b
  }

  /** The stack knows the CIS of some ASE that has one. */
  predicate SomeCisKnown(env: Env, ases: seq<Ase>) {
    exists i | 0 <= i < |ases| :: CisKnown(env, ases[i])
  }

  predicate CisKnown(env: Env, a: Ase) {
    HasQos(a.state) && a.cis == env.cisHandle(a.qos.cig, a.qos.cis, a.acl)
  }

  function LoseCis(a: Ase): Ase {
    var b := a.(dataPath := false);
    match a.state
    case Releasing => Assign(b, CisLost, Idle).(qos := b.qos.(cig := 0xFF, cis := 0xFF))
    case Streaming => Assign(b, CisLost, if a.typ.Source? then Disabling else QosConfigured)
    case Disabling => Assign(b, CisLost, QosConfigured)
    case _ => b
  }

  function Lose(ases: seq<Ase>, cig: byte, cis: byte, t: AseType): (r: seq<Ase>)
    ensures |r| == |ases|
  {
    match FindOnCis(ases, cig, cis, t, 0)
    case None => ases
    case Some(i) => ases[i := LoseCis(ases[i])]
  }

  datatype Event =
    | Connected(conn: nat, acl: uint16)
    | Disconnected(conn: nat)
    | Written(conn: nat, data: seq<byte>, env: Env)
    | CisRequest(cig: byte, cis: byte, handle: uint16)
    | CisEstablished(ok: bool, cig: byte, cis: byte, handle: uint16)
    | DataPathSetup(ok: bool, cisConnected: bool, ase: nat, env: Env)
    | CisDisconnected(cig: byte, cis: byte)

  predicate Possible(e: Event) {
    match e
    case Connected(c, _) => c < CONNECTIONS
    case Disconnected(c) => c < CONNECTIONS
    case Written(c, _, _) => c < CONNECTIONS
    case DataPathSetup(_, _, i, _) => i < CONNECTIONS * ASES
    case _ => true
  }

  function Step(ases: seq<Ase>, e: Event): (r: seq<Ase>)
    requires Shape(ases) && Possible(e)
    ensures Shape(r)
  {
    match e
    case Connected(c, acl) => Connect(ases, c, acl)
    case Disconnected(c) => Disconnect(ases, c)
    case Written(c, data, env) => if InUse(ases, c) then Write(env, ases, c * ASES, data) else ases
    case CisRequest(cig, cis, handle) => Bind(ases, cig, cis, Sink, handle)
    case CisEstablished(ok, cig, cis, handle) =>
      if ok then Bind(Bind(ases, cig, cis, Sink, handle), cig, cis, Source, handle) else ases
    case DataPathSetup(ok, connected, i, env) =>
      if ok && connected && SomeCisKnown(env, ases) then ases[i := DataPath(ases[i])] else ases
    case CisDisconnected(cig, cis) => Lose(Lose(ases, cig, cis, Sink), cig, cis, Source)
  }

  function Start(): (r: seq<Ase>)
    ensures Shape(r)
  {
    [FreeAse(0), FreeAse(1), FreeAse(2), FreeAse(0), FreeAse(1), FreeAse(2)]
  }

  function Run(events: seq<Event>): (r: seq<Ase>)
    requires forall e | e in events :: Possible(e)
    ensures Shape(r)
  {
    if events == [] then Start() else Step(Run(events[..|events| - 1]), events[|events| - 1])
  }

  // ---- the invariant of one ASE ----

  /** No Receiver Start Ready since the ASE was last idle. */
  predicate NoStartReady(h: seq<Move>) {
    if h == [] then true
    else
      var last := h[|h| - 1];
      last.to.Idle? || (last.cause != Op(RECEIVER_START_READY) && NoStartReady(h[..|h| - 1]))
  }

  predicate Good(a: Ase) {
    && Explains(a.typ, a.hist, a.state)
    && (a.state in {QosConfigured, Enabling, Streaming, Disabling} ==> QosInRange(a.qos))
    && (a.state != Idle ==> RecordAccepts(a.typ, a.codec))
    && (a.typ.Sink? && a.state.Streaming? && NoStartReady(a.hist) ==> a.dataPath)
  }

  predicate AllGood(ases: seq<Ase>) {
    forall i | 0 <= i < |ases| :: Good(ases[i])
  }

  lemma GoodAssign(a: Ase, cause: Cause, to: State)
    requires Explains(a.typ, a.hist, a.state) && Edge(a.typ, Move(cause, a.state, to))
    requires to in {QosConfigured, Enabling, Streaming, Disabling} ==> QosInRange(a.qos)
    requires to != Idle ==> RecordAccepts(a.typ, a.codec)
    requires a.typ.Sink? && to.Streaming? && cause != Op(RECEIVER_START_READY) && NoStartReady(a.hist) ==> a.dataPath
    ensures Good(Assign(a, cause, to))
  {
    hide RecordAccepts, QosInRange;
    var m := Move(cause, a.state, to);
    ExplainsMore(a.typ, a.hist, m);
    assert (a.hist + [m])[..|a.hist|] == a.hist;
  }

  /** Which parts of the invariant a state calls for, along the edges an operation can take. */
  lemma GoodOperation(a: Ase, b: Ase, op: byte)
    requires Good(a)
    requires b == a.(codec := b.codec, preferences := b.preferences, qos := b.qos, contexts := b.contexts, cis := b.cis)
    requires Next(a.typ, a.state, op) != Max
    requires b.codec == a.codec || (op == CONFIG_CODEC && RecordAccepts(b.typ, b.codec))
    requires op == CONFIG_CODEC ==> RecordAccepts(b.typ, b.codec)
    requires b.qos == a.qos || (op == CONFIG_QOS && QosInRange(b.qos))
    requires op == CONFIG_QOS ==> QosInRange(b.qos)
    ensures Good(Assign(b, Op(op), Next(a.typ, a.state, op)))
  {
    hide RecordAccepts, QosInRange;
    TableMakesEdges(a.typ, a.state, op);
    GoodAssign(b, Op(op), Next(a.typ, a.state, op));
  }

  lemma AllocationNeverDecides(t: AseType, cc: CodecArgs)
    ensures RecordAccepts(t, WithAllocation(cc)) == RecordAccepts(t, cc)
  {
    hide RecordAccepts;
    AcceptedExactly(t, cc);
    AcceptedExactly(t, WithAllocation(cc));
  }

  lemma GoodHandle(env: Env, apply: bool, op: byte, a: Ase, s: seq<byte>, sts: Status, k: nat)
    requires Good(a)
    ensures Good(Handle(env, apply, op, a, s, sts, k).ase)
  {
    hide ParseCodecConfig, ParseConfigQos, ParseMetadata, VerifyContext, RecordAccepts, QosInRange, Next, Explains,
         NoStartReady, Preferred, WithAllocation;
    var h := Handle(env, apply, op, a, s, sts, k);
    if h.ase.hist != a.hist {
      var next := Next(a.typ, a.state, op);
      assert Op(op).opcode == op;
      if op == CONFIG_CODEC {
        AllocationNeverDecides(a.typ, ParseCodecConfig(s, sts).cc);
        GoodOperation(a, Configure(a, ParseCodecConfig(s, sts).cc), op);
      } else if op == CONFIG_QOS {
        var q := ParseConfigQos(s, sts).qos;
        GoodOperation(a, a.(qos := q, cis := env.cisHandle(q.cig, q.cis, a.acl)), op);
      } else if op == ENABLE || op == UPDATE_METADATA {
        GoodOperation(a, a.(contexts := ParseMetadata(s, a.contexts, sts).contexts), op);
      } else {
        GoodOperation(a, a, op);
      }
    }
  }

  lemma {:induction false} GoodPass(env: Env, apply: bool, op: byte, ases: seq<Ase>, base: nat, s: seq<byte>,
                                    sts: seq<Status>, k: nat)
    requires base + ASES <= |ases| && |sts| == ASES && AllGood(ases)
    ensures AllGood(Pass(env, apply, op, ases, base, s, sts, k).ases)
    decreases |s|
  {
    hide Handle, Pass, Good;
    PassEnds(env, apply, op, ases, base, s, sts, k);
    if s != [] && k < ASES {
      var found := Find(ases, base, s[0], 0);
      if found.Some? {
        var i, st := found.value, sts[k].(aseId := s[0]);
        var h := Handle(env, apply, op, ases[i], s[1..], st, k);
        GoodHandle(env, apply, op, ases[i], s[1..], st, k);
        if h.flow.Continue? {
          PassContinues(env, apply, op, ases, base, s, sts, k, i);
          GoodPass(env, apply, op, ases[i := h.ase], base, s[1 + h.used..], sts[k := h.sts], k + 1);
        }
      }
    }
  }

  lemma GoodSettleOne(env: Env, a: Ase)
    requires Good(a)
    ensures Good(SettleOne(env, a))
  {
    hide RecordAccepts, QosInRange, Explains, NoStartReady;
    if !env.connected(a.cis) {
      if a.state.Releasing? {
        GoodAssign(a, NoCis, Idle);
      } else if a.state.Disabling? {
        GoodAssign(a, NoCis, QosConfigured);
      }
    }
  }

  lemma {:induction false} GoodSettle(env: Env, ases: seq<Ase>, base: nat, sts: seq<Status>, n: nat, i: nat)
    requires base + ASES <= |ases| && i <= n <= |sts| && AllGood(ases)
    ensures AllGood(Settle(env, ases, base, sts, n, i))
    decreases n - i
  {
    hide Good, SettleOne;
    if i < n {
      var found := Find(ases, base, sts[i].aseId, 0);
      if found.Some? {
        GoodSettleOne(env, ases[found.value]);
        GoodSettle(env, ases[found.value := SettleOne(env, ases[found.value])], base, sts, n, i + 1);
      } else {
        GoodSettle(env, ases, base, sts, n, i + 1);
      }
    }
  }

  lemma GoodCheck(env: Env, apply: bool, ases: seq<Ase>, base: nat, data: seq<byte>, sts: seq<Status>)
    requires base + ASES <= |ases| && |sts| == ASES && AllGood(ases)
    ensures AllGood(CheckWrite(env, apply, ases, base, data, sts).ases)
  {
    hide Pass, Good;
    if |data| >= 2 {
      GoodPass(env, apply, data[0], ases, base, data[2..], sts, 0);
    }
  }

  lemma GoodWrite(env: Env, ases: seq<Ase>, base: nat, data: seq<byte>)
    requires base + ASES <= |ases| && AllGood(ases)
    ensures AllGood(Write(env, ases, base, data))
  {
    hide AllGood, Settle;
    var z := [NO_STATUS, NO_STATUS, NO_STATUS];
    GoodCheck(env, false, ases, base, data, z);
    var first := CheckWrite(env, false, ases, base, data, z);
    if first.verdict == Replied(SUCCESS) {
      GoodCheck(env, true, first.ases, base, data, first.sts);
      var second := CheckWrite(env, true, first.ases, base, data, first.sts);
      if second.verdict != Overran {
        GoodSettle(env, second.ases, base, second.sts, data[1], 0);
      }
    }
  }

  lemma GoodDataPath(a: Ase)
    requires Good(a)
    ensures Good(DataPath(a))
  {
    hide RecordAccepts, QosInRange, Explains, NoStartReady;
    if a.typ.Sink? && a.state.Enabling? {
      GoodAssign(a.(dataPath := true), DataPathUp, Streaming);
    }
  }

  lemma GoodLoseCis(a: Ase)
    requires Good(a)
    ensures Good(LoseCis(a))
  {
    hide RecordAccepts, QosInRange, Explains, NoStartReady;
    var b := a.(dataPath := false);
    match a.state
    case Releasing => GoodAssign(b, CisLost, Idle);
    case Streaming => GoodAssign(b, CisLost, if a.typ.Source? then Disabling else QosConfigured);
    case Disabling => GoodAssign(b, CisLost, QosConfigured);
    case _ =>
  }

  lemma GoodRenew(a: Ase, b: Ase)
    requires Good(a) && a.typ == b.typ && b.state.Idle? && b.hist == []
    ensures Good(Renew(a, b))
  {
    hide RecordAccepts, QosInRange, NoStartReady;
    if !a.state.Idle? {
      NeverMax(a.typ, a.hist, a.state);
      ExplainsMore(a.typ, a.hist, Move(Cleared, a.state, Idle));
    }
  }

  lemma GoodFree(i: nat)
    requires i < ASES
    ensures Good(FreeAse(i))
  {
  }

  /** Types belong to positions. */
  predicate Typed(ases: seq<Ase>) {
    forall i | 0 <= i < |ases| :: ases[i].typ == if i % ASES < 2 then Sink else Source
  }

  lemma GoodConnect(ases: seq<Ase>, c: nat, acl: uint16)
    requires Shape(ases) && Typed(ases) && AllGood(ases) && c < CONNECTIONS
    ensures AllGood(Connect(ases, c, acl)) && AllGood(Disconnect(ases, c))
  {
    hide Good, Renew;
    var b := c * ASES;
    assert b % ASES == 0 && (b + 1) % ASES == 1 && (b + 2) % ASES == 2;
    GoodRenew(ases[b], FreshAse(0, acl));
    GoodRenew(ases[b + 1], FreshAse(1, acl));
    GoodRenew(ases[b + 2], FreshAse(2, acl));
    GoodRenew(ases[b], FreeAse(0));
    GoodRenew(ases[b + 1], FreeAse(1));
    GoodRenew(ases[b + 2], FreeAse(2));
  }

  lemma GoodBind(ases: seq<Ase>, cig: byte, cis: byte, t: AseType, handle: uint16)
    requires AllGood(ases)
    ensures AllGood(Bind(ases, cig, cis, t, handle))
  {
    hide RecordAccepts, QosInRange, Explains, NoStartReady, OnCis, FindOnCis;
  }

  lemma GoodLose(ases: seq<Ase>, cig: byte, cis: byte, t: AseType)
    requires AllGood(ases)
    ensures AllGood(Lose(ases, cig, cis, t))
  {
    hide Good, LoseCis, FindOnCis;
    var found := FindOnCis(ases, cig, cis, t, 0);
    if found.Some? {
      GoodLoseCis(ases[found.value]);
    }
  }

  lemma GoodStep(ases: seq<Ase>, e: Event)
    requires Shape(ases) && Typed(ases) && Possible(e) && AllGood(ases)
    ensures AllGood(Step(ases, e))
  {
    hide Good, Write, Bind, Lose, DataPath, Connect, Disconnect, Typed;
    match e
    case Connected(c, acl) => GoodConnect(ases, c, acl);
    case Disconnected(c) => GoodConnect(ases, c, 0);
    case Written(c, data, env) =>
      if InUse(ases, c) {
        GoodWrite(env, ases, c * ASES, data);
      }
    case CisRequest(cig, cis, handle) => GoodBind(ases, cig, cis, Sink, handle);
    case CisEstablished(ok, cig, cis, handle) =>
      GoodBind(ases, cig, cis, Sink, handle);
      GoodBind(Bind(ases, cig, cis, Sink, handle), cig, cis, Source, handle);
    case DataPathSetup(ok, connected, i, env) => GoodDataPath(ases[i]);
    case CisDisconnected(cig, cis) =>
      GoodLose(ases, cig, cis, Sink);
      GoodLose(Lose(ases, cig, cis, Sink), cig, cis, Source);
  }

  // ---- nothing is forgotten ----

  /** Same type, and a history that is only added to. */
  predicate Extends(a: Ase, b: Ase) {
    a.typ == b.typ && a.hist <= b.hist
  }

  predicate AllExtend(before: seq<Ase>, after: seq<Ase>) {
    |before| == |after| && forall i | 0 <= i < |before| :: Extends(before[i], after[i])
  }

  lemma StaysExtended(a: Ase)
    ensures Extends(a, a)
  {
  }

  lemma ExtendsOne(ases: seq<Ase>, i: nat, a: Ase, after: seq<Ase>)
    requires i < |ases| && Extends(ases[i], a) && AllExtend(ases[i := a], after)
    ensures AllExtend(ases, after)
  {
    assert Extends(a, after[i]) by {
      assert ases[i := a][i] == a;
    }
    forall j | 0 <= j < |ases| && j != i ensures Extends(ases[j], after[j]) {
      assert ases[i := a][j] == ases[j];
    }
  }

  lemma ExtendsThen(a: seq<Ase>, b: seq<Ase>, c: seq<Ase>)
    requires AllExtend(a, b) && AllExtend(b, c)
    ensures AllExtend(a, c)
  {
    forall i | 0 <= i < |a| ensures Extends(a[i], c[i]) {
      assert Extends(a[i], b[i]) && Extends(b[i], c[i]);
    }
  }

  lemma FinishExtends(apply: bool, op: byte, next: State, a: Ase, b: Ase, used: nat, sts: Status)
    requires a.typ == b.typ && a.hist == b.hist
    ensures Extends(a, Finish(apply, op, next, b, used, sts).ase)
  {
  }

  lemma CodecExtends(env: Env, apply: bool, next: State, a: Ase, s: seq<byte>, sts: Status)
    ensures Extends(a, HandleCodec(env, apply, next, a, s, sts).ase)
  {
    hide ParseCodecConfig, VerifyCodecConfig, Finish, Preferred, WithAllocation;
    var r := ParseCodecConfig(s, sts);
    if r.CodecParsed? {
      FinishExtends(apply, CONFIG_CODEC, next, a, if apply then Configure(a, r.cc) else a, r.used, r.sts);
    }
  }

  lemma QosExtends(env: Env, apply: bool, next: State, a: Ase, s: seq<byte>, sts: Status)
    ensures Extends(a, HandleQos(env, apply, next, a, s, sts).ase)
  {
    hide ParseConfigQos, Finish;
    var r := ParseConfigQos(s, sts);
    var b := if r.sts.code == SUCCESS then a.(qos := r.qos, cis := env.cisHandle(r.qos.cig, r.qos.cis, a.acl)) else a;
    FinishExtends(apply, CONFIG_QOS, next, a, b, r.used, r.sts);
  }

  lemma MetadataExtends(apply: bool, op: byte, next: State, a: Ase, s: seq<byte>, sts: Status)
    ensures Extends(a, HandleMetadata(apply, op, next, a, s, sts).ase)
  {
    hide ParseMetadata, VerifyContext, Finish;
    var r := ParseMetadata(s, a.contexts, sts);
    if r.MetaParsed? {
      FinishExtends(apply, op, next, a, a.(contexts := r.contexts), r.used, r.sts);
    }
  }

  lemma HandleExtends(env: Env, apply: bool, op: byte, a: Ase, s: seq<byte>, sts: Status, k: nat)
    ensures Extends(a, Handle(env, apply, op, a, s, sts, k).ase)
  {
    hide HandleCodec, HandleQos, HandleMetadata, Finish, Next, Extends;
    var next := Next(a.typ, a.state, op);
    CodecExtends(env, apply, next, a, s, sts);
    QosExtends(env, apply, next, a, s, sts);
    MetadataExtends(apply, op, next, a, s, sts);
    FinishExtends(apply, op, next, a, a, 0, sts);
    StaysExtended(a);
  }

  lemma {:induction false} PassExtends(env: Env, apply: bool, op: byte, ases: seq<Ase>, base: nat, s: seq<byte>,
                                       sts: seq<Status>, k: nat)
    requires base + ASES <= |ases| && |sts| == ASES
    ensures AllExtend(ases, Pass(env, apply, op, ases, base, s, sts, k).ases)
    decreases |s|
  {
    hide Handle, Pass;
    PassEnds(env, apply, op, ases, base, s, sts, k);
    if s != [] && k < ASES {
      var found := Find(ases, base, s[0], 0);
      if found.Some? {
        var i, st := found.value, sts[k].(aseId := s[0]);
        var h := Handle(env, apply, op, ases[i], s[1..], st, k);
        HandleExtends(env, apply, op, ases[i], s[1..], st, k);
        if h.flow.Continue? {
          PassContinues(env, apply, op, ases, base, s, sts, k, i);
          var next := ases[i := h.ase];
          PassExtends(env, apply, op, next, base, s[1 + h.used..], sts[k := h.sts], k + 1);
          ExtendsOne(ases, i, h.ase, Pass(env, apply, op, next, base, s[1 + h.used..], sts[k := h.sts], k + 1).ases);
        }
      }
    }
  }

  lemma {:induction false} SettleExtends(env: Env, ases: seq<Ase>, base: nat, sts: seq<Status>, n: nat, i: nat)
    requires base + ASES <= |ases| && i <= n <= |sts|
    ensures AllExtend(ases, Settle(env, ases, base, sts, n, i))
    decreases n - i
  {
    if i < n {
      var found := Find(ases, base, sts[i].aseId, 0);
      if found.Some? {
        var j, a := found.value, SettleOne(env, ases[found.value]);
        SettleExtends(env, ases[j := a], base, sts, n, i + 1);
        ExtendsOne(ases, j, a, Settle(env, ases[j := a], base, sts, n, i + 1));
      } else {
        SettleExtends(env, ases, base, sts, n, i + 1);
      }
    }
  }

  lemma WriteExtends(env: Env, ases: seq<Ase>, base: nat, data: seq<byte>)
    requires base + ASES <= |ases|
    ensures AllExtend(ases, Write(env, ases, base, data))
  {
    hide Pass, Settle;
    if |data| >= 2 {
      var z := [NO_STATUS, NO_STATUS, NO_STATUS];
      PassExtends(env, false, data[0], ases, base, data[2..], z, 0);
      var first := CheckWrite(env, false, ases, base, data, z);
      if first.verdict == Replied(SUCCESS) {
        PassExtends(env, true, data[0], first.ases, base, data[2..], first.sts, 0);
        var second := CheckWrite(env, true, first.ases, base, data, first.sts);
        ExtendsThen(ases, first.ases, second.ases);
        if second.verdict != Overran {
          SettleExtends(env, second.ases, base, second.sts, data[1], 0);
          ExtendsThen(ases, second.ases, Settle(env, second.ases, base, second.sts, data[1], 0));
        }
      }
    }
  }

  lemma RenewExtends(a: Ase, b: Ase)
    requires a.typ == b.typ
    ensures Extends(a, Renew(a, b))
  {
  }

  lemma ConnectExtends(ases: seq<Ase>, c: nat, acl: uint16)
    requires Shape(ases) && Typed(ases) && c < CONNECTIONS
    ensures AllExtend(ases, Connect(ases, c, acl)) && AllExtend(ases, Disconnect(ases, c))
  {
    hide Renew, Extends;
    var b := c * ASES;
    assert b % ASES == 0 && (b + 1) % ASES == 1 && (b + 2) % ASES == 2;
    RenewExtends(ases[b], FreshAse(0, acl));
    RenewExtends(ases[b + 1], FreshAse(1, acl));
    RenewExtends(ases[b + 2], FreshAse(2, acl));
    RenewExtends(ases[b], FreeAse(0));
    RenewExtends(ases[b + 1], FreeAse(1));
    RenewExtends(ases[b + 2], FreeAse(2));
    forall i | 0 <= i < |ases| ensures Extends(ases[i], ases[i]) {
      StaysExtended(ases[i]);
    }
  }

  lemma LoseExtends(ases: seq<Ase>, cig: byte, cis: byte, t: AseType)
    ensures AllExtend(ases, Lose(ases, cig, cis, t))
  {
    hide FindOnCis, OnCis;
  }

  /** No step takes anything out of a history, and types stay with their positions. */
  lemma StepExtends(ases: seq<Ase>, e: Event)
    requires Shape(ases) && Typed(ases) && Possible(e)
    ensures AllExtend(ases, Step(ases, e)) && Typed(Step(ases, e))
  {
    hide Write, Lose, Connect, Disconnect, FindOnCis, OnCis, SomeCisKnown;
    match e
    case Connected(c, acl) => ConnectExtends(ases, c, acl);
    case Disconnected(c) => ConnectExtends(ases, c, 0);
    case Written(c, data, env) => WriteExtends(env, ases, c * ASES, data);
    case CisDisconnected(cig, cis) =>
      LoseExtends(ases, cig, cis, Sink);
      LoseExtends(Lose(ases, cig, cis, Sink), cig, cis, Source);
      ExtendsThen(ases, Lose(ases, cig, cis, Sink), Step(ases, e));
    case _ => assert forall i | 0 <= i < |ases| :: Extends(ases[i], Step(ases, e)[i]);
  }

  // ---- every run ----

  lemma {:induction false} RunTyped(events: seq<Event>)
    requires forall e | e in events :: Possible(e)
    ensures Typed(Run(events))
  {
    hide Step;
    if events != [] {
      var n := |events| - 1;
      assert forall e | e in events[..n] :: e in events;
      RunTyped(events[..n]);
      StepExtends(Run(events[..n]), events[n]);
    }
  }

  /** In every run, of connections, of writes however malformed and of events in any order, every ASE is good: its
      history is an unbroken chain of moves the program can make, it holds QoS values in range in
      every state that uses them, and a codec configuration the PAC record accepts in every state but Idle; and a sink
      that streams without a Receiver Start Ready has its data path. */
  lemma {:induction false} EveryRunIsGood(events: seq<Event>)
    requires forall e | e in events :: Possible(e)
    ensures AllGood(Run(events))
  {
    hide Step, Typed;
    if events == [] {
      GoodFree(0);
      GoodFree(1);
      GoodFree(2);
    } else {
      var n := |events| - 1;
      assert forall e | e in events[..n] :: e in events;
      EveryRunIsGood(events[..n]);
      RunTyped(events[..n]);
      GoodStep(Run(events[..n]), events[n]);
    }
  }

  /** No reachable sink is in Disabling, and no state is the table's marker of forbidden entries. */
  lemma NoSinkDisables(events: seq<Event>, i: nat)
    requires (forall e | e in events :: Possible(e)) && i < CONNECTIONS * ASES
    ensures var a := Run(events)[i]; a.state != Max && (a.typ.Sink? ==> a.state != Disabling)
  {
    hide Run;
    EveryRunIsGood(events);
    var a := Run(events)[i];
    NeverMax(a.typ, a.hist, a.state);
  }

  /** In every run each move of every ASE is a transition of ASCS v1.0 by one who may initiate it, exactly unless it is
      one of the four deviations. */
  lemma EveryMoveAgainstSpec(events: seq<Event>, i: nat, k: nat)
    requires (forall e | e in events :: Possible(e)) && i < CONNECTIONS * ASES && k < |Run(events)[i].hist|
    ensures var a := Run(events)[i]; SpecEdge(a.typ, a.hist[k]) <==> !Deviation(a.typ, a.hist[k])
  {
    hide Run, SpecEdge, Deviation, Explains;
    EveryRunIsGood(events);
    var a := Run(events)[i];
    HistoryAgainstSpec(a.typ, a.hist, a.state, k);
  }

  /** The moves are all there is: a step of a run that changes the state of an ASE adds moves to its history, the first
      from the state it was in, the last to the state it ends in. */
  lemma EveryChangeIsAMove(events: seq<Event>, e: Event, i: nat)
    requires (forall x | x in events :: Possible(x)) && Possible(e) && i < CONNECTIONS * ASES
    ensures var a, b := Run(events)[i], Step(Run(events), e)[i];
      && a.hist <= b.hist
      && (a.state != b.state ==>
            |a.hist| < |b.hist| && b.hist[|a.hist|].from == a.state && b.hist[|b.hist| - 1].to == b.state)
  {
    hide Run, Step, Edge;
    EveryRunIsGood(events);
    RunTyped(events);
    StepExtends(Run(events), e);
    GoodStep(Run(events), e);
    var a, b := Run(events)[i], Step(Run(events), e)[i];
    assert Extends(a, b) && Good(b);
    Continues(a.typ, a.hist, a.state, b.hist, b.state);
  }

  lemma {:induction false} Continues(t: AseType, g: seq<Move>, s: State, h: seq<Move>, r: State)
    requires Explains(t, g, s) && Explains(t, h, r) && g <= h
    ensures if |g| == |h| then s == r else h[|g|].from == s && h[|h| - 1].to == r
    decreases |h|
  {
    hide Edge;
    if |g| < |h| {
      Continues(t, g, s, h[..|h| - 1], h[|h| - 1].from);
    } else {
      assert g == h;
    }
  }

  /** Every reachable ASE went through Config Codec, Config QoS and Enable in this order since it was last Idle, as far
      as its state calls for them. */
  lemma EveryRunConfiguresInOrder(events: seq<Event>, i: nat)
    requires (forall e | e in events :: Possible(e)) && i < CONNECTIONS * ASES
    ensures var a := Run(events)[i]; exists c, q, e :: Ordered(a.hist, a.state, c, q, e)
  {
    hide Run, Ordered;
    EveryRunIsGood(events);
    var a := Run(events)[i];
    var c, q, e := ConfiguredInOrder(a.typ, a.hist, a.state);
  }

  // ---- what a write leaves alone, and what it settles ----

  lemma {:induction false} PassStaysInConnection(env: Env, apply: bool, op: byte, ases: seq<Ase>, base: nat,
                                                 s: seq<byte>, sts: seq<Status>, k: nat, j: nat)
    requires base + ASES <= |ases| && |sts| == ASES && j < |ases| && !(base <= j < base + ASES)
    ensures Pass(env, apply, op, ases, base, s, sts, k).ases[j] == ases[j]
    decreases |s|
  {
    hide Handle, Pass;
    PassEnds(env, apply, op, ases, base, s, sts, k);
    if s != [] && k < ASES {
      var found := Find(ases, base, s[0], 0);
      if found.Some? {
        var i, st := found.value, sts[k].(aseId := s[0]);
        var h := Handle(env, apply, op, ases[i], s[1..], st, k);
        if h.flow.Continue? {
          PassContinues(env, apply, op, ases, base, s, sts, k, i);
          PassStaysInConnection(env, apply, op, ases[i := h.ase], base, s[1 + h.used..], sts[k := h.sts], k + 1, j);
        }
      }
    }
  }

  lemma {:induction false} SettleStaysInConnection(env: Env, ases: seq<Ase>, base: nat, sts: seq<Status>, n: nat,
                                                   i: nat, j: nat)
    requires base + ASES <= |ases| && i <= n <= |sts| && j < |ases| && !(base <= j < base + ASES)
    ensures Settle(env, ases, base, sts, n, i)[j] == ases[j]
    decreases n - i
  {
    hide SettleOne;
    if i < n {
      var found := Find(ases, base, sts[i].aseId, 0);
      var next := if found.Some? then ases[found.value := SettleOne(env, ases[found.value])] else ases;
      SettleStaysInConnection(env, next, base, sts, n, i + 1, j);
    }
  }

  /** Whatever one client writes, the ASEs of another connection do not change. */
  lemma WriteStaysInConnection(env: Env, ases: seq<Ase>, base: nat, data: seq<byte>, j: nat)
    requires base + ASES <= |ases| && j < |ases| && !(base <= j < base + ASES)
    ensures Write(env, ases, base, data)[j] == ases[j]
  {
    hide Pass, Settle;
    if |data| >= 2 {
      var z := [NO_STATUS, NO_STATUS, NO_STATUS];
      PassStaysInConnection(env, false, data[0], ases, base, data[2..], z, 0, j);
      var first := CheckWrite(env, false, ases, base, data, z);
      if first.verdict == Replied(SUCCESS) {
        PassStaysInConnection(env, true, data[0], first.ases, base, data[2..], first.sts, 0, j);
        var second := CheckWrite(env, true, first.ases, base, data, first.sts);
        if second.verdict != Overran {
          SettleStaysInConnection(env, second.ases, base, second.sts, data[1], 0, j);
        }
      }
    }
  }

  /** An ASE that waits for the end of a CIS which is not connected. */
  predicate Waits(env: Env, a: Ase) {
    !env.connected(a.cis) && a.state in {Releasing, Disabling}
  }

  lemma SettledOnce(env: Env, a: Ase)
    ensures var b := SettleOne(env, a); !Waits(env, b) && b.id == a.id && b.cis == a.cis && (b != a <==> Waits(env, a))
  {
  }

  /** After the settling none of the ASEs answered for waits for a CIS that is not there; no other ASE is touched. */
  lemma {:induction false} SettleLeavesNoneWaiting(env: Env, ases: seq<Ase>, base: nat, sts: seq<Status>, n: nat,
                                                   i: nat)
    requires base + ASES <= |ases| && i <= n <= |sts|
    ensures var r := Settle(env, ases, base, sts, n, i);
      && (forall j | 0 <= j < |ases| :: r[j].id == ases[j].id && (!Waits(env, ases[j]) ==> r[j] == ases[j]))
      && (forall k | i <= k < n && Find(ases, base, sts[k].aseId, 0).Some? ::
            !Waits(env, r[Find(ases, base, sts[k].aseId, 0).value]))
    decreases n - i
  {
    hide SettleOne, Waits, Find;
    if i < n {
      var found := Find(ases, base, sts[i].aseId, 0);
      var next := ases;
      if found.Some? {
        next := ases[found.value := SettleOne(env, ases[found.value])];
        SettledOnce(env, ases[found.value]);
      }
      SettleLeavesNoneWaiting(env, next, base, sts, n, i + 1);
      forall k | i <= k < n ensures Find(next, base, sts[k].aseId, 0) == Find(ases, base, sts[k].aseId, 0) {
        FindByIds(ases, next, base, sts[k].aseId, 0);
      }
    }
  }

  /** One of the statuses from the `k`-th on answers for ASE `i`. */
  predicate Answered(ases: seq<Ase>, base: nat, sts: seq<Status>, n: nat, k: nat, i: nat)
    requires base + ASES <= |ases| && n <= |sts|
  {
    exists j | k <= j < n :: Find(ases, base, sts[j].aseId, 0) == Some(i)
  }

  lemma {:induction false} SettlesAnswered(env: Env, ases: seq<Ase>, base: nat, sts: seq<Status>, n: nat, k: nat,
                                          i: nat)
    requires base + ASES <= |ases| && k <= n <= |sts| && i < |ases|
    ensures Settle(env, ases, base, sts, n, k)[i]
         == if Answered(ases, base, sts, n, k, i) then SettleOne(env, ases[i]) else ases[i]
    decreases n - k
  {
    hide SettleOne, Find;
    if k < n {
      var found := Find(ases, base, sts[k].aseId, 0);
      var next := ases;
      if found.Some? {
        next := ases[found.value := SettleOne(env, ases[found.value])];
        SettledOnce(env, ases[found.value]);
        SettledOnce(env, next[found.value]);
      }
      SettlesAnswered(env, next, base, sts, n, k + 1, i);
      forall j | k <= j < n ensures Find(next, base, sts[j].aseId, 0) == Find(ases, base, sts[j].aseId, 0) {
        FindByIds(ases, next, base, sts[j].aseId, 0);
      }
      assert Answered(ases, base, sts, n, k, i) <==> found == Some(i) || Answered(next, base, sts, n, k + 1, i);
    }
  }

  /** After an accepted write an ASE waits for a CIS that is not there exactly if the apply pass left it waiting and
      none of the announced number of statuses answers for it. */
  lemma WriteLeavesWaiting(env: Env, ases: seq<Ase>, base: nat, data: seq<byte>, i: nat)
    requires base + ASES <= |ases| && i < |ases|
    requires CheckWrite(env, false, ases, base, data, [NO_STATUS, NO_STATUS, NO_STATUS]).verdict == Replied(SUCCESS)
    ensures var f := CheckWrite(env, false, ases, base, data, [NO_STATUS, NO_STATUS, NO_STATUS]);
      var g := CheckWrite(env, true, f.ases, base, data, f.sts);
      var r := Write(env, ases, base, data);
      && |data| >= 2 && data[1] as nat <= ASES
      && (g.verdict == Overran ==> r == g.ases)
      && (g.verdict != Overran ==>
            && (Waits(env, r[i]) <==> Waits(env, g.ases[i]) && !Answered(g.ases, base, g.sts, data[1], 0, i))
            && (!Waits(env, g.ases[i]) ==> r[i] == g.ases[i]))
  {
    hide Pass, Settle, SettleOne, Waits, Answered;
    var f := CheckWrite(env, false, ases, base, data, [NO_STATUS, NO_STATUS, NO_STATUS]);
    var g := CheckWrite(env, true, f.ases, base, data, f.sts);
    if g.verdict != Overran {
      SettlesAnswered(env, g.ases, base, g.sts, data[1], 0, i);
      SettledOnce(env, g.ases[i]);
    }
  }

  /** Such a write: a Release with two entries that announces one is accepted, and the second ASE stays in Releasing. */
  lemma UnannouncedStaysReleasing(env: Env, ases: seq<Ase>, base: nat, i: nat, j: nat)
    requires base + ASES <= |ases| && i != j && i < |ases| && j < |ases|
    requires Find(ases, base, ases[i].id, 0) == Some(i) && Find(ases, base, ases[j].id, 0) == Some(j)
    requires ases[i].state == ases[j].state == QosConfigured
    requires !env.connected(ases[i].cis) && !env.connected(ases[j].cis)
    ensures var r := Write(env, ases, base, [RELEASE, 1, ases[i].id, ases[j].id]);
      r[i].state == Idle && r[j].state == Releasing
  {
    hide Pass, Find;
    var data, z := [RELEASE, 1, ases[i].id, ases[j].id], [NO_STATUS, NO_STATUS, NO_STATUS];
    var s, s' := [ases[i].id, ases[j].id], [ases[j].id];
    assert data[2..] == s && s[1..] == s' && s'[1..] == [];
    var st, st' := NO_STATUS.(aseId := ases[i].id), NO_STATUS.(aseId := ases[j].id);
    var z2 := z[0 := st][1 := st'];
    assert ases[i := ases[i]] == ases && ases[j := ases[j]] == ases;
    PassContinues(env, false, RELEASE, ases, base, s, z, 0, i);
    PassContinues(env, false, RELEASE, ases, base, s', z[0 := st], 1, j);
    PassEnds(env, false, RELEASE, ases, base, [], z2, 2);
    var one := ases[i := Assign(ases[i], Op(RELEASE), Releasing)];
    var two := one[j := Assign(ases[j], Op(RELEASE), Releasing)];
    assert z2[0 := st] == z2 && z2[1 := st'] == z2;
    FindByIds(ases, one, base, ases[j].id, 0);
    FindByIds(ases, two, base, ases[i].id, 0);
    PassContinues(env, true, RELEASE, ases, base, s, z2, 0, i);
    PassContinues(env, true, RELEASE, one, base, s', z2, 1, j);
    PassEnds(env, true, RELEASE, two, base, [], z2, 2);
  }
}
