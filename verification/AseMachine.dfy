/** The ASE state machine: the server's transition table, the moves the program can make, the machine of section 3 of
    ASCS v1.0 that they are measured against, and what a history of moves says about its past. */
module AseMachine {
  import opened AscsTypes
  import opened Bytes
  import opened Pacs

  /** `Max` marks the forbidden entries of the table. */
  datatype State =
    Idle | CodecConfigured | QosConfigured | Enabling | Streaming | Disabling | Releasing | Max

  function Table(s: State, op: byte): State
    requires op < OPCODE_MAX
  {
    match s
    case Idle => if op == CONFIG_CODEC then CodecConfigured else Max
    case CodecConfigured =>
      if op == CONFIG_CODEC then CodecConfigured
      else if op == CONFIG_QOS then QosConfigured
      else if op == RELEASE then Releasing
      else Max
    case QosConfigured =>
      if op == CONFIG_CODEC then CodecConfigured
      else if op == CONFIG_QOS then QosConfigured
      else if op == ENABLE then Enabling
      else if op == RELEASE then Releasing
      else Max
    case Enabling =>
      if op == RECEIVER_START_READY then Streaming
      else if op == DISABLE then Disabling
      else if op == UPDATE_METADATA then Enabling
      else if op == RELEASE then Releasing
      else Max
    case Streaming =>
      if op == DISABLE then Disabling
      else if op == UPDATE_METADATA then Streaming
      else if op == RELEASE then Releasing
      else Max
    case Disabling =>
      if op == RECEIVER_STOP_READY then QosConfigured
      else if op == RELEASE then Releasing
      else Max
    case Releasing => if op == RELEASE then Releasing else Max
    case Max => Max
  }

  /** The state an operation leads to, or `Max` where it is not allowed; a sink skips Disabling. */
  function Next(t: AseType, s: State, op: byte): State {
    if op == 0 || op >= OPCODE_MAX then Max
    else if Table(s, op) == Max then Max
    else if op == DISABLE && t.Sink? then QosConfigured
    else Table(s, op)
  }

  /** Why a state was assigned: an operation, a data path that came up, a lost CIS, no CIS to wait for, or a connection
      whose ASEs are cleared because it ends or is set up. */
  datatype Cause = Op(opcode: byte) | DataPathUp | CisLost | NoCis | Cleared

  datatype Move = Move(cause: Cause, from: State, to: State)

  /** The moves the program can make, collected from the table and the event handlers. */
  predicate Edge(t: AseType, m: Move) {
    match m.cause
    case DataPathUp => t.Sink? && m.from.Enabling? && m.to.Streaming?
    case CisLost =>
      || (m.from.Streaming? && m.to == if t.Sink? then QosConfigured else Disabling)
      || (m.from.Disabling? && m.to.QosConfigured?)
      || (m.from.Releasing? && m.to.Idle?)
    case NoCis => (m.from.Disabling? && m.to.QosConfigured?) || (m.from.Releasing? && m.to.Idle?)
    case Cleared => m.from !in {Idle, Max} && m.to.Idle?
    case Op(op) =>
      || (op == CONFIG_CODEC && m.from in {Idle, CodecConfigured, QosConfigured} && m.to.CodecConfigured?)
      || (op == CONFIG_QOS && m.from in {CodecConfigured, QosConfigured} && m.to.QosConfigured?)
      || (op == ENABLE && m.from.QosConfigured? && m.to.Enabling?)
      || (op == RECEIVER_START_READY && m.from.Enabling? && m.to.Streaming?)
      || (op == DISABLE && m.from in {Enabling, Streaming} && m.to == if t.Sink? then QosConfigured else Disabling)
      || (op == RECEIVER_STOP_READY && m.from.Disabling? && m.to.QosConfigured?)
      || (op == UPDATE_METADATA && m.from in {Enabling, Streaming} && m.to == m.from)
      || (op == RELEASE && m.from !in {Idle, Max} && m.to.Releasing?)
  }

  lemma TableMakesEdges(t: AseType, s: State, op: byte)
    requires Next(t, s, op) != Max
    ensures Edge(t, Move(Op(op), s, Next(t, s, op)))
  {
  }

  /** `h` leads from Idle to `s` along edges, without a gap. */
  predicate Explains(t: AseType, h: seq<Move>, s: State) {
    if h == [] then s.Idle?
    else
      var last := h[|h| - 1];
      last.to == s && Edge(t, last) && Explains(t, h[..|h| - 1], last.from)
  }

  lemma ExplainsMore(t: AseType, h: seq<Move>, m: Move)
    requires Explains(t, h, m.from) && Edge(t, m)
    ensures Explains(t, h + [m], m.to)
  {
    assert (h + [m])[..|h|] == h;
  }

  lemma {:induction false} NeverMax(t: AseType, h: seq<Move>, s: State)
    requires Explains(t, h, s)
    ensures s != Max && (t.Sink? ==> s != Disabling)
  {
    if h != [] {
      NeverMax(t, h[..|h| - 1], h[|h| - 1].from);
    }
  }

  /** `c` is the last Config Codec, `q` the last Config QoS, `e` the last Enable, in this order and without a visit to
      Idle since, as far as state `s` calls for them. */
  predicate Ordered(h: seq<Move>, s: State, c: nat, q: nat, e: nat) {
    && (s != Idle ==>
          && c < |h| && h[c].cause == Op(CONFIG_CODEC)
          && (forall m | c <= m < |h| :: h[m].to != Idle)
          && (forall m | c < m < |h| :: h[m].cause != Op(CONFIG_CODEC)))
    && (s in {QosConfigured, Enabling, Streaming, Disabling} ==>
          && c < q < |h| && h[q].cause == Op(CONFIG_QOS)
          && (forall m | q < m < |h| :: h[m].cause != Op(CONFIG_QOS)))
    && (s in {Enabling, Streaming, Disabling} ==>
          && q < e < |h| && h[e].cause == Op(ENABLE)
          && (forall m | e < m < |h| :: h[m].cause != Op(ENABLE)))
  }

  /** Whatever state an ASE is in, the operations that configured it happened in order, each after the last of the one
      before it: an ASE in Enabling or Streaming was enabled after its last Config QoS, which came after its last
      Config Codec, all since it was last Idle. */
  lemma {:induction false} ConfiguredInOrder(t: AseType, h: seq<Move>, s: State) returns (c: nat, q: nat, e: nat)
    requires Explains(t, h, s)
    ensures Ordered(h, s, c, q, e)
  {
    c, q, e := 0, 0, 0;
    if h != [] {
      var n := |h| - 1;
      var last := h[n];
      c, q, e := ConfiguredInOrder(t, h[..n], last.from);
      if last.cause == Op(CONFIG_CODEC) {
        c := n;
      } else if last.cause == Op(CONFIG_QOS) {
        q := n;
      } else if last.cause == Op(ENABLE) {
        e := n;
      }
    }
  }

  // ---- the machine of the standard ----

  datatype Operation =
    | ConfigCodec | ConfigQos | Enable | ReceiverStartReady | Disable | ReceiverStopReady | UpdateMetadata | Release
    | Released | CisLoss

  datatype Initiator = Client | Server

  /** Who may initiate an operation: a client signals that it is ready to receive only for a source, a server only for
      a sink; releasing ends on the server's side. */
  predicate MayInitiate(t: AseType, who: Initiator, o: Operation) {
    match o
    case ConfigQos => who.Client?
    case Enable => who.Client?
    case ReceiverStartReady => if t.Source? then who.Client? else who.Server?
    case ReceiverStopReady => t.Source? && who.Client?
    case Released => who.Server?
    case CisLoss => who.Server?
    case _ => true
  }

  /** The transitions of an ASE: only a source has Disabling, and a lost CIS leads to QoS Configured. */
  predicate Transition(t: AseType, from: State, o: Operation, to: State) {
    match from
    case Idle => o.ConfigCodec? && to.CodecConfigured?
    case CodecConfigured =>
      (o.ConfigCodec? && to.CodecConfigured?) || (o.ConfigQos? && to.QosConfigured?) || (o.Release? && to.Releasing?)
    case QosConfigured =>
      || (o.ConfigCodec? && to.CodecConfigured?) || (o.ConfigQos? && to.QosConfigured?)
      || (o.Enable? && to.Enabling?) || (o.Release? && to.Releasing?)
    case Enabling =>
      || (o.ReceiverStartReady? && to.Streaming?) || (o.UpdateMetadata? && to.Enabling?)
      || (o.Disable? && to == if t.Source? then Disabling else QosConfigured) || (o.Release? && to.Releasing?)
    case Streaming =>
      || (o.UpdateMetadata? && to.Streaming?) || (o.CisLoss? && to.QosConfigured?)
      || (o.Disable? && to == if t.Source? then Disabling else QosConfigured) || (o.Release? && to.Releasing?)
    case Disabling =>
      && t.Source?
      && (|| (o.ReceiverStopReady? && to.QosConfigured?) || (o.CisLoss? && to.QosConfigured?)
          || (o.Release? && to.Releasing?))
    case Releasing => o.Released? && to in {Idle, CodecConfigured}
    case Max => false
  }

  const CLIENT_OPERATIONS: map<byte, Operation> :=
    map[CONFIG_CODEC := ConfigCodec, CONFIG_QOS := ConfigQos, ENABLE := Enable,
        RECEIVER_START_READY := ReceiverStartReady, DISABLE := Disable, RECEIVER_STOP_READY := ReceiverStopReady,
        UPDATE_METADATA := UpdateMetadata, RELEASE := Release]

  /** The move is a transition of the standard, by one who may initiate it. A CIS that is not connected counts as lost;
      its end in Releasing is where the server performs Released, which is also the only way to Idle. */
  predicate SpecEdge(t: AseType, m: Move) {
    match m.cause
    case Op(op) =>
      && op in CLIENT_OPERATIONS && MayInitiate(t, Client, CLIENT_OPERATIONS[op])
      && Transition(t, m.from, CLIENT_OPERATIONS[op], m.to)
    case DataPathUp => MayInitiate(t, Server, ReceiverStartReady) && Transition(t, m.from, ReceiverStartReady, m.to)
    case Cleared => Transition(t, m.from, Released, m.to)
    case _ => Transition(t, m.from, if m.from.Releasing? then Released else CisLoss, m.to)
  }

  /** Where the program departs from the standard: a streaming source that loses its CIS goes to Disabling, a client
      may start a sink, a client may repeat a Release, and an ASE that is in use when its connection is cleared becomes
      idle without passing through Releasing. */
  predicate Deviation(t: AseType, m: Move) {
    || (t.Source? && m.cause.CisLost? && m.from.Streaming?)
    || (t.Sink? && m.cause == Op(RECEIVER_START_READY))
    || (m.cause == Op(RELEASE) && m.from.Releasing?)
    || (m.cause.Cleared? && m.from !in {Idle, Releasing})
  }

  lemma EdgeAgainstSpec(t: AseType, m: Move)
    requires Edge(t, m) && (t.Sink? ==> m.from != Disabling)
    ensures SpecEdge(t, m) <==> !Deviation(t, m)
  {
  }

  /** The table grants a client every operation the standard grants it, to the same end, and beyond these exactly the
      two deviations a client can cause. */
  lemma TableAgainstSpec(t: AseType, s: State, op: byte)
    requires s != Max && (t.Sink? ==> s != Disabling)
    ensures forall to :: SpecEdge(t, Move(Op(op), s, to)) ==> Next(t, s, op) == to
    ensures Next(t, s, op) != Max ==>
              var m := Move(Op(op), s, Next(t, s, op)); SpecEdge(t, m) <==> !Deviation(t, m)
    ensures Next(t, s, op) != Max && Deviation(t, Move(Op(op), s, Next(t, s, op))) <==>
            (op == RECEIVER_START_READY && t.Sink? && s.Enabling?) || (op == RELEASE && s.Releasing?)
  {
    if Next(t, s, op) != Max {
      TableMakesEdges(t, s, op);
      EdgeAgainstSpec(t, Move(Op(op), s, Next(t, s, op)));
    }
  }

  /** Every move of a history is one of the standard, or else one of the deviations. */
  lemma {:induction false} HistoryAgainstSpec(t: AseType, h: seq<Move>, s: State, i: nat)
    requires Explains(t, h, s) && i < |h|
    ensures SpecEdge(t, h[i]) <==> !Deviation(t, h[i])
    decreases |h|
  {
    hide SpecEdge, Deviation, Edge;
    var n := |h| - 1;
    NeverMax(t, h[..n], h[n].from);
    if i < n {
      HistoryAgainstSpec(t, h[..n], h[n].from, i);
    } else {
      EdgeAgainstSpec(t, h[n]);
    }
  }
}
