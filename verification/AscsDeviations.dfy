/** Runs from the start of the program in which an ASE leaves the machine of ASCS v1.0, one for each deviation. */
module AscsDeviations {
  import opened AscsEvents
  import opened AscsPayload
  import opened AscsRuns
  import opened AscsTypes
  import opened AseMachine
  import opened Bytes
  import opened CodecConfig
  import opened ControlPoint
  import opened CpRoundTrip
  import opened Metadata
  import opened Pacs

  /** A stack that knows every CIS as connected and sets up every data path. */
  const READY := Env((cig, cis, acl) => 1, k => true, handle => true, 0, 0)

  function TypeOf(i: int): AseType {
    if i < 2 then Sink else Source
  }

  function RequestFor(i: nat): Request
    requires i < ASES
  {
    Request(10 + i, CodecArgs(2, 2, LC3, 0, 0, NO_CSC), Qos(0, 0, 10000, 0, 2, 40, 2, 10, 40000),
            Meta(Contexts(0, 1), [], [], []), 40)
  }

  /** A client's command for one ASE of its connection. */
  function Command(c: nat, op: byte, i: nat): Event
    requires i < ASES
  {
    Written(c, CommandBytes(op, [RequestFor(i)]), READY)
  }

  lemma ShortCommand(i: nat)
    requires i < ASES
    ensures |MetadataCommand(RequestFor(i).id, RequestFor(i).meta, 40)| <= 257
  {
    hide LtvBytes;
    var a := ContextLtv(STREAMING_CONTEXTS, 1);
    assert FitIf(false, [10 + i, 0], ContextLtv(PREFERRED_CONTEXTS, 0), 40) == [10 + i, 0];
  }

  /** The request is acceptable wherever the operation is allowed. */
  lemma RequestAcceptable(op: byte, a: Ase, i: nat)
    requires i < ASES && Next(a.typ, a.state, op) != Max
    ensures Acceptable(READY, op, a, RequestFor(i))
  {
    hide RecordAccepts, MetadataCommand, Next;
    var r := RequestFor(i);
    assert Carried(r) == r;
    AcceptedExactly(a.typ, r.cc);
    ShortCommand(i);
    assert BitAnd(0, 0x7FF) == 0 && BitAnd(1, 0xFFF) == 1;
  }

  /** The ASEs of the connection are there and have their ids. */
  predicate Ready(ases: seq<Ase>, c: nat) {
    && Shape(ases) && c < CONNECTIONS
    && forall k | c * ASES <= k < c * ASES + ASES ::
         ases[k].id == 10 + (k - c * ASES) && ases[k].typ == TypeOf(k - c * ASES)
  }

  lemma Finds(ases: seq<Ase>, c: nat, i: nat)
    requires Ready(ases, c) && i < ASES
    ensures Find(ases, c * ASES, 10 + i, 0) == Some(c * ASES + i) && InUse(ases, c)
  {
    var b := c * ASES;
    assert ases[b + 0].id == 10 && ases[b + 1].id == 11 && ases[b + 2].id == 12;
    assert Find(ases, b, 10 + i, 3) == None;
    assert Find(ases, b, 10 + i, 2) == if i == 2 then Some(b + 2) else None;
    assert Find(ases, b, 10 + i, 1) == if i == 1 then Some(b + 1) else Find(ases, b, 10 + i, 2);
  }

  /** A command that is allowed moves its ASE along the table, and no other ASE of any connection. */
  lemma Advance(ases: seq<Ase>, c: nat, op: byte, i: nat)
    requires Ready(ases, c) && i < ASES
    requires Next(ases[c * ASES + i].typ, ases[c * ASES + i].state, op) != Max
    ensures var after, k := Step(ases, Command(c, op, i)), c * ASES + i;
      && Ready(after, c)
      && after[k].state == Next(ases[k].typ, ases[k].state, op)
      && after[k].hist == ases[k].hist + [Move(Op(op), ases[k].state, after[k].state)]
      && after[k].cis == (if op == CONFIG_QOS then 1 else ases[k].cis)
      && forall j | 0 <= j < |ases| && j != k :: after[j] == ases[j]
  {
    hide Step, Next, Find, Acceptable, CommandBytes, RequestFor, Granted;
    var rs, k := [RequestFor(i)], c * ASES + i;
    var t := [k];
    SingleRequest(i);
    Finds(ases, c, i);
    RequestAcceptable(op, ases[k], i);
    CommandWritten(READY, op, ases, c, rs, t);
    var after := Step(ases, Command(c, op, i));
    assert Served(READY, op, ases[t[0]], after[t[0]], rs[0]);
    ServedReady(op, ases[k], after[k], rs[0]);
    forall j | 0 <= j < |ases| && j != k ensures after[j] == ases[j] {
      assert j !in t;
    }
  }

  /** With every CIS connected there is nothing to go on to. */
  lemma ServedReady(op: byte, before: Ase, after: Ase, r: Request)
    requires Served(READY, op, before, after, r)
    ensures after.id == before.id && after.typ == before.typ && after.state == Next(before.typ, before.state, op)
    ensures after.hist == before.hist + [Move(Op(op), before.state, after.state)]
    ensures after.cis == if op == CONFIG_QOS then 1 else before.cis
  {
    hide Next, TakenOver, PreferencesFor, Carried, Merge;
    var g :| Granted(READY, op, true, before, g, r) && GoesOn(READY, g, after);
  }

  lemma SingleRequest(i: nat)
    requires i < ASES
    ensures RequestFor(i).id == 10 + i
  {
  }

  // ---- scripts of commands for one ASE ----

  function StateAfter(t: AseType, ops: seq<byte>): State {
    if ops == [] then Idle else Next(t, StateAfter(t, ops[..|ops| - 1]), ops[|ops| - 1])
  }

  /** The moves the operations are recorded as. */
  function MovesOf(t: AseType, ops: seq<byte>): (h: seq<Move>)
    ensures |h| == |ops|
  {
    if ops == [] then []
    else
      var rest, op := ops[..|ops| - 1], ops[|ops| - 1];
      MovesOf(t, rest) + [Move(Op(op), StateAfter(t, rest), StateAfter(t, ops))]
  }

  /** A client connects as connection `c` and writes the commands for one of its ASEs. */
  function Script(c: nat, i: nat, ops: seq<byte>): (r: seq<Event>)
    requires c < CONNECTIONS && i < ASES
    ensures |r| == |ops| + 1 && forall e | e in r :: Possible(e)
  {
    if ops == [] then [Connected(c, 1)] else Script(c, i, ops[..|ops| - 1]) + [Command(c, ops[|ops| - 1], i)]
  }

  lemma RunMore(events: seq<Event>, e: Event)
    requires (forall x | x in events :: Possible(x)) && Possible(e)
    ensures Run(events + [e]) == Step(Run(events), e)
  {
    assert (events + [e])[..|events|] == events;
  }

  lemma ScriptStarts(c: nat)
    requires c < CONNECTIONS
    ensures Run([Connected(c, 1)]) == Connect(Start(), c, 1) && Ready(Run([Connected(c, 1)]), c)
    ensures forall k | c * ASES <= k < c * ASES + ASES :: Run([Connected(c, 1)])[k] == FreshAse(k - c * ASES, 1)
  {
    assert [Connected(c, 1)][..0] == [];
    assert Run([Connected(c, 1)]) == Connect(Start(), c, 1);
  }

  lemma ReadyIdle(c: nat, i: nat)
    requires c < CONNECTIONS && i < ASES
    ensures var a := Run([Connected(c, 1)])[c * ASES + i]; a.state.Idle? && a.hist == []
  {
    hide Run;
    ScriptStarts(c);
  }

  /** The ASE is where the table says and its history is the operations; no other ASE has moved. */
  predicate Scripted(c: nat, i: nat, ops: seq<byte>, ases: seq<Ase>)
    requires c < CONNECTIONS && i < ASES
  {
    && Ready(ases, c)
    && (forall j | 0 <= j < |ases| && j != c * ASES + i :: ases[j] == Connect(Start(), c, 1)[j])
    && var a := ases[c * ASES + i];
       && a.state == StateAfter(TypeOf(i), ops) && a.hist == MovesOf(TypeOf(i), ops)
       && (a.state in {QosConfigured, Enabling, Streaming, Disabling} ==> a.cis == 1)
  }

  lemma ScriptMore(c: nat, i: nat, ops: seq<byte>, op: byte, ases: seq<Ase>)
    requires c < CONNECTIONS && i < ASES && Scripted(c, i, ops, ases)
    requires Next(TypeOf(i), StateAfter(TypeOf(i), ops), op) != Max
    ensures Scripted(c, i, ops + [op], Step(ases, Command(c, op, i)))
  {
    hide Step, Next, Connect, Start, StateAfter, MovesOf, Command;
    Last(TypeOf(i), ops, op);
    HistoryGrows(TypeOf(i), ops, op);
    TableSays(TypeOf(i), StateAfter(TypeOf(i), ops), op);
    Advance(ases, c, op, i);
  }

  lemma ScriptNone(c: nat, i: nat)
    requires c < CONNECTIONS && i < ASES
    ensures Scripted(c, i, [], Run([Connected(c, 1)]))
  {
    hide Run;
    ScriptStarts(c);
    ReadyIdle(c, i);
  }

  /** A script of allowed commands, on any connection, takes the ASE where the table says and is its whole history; no
      other ASE has moved. */
  lemma {:induction false} ScriptRuns(c: nat, i: nat, ops: seq<byte>)
    requires c < CONNECTIONS && i < ASES && StateAfter(TypeOf(i), ops) != Max
    ensures Scripted(c, i, ops, Run(Script(c, i, ops)))
  {
    hide Step, Next, Run, Scripted;
    ScriptNone(c, i);
    if ops != [] {
      var rest, op := ops[..|ops| - 1], ops[|ops| - 1];
      assert rest + [op] == ops;
      TableSays(TypeOf(i), StateAfter(TypeOf(i), rest), op);
      ScriptRuns(c, i, rest);
      RunMore(Script(c, i, rest), Command(c, op, i));
      ScriptMore(c, i, rest, op, Run(Script(c, i, rest)));
    }
  }

  /** An operation is allowed in no state but one of the machine, and only Config QoS leads to a state that uses QoS
      values from one that does not. */
  lemma TableSays(t: AseType, s: State, op: byte)
    requires Next(t, s, op) != Max
    ensures s != Max
    ensures var used := {QosConfigured, Enabling, Streaming, Disabling};
      Next(t, s, op) in used && op != CONFIG_QOS ==> s in used
  {
  }

  lemma Last(t: AseType, ops: seq<byte>, op: byte)
    ensures StateAfter(t, ops + [op]) == Next(t, StateAfter(t, ops), op) && (ops + [op])[..|ops|] == ops
  {
  }

  const TO_ENABLING: seq<byte> := [CONFIG_CODEC, CONFIG_QOS, ENABLE]
  const TO_STREAMING: seq<byte> := TO_ENABLING + [RECEIVER_START_READY]

  lemma Streams(t: AseType)
    ensures StateAfter(t, TO_ENABLING) == Enabling && StateAfter(t, TO_STREAMING) == Streaming
  {
    hide StateAfter;
    NoOps(t);
    Last(t, [], CONFIG_CODEC);
    Last(t, [CONFIG_CODEC], CONFIG_QOS);
    Last(t, [CONFIG_CODEC, CONFIG_QOS], ENABLE);
    Last(t, TO_ENABLING, RECEIVER_START_READY);
    assert [] + [CONFIG_CODEC] == [CONFIG_CODEC] && [CONFIG_CODEC] + [CONFIG_QOS] == [CONFIG_CODEC, CONFIG_QOS];
    assert [CONFIG_CODEC, CONFIG_QOS] + [ENABLE] == TO_ENABLING;
  }

  lemma NoOps(t: AseType)
    ensures StateAfter(t, []) == Idle
  {
  }

  lemma Releases(t: AseType)
    ensures StateAfter(t, [CONFIG_CODEC, RELEASE]) == Releasing
    ensures StateAfter(t, [CONFIG_CODEC, RELEASE, RELEASE]) == Releasing
  {
    hide StateAfter;
    NoOps(t);
    Last(t, [], CONFIG_CODEC);
    Last(t, [CONFIG_CODEC], RELEASE);
    Last(t, [CONFIG_CODEC, RELEASE], RELEASE);
    assert [] + [CONFIG_CODEC] == [CONFIG_CODEC] && [CONFIG_CODEC] + [RELEASE] == [CONFIG_CODEC, RELEASE];
    assert [CONFIG_CODEC, RELEASE] + [RELEASE] == [CONFIG_CODEC, RELEASE, RELEASE];
  }

  lemma HistoryGrows(t: AseType, ops: seq<byte>, op: byte)
    ensures MovesOf(t, ops + [op])
         == MovesOf(t, ops) + [Move(Op(op), StateAfter(t, ops), StateAfter(t, ops + [op]))]
  {
    assert (ops + [op])[..|ops|] == ops;
  }

  // ---- the deviations, on any connection ----

  /** The history of ASE `i` after the run holds the move, and it is no transition of the standard. */
  ghost predicate Departs(events: seq<Event>, i: nat, m: Move) {
    && (forall e | e in events :: Possible(e)) && i < CONNECTIONS * ASES
    && var a := Run(events)[i];
       m in a.hist && !SpecEdge(a.typ, m)
  }

  /** A client starts a sink. */
  lemma ClientStartsSink(c: nat)
    requires c < CONNECTIONS
    ensures Departs(Script(c, 0, TO_STREAMING), c * ASES, Move(Op(RECEIVER_START_READY), Enabling, Streaming))
  {
    hide Run, Script, StateAfter;
    Streams(Sink);
    ScriptRuns(c, 0, TO_STREAMING);
    HistoryGrows(Sink, TO_ENABLING, RECEIVER_START_READY);
  }

  /** A client repeats a Release. */
  lemma ClientReleasesAgain(c: nat)
    requires c < CONNECTIONS
    ensures Departs(Script(c, 0, [CONFIG_CODEC, RELEASE, RELEASE]), c * ASES, Move(Op(RELEASE), Releasing, Releasing))
  {
    hide Run, Script, StateAfter;
    var ops := [CONFIG_CODEC, RELEASE];
    Releases(Sink);
    assert ops + [RELEASE] == [CONFIG_CODEC, RELEASE, RELEASE];
    ScriptRuns(c, 0, ops + [RELEASE]);
    HistoryGrows(Sink, ops, RELEASE);
  }

  /** A streaming source loses its CIS: it is the first ASE coupled to it, since no other one is configured. */
  lemma SourceDisablesOnLoss(c: nat)
    requires c < CONNECTIONS
    ensures var events := Script(c, 2, TO_STREAMING);
      var qos := Run(events)[c * ASES + 2].qos;
      Departs(events + [CisDisconnected(qos.cig, qos.cis)], c * ASES + 2, Move(CisLost, Streaming, Disabling))
  {
    hide Run, Script, StateAfter, Step, Connect;
    Streams(Source);
    ScriptRuns(c, 2, TO_STREAMING);
    var events, k := Script(c, 2, TO_STREAMING), c * ASES + 2;
    var ases := Run(events);
    var qos := ases[k].qos;
    RunMore(events, CisDisconnected(qos.cig, qos.cis));
    LosingTheCis(ases, qos.cig, qos.cis, k);
    OthersIdle(c);
    assert FirstCoupled(ases, k, qos.cig, qos.cis);
  }

  lemma OthersIdle(c: nat)
    requires c < CONNECTIONS
    ensures forall j | 0 <= j < CONNECTIONS * ASES :: Connect(Start(), c, 1)[j].state.Idle?
  {
  }

  /** The connection of a streaming ASE ends. */
  lemma ClearedWhileStreaming(c: nat)
    requires c < CONNECTIONS
    ensures Departs(Script(c, 0, TO_STREAMING) + [Disconnected(c)], c * ASES, Move(Cleared, Streaming, Idle))
  {
    hide Run, Script, StateAfter, Step;
    Streams(Sink);
    ScriptRuns(c, 0, TO_STREAMING);
    RunMore(Script(c, 0, TO_STREAMING), Disconnected(c));
    DisconnectingClearsAses(Run(Script(c, 0, TO_STREAMING)), c, c * ASES);
    RunTyped(Script(c, 0, TO_STREAMING) + [Disconnected(c)]);
  }

  // ---- a sink that streams without its client's word ----

  /** The whole history of a sink that a client enables and whose data path then comes up: it streams, and there was no
      Receiver Start Ready. */
  lemma SinkStreamsByDataPath(c: nat)
    requires c < CONNECTIONS
    ensures var events := Script(c, 0, TO_ENABLING) + [DataPathSetup(true, true, c * ASES, READY)];
      && (forall e | e in events :: Possible(e))
      && var a := Run(events)[c * ASES];
         && a.typ == Sink && a.state == Streaming && a.dataPath
         && a.hist == MovesOf(Sink, TO_ENABLING) + [Move(DataPathUp, Enabling, Streaming)]
         && NoStartReady(a.hist)
  {
    hide Run, Script, StateAfter, Step;
    Streams(Sink);
    ScriptRuns(c, 0, TO_ENABLING);
    var ases, e := Run(Script(c, 0, TO_ENABLING)), DataPathSetup(true, true, c * ASES, READY);
    RunMore(Script(c, 0, TO_ENABLING), e);
    assert HoldsHandle(READY, ases[c * ASES]);
    DataPathComesUp(ases, true, true, c * ASES, READY);
    NoneStarts(Sink, TO_ENABLING);
    var h := MovesOf(Sink, TO_ENABLING);
    assert (h + [Move(DataPathUp, Enabling, Streaming)])[..|h|] == h;
  }

  lemma {:induction false} NoneStarts(t: AseType, ops: seq<byte>)
    requires RECEIVER_START_READY !in ops
    ensures NoStartReady(MovesOf(t, ops))
  {
    hide StateAfter;
    if ops != [] {
      var n := |ops| - 1;
      assert ops[n] in ops && forall op | op in ops[..n] :: op in ops;
      NoneStarts(t, ops[..n]);
      var h := MovesOf(t, ops);
      assert h[..n] == MovesOf(t, ops[..n]);
    }
  }
}
