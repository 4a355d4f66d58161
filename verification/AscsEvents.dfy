/** What each event does to each ASE of the server, field by field: the writes of every connection, the isochronous
    channels and their data paths, and the connections themselves. */
module AscsEvents {
  import opened AscsPayload
  import opened AscsRuns
  import opened AscsTypes
  import opened AseMachine
  import opened Bytes
  import opened CodecConfig
  import opened ControlPoint
  import opened CpRoundTrip
  import opened Metadata
  import opened Pacs
  import opened TwoPass

  // ---- connections ----

  const NO_CODEC := CodecArgs(0, 0, 0, 0, 0, Csc(0, 0, 0, 0, 0))
  const NO_PREFERENCES := Preferences(0, 0, 0, 0, 0, 0)

  /** What becomes of the history of an ASE that is overwritten. */
  function HistoryCleared(a: Ase): seq<Move> {
    if a.state == Idle then a.hist else a.hist + [Move(Cleared, a.state, Idle)]
  }

  /** The three ASEs of a new connection: two sinks and a source with the ids 10 to 12, idle, with the CIG and CIS that
      stand for none; no other ASE changes. */
  lemma ConnectingGivesAses(ases: seq<Ase>, c: nat, acl: uint16, i: nat)
    requires Shape(ases) && c < CONNECTIONS && i < |ases|
    ensures var a := Step(ases, Connected(c, acl))[i];
      if c * ASES <= i < c * ASES + ASES then
        a == Ase(10 + (i - c * ASES), if i == c * ASES + 2 then Source else Sink, Idle, NO_CODEC, NO_PREFERENCES,
                 Qos(0xFF, 0xFF, 0, 0, 0, 0, 0, 0, 0), Contexts(0, 0), acl, 0, false, HistoryCleared(ases[i]))
      else a == ases[i]
  {
  }

  /** A connection that ends has no ASEs: their ids are zero, so that none is found; no other ASE changes. */
  lemma DisconnectingClearsAses(ases: seq<Ase>, c: nat, i: nat)
    requires Shape(ases) && c < CONNECTIONS && i < |ases|
    ensures var a := Step(ases, Disconnected(c))[i];
      if c * ASES <= i < c * ASES + ASES then
        a == Ase(0, a.typ, Idle, NO_CODEC, NO_PREFERENCES, Qos(0, 0, 0, 0, 0, 0, 0, 0, 0), Contexts(0, 0), 0, 0, false,
                 HistoryCleared(ases[i]))
      else a == ases[i]
    ensures !InUse(Step(ases, Disconnected(c)), c)
  {
  }

  // ---- writes ----

  /** Whatever a client writes, it reaches no ASE of another connection, and none at all if its own is not in use. */
  lemma WrittenStaysInConnection(ases: seq<Ase>, c: nat, data: seq<byte>, env: Env, j: nat)
    requires Shape(ases) && c < CONNECTIONS && j < |ases|
    ensures !(c * ASES <= j < c * ASES + ASES) || ases[c * ASES].id == 0 ==>
              Step(ases, Written(c, data, env))[j] == ases[j]
  {
    hide Write;
    if !(c * ASES <= j < c * ASES + ASES) {
      WriteStaysInConnection(env, ases, c * ASES, data, j);
    }
  }

  /** An ASE that has nothing to wait for, since its CIS is not connected, goes on to the state behind Releasing or
      Disabling. */
  predicate GoesOn(env: Env, a: Ase, b: Ase) {
    if env.connected(a.cis) || a.state !in {Releasing, Disabling} then b == a
    else
      var to := if a.state == Releasing then Idle else QosConfigured;
      b == a.(state := to, hist := a.hist + [Move(NoCis, a.state, to)])
  }

  /** The ASE holds what its entry carries, in the state the operation leads to or the one behind it. */
  ghost predicate Served(env: Env, op: byte, before: Ase, after: Ase, r: Request) {
    exists g :: Granted(env, op, true, before, g, r) && GoesOn(env, g, after)
  }

  /** A command a client of any connection builds and writes: every ASE of this connection that it names is served, and
      no other ASE, of this connection or another, changes. */
  lemma CommandWritten(env: Env, op: byte, ases: seq<Ase>, c: nat, rs: seq<Request>, t: seq<nat>)
    requires Shape(ases) && c < CONNECTIONS && InUse(ases, c) && 1 <= |rs| <= ASES
    requires Names(ases, c * ASES, rs, t) && AllAcceptable(env, op, ases, rs, t)
    requires forall j | 0 <= j < ASES :: env.setupOk(j)
    ensures var after := Step(ases, Written(c, CommandBytes(op, rs), env));
      && (forall m | 0 <= m < |rs| ::
            && c * ASES <= t[m] < c * ASES + ASES && ases[t[m]].id == rs[m].id
            && Served(env, op, ases[t[m]], after[t[m]], rs[m]))
      && (forall i | 0 <= i < |ases| && i !in t :: after[i] == ases[i])
  {
    hide CheckWrite, Settle, SettleOne, Find, Granted, Acceptable, AllAcceptable, CommandBytes;
    CommandUnderstood(env, op, ases, c * ASES, rs, t);
    var data, z, base := CommandBytes(op, rs), [NO_STATUS, NO_STATUS, NO_STATUS], c * ASES;
    CommandSize(op, rs);
    var f := CheckWrite(env, false, ases, base, data, z);
    var g := CheckWrite(env, true, f.ases, base, data, f.sts);
    forall i | 0 <= i < |ases|
      ensures AscsRuns.Answered(g.ases, base, g.sts, |rs|, 0, i) <==> i in t
      ensures Settle(env, g.ases, base, g.sts, |rs|, 0)[i] == if i in t then SettleOne(env, g.ases[i]) else ases[i]
    {
      NamedAreAnswered(env, op, ases, g.ases, base, rs, t, g.sts, i);
      SettlesAnswered(env, g.ases, base, g.sts, |rs|, 0, i);
    }
    var after := Step(ases, Written(c, data, env));
    assert after == Settle(env, g.ases, base, g.sts, |rs|, 0);
    forall m | 0 <= m < |rs|
      ensures c * ASES <= t[m] < c * ASES + ASES && ases[t[m]].id == rs[m].id
      ensures Served(env, op, ases[t[m]], after[t[m]], rs[m])
    {
      assert Find(ases, base, rs[m].id, 0) == Some(t[m]);
      Settles(env, g.ases[t[m]]);
      assert Granted(env, op, true, ases[t[m]], g.ases[t[m]], rs[m]);
    }
  }

  lemma Settles(env: Env, a: Ase)
    ensures GoesOn(env, a, SettleOne(env, a))
  {
  }

  lemma CommandSize(op: byte, rs: seq<Request>)
    requires |rs| < 256
    ensures |CommandBytes(op, rs)| >= 2 && CommandBytes(op, rs)[1] == |rs|
  {
  }

  /** The statuses of a command answer for the ASEs it names. */
  lemma NamedAreAnswered(env: Env, op: byte, ases: seq<Ase>, after: seq<Ase>, base: nat, rs: seq<Request>, t: seq<nat>,
                         sts: seq<Status>, i: nat)
    requires base + ASES <= |ases| && |rs| <= |sts| && i < |ases|
    requires Names(ases, base, rs, t) && AllGranted(env, op, true, ases, after, rs, t)
    requires forall m | 0 <= m < |rs| :: sts[m].aseId == rs[m].id
    ensures AscsRuns.Answered(after, base, sts, |rs|, 0, i) <==> i in t
  {
    hide Find, Granted;
    forall j | 0 <= j < |ases| ensures ases[j].id == after[j].id {
      if j in t {
        var m :| 0 <= m < |t| && t[m] == j;
        assert Granted(env, op, true, ases[t[m]], after[t[m]], rs[m]);
        GrantedKeepsId(env, op, true, ases[j], after[j], rs[m]);
      }
    }
    forall m | 0 <= m < |rs| ensures Find(after, base, sts[m].aseId, 0) == Some(t[m]) {
      assert Find(ases, base, rs[m].id, 0) == Some(t[m]);
      FindByIds(ases, after, base, rs[m].id, 0);
    }
    if i in t {
      var m :| 0 <= m < |t| && t[m] == i;
      assert Find(after, base, sts[m].aseId, 0) == Some(i);
    }
  }

  // ---- isochronous channels ----

  /** The ASE has been configured for the CIS. */
  predicate Coupled(a: Ase, cig: byte, cis: byte) {
    a.state !in {Idle, CodecConfigured} && a.qos.cig == cig && a.qos.cis == cis
  }

  /** No earlier ASE of the same direction, of any connection, is coupled to the CIS: the look-up does not compare the
      ACL connection. */
  predicate FirstCoupled(ases: seq<Ase>, i: nat, cig: byte, cis: byte)
    requires i < |ases|
  {
    && Coupled(ases[i], cig, cis)
    && forall j | 0 <= j < i && ases[j].typ == ases[i].typ :: !Coupled(ases[j], cig, cis)
  }

  lemma {:induction false} FindsFrom(ases: seq<Ase>, cig: byte, cis: byte, t: AseType, i: nat, from: nat)
    requires from <= i < |ases| && ases[i].typ == t
    requires forall j | 0 <= j < from && ases[j].typ == t :: !Coupled(ases[j], cig, cis)
    ensures FindOnCis(ases, cig, cis, t, from) == Some(i) <==> FirstCoupled(ases, i, cig, cis)
    decreases i - from
  {
    if from < i {
      if OnCis(ases[from], cig, cis, t) {
        assert Coupled(ases[from], cig, cis);
      } else {
        FindsFrom(ases, cig, cis, t, i, from + 1);
      }
    }
  }

  /** The look-up for one direction finds the first ASE of this direction. */
  lemma FindsFirstCoupled(ases: seq<Ase>, cig: byte, cis: byte, t: AseType, i: nat)
    requires i < |ases|
    ensures FindOnCis(ases, cig, cis, t, 0) == Some(i) <==> ases[i].typ == t && FirstCoupled(ases, i, cig, cis)
  {
    hide FirstCoupled;
    if ases[i].typ == t {
      FindsFrom(ases, cig, cis, t, i, 0);
    }
  }

  /** What changes in an ASE of the other direction does not matter. */
  lemma FirstKept(ases: seq<Ase>, i: nat, j: nat, a: Ase, cig: byte, cis: byte)
    requires i < |ases| && j < |ases| && ases[j].typ != ases[i].typ && a.typ == ases[j].typ
    ensures FirstCoupled(ases[j := a], i, cig, cis) == FirstCoupled(ases, i, cig, cis)
  {
    var after := ases[j := a];
    assert forall k | 0 <= k < |ases| && ases[k].typ == ases[i].typ :: after[k] == ases[k];
    assert forall k | 0 <= k < |ases| :: after[k].typ == ases[k].typ;
  }

  lemma BindsFirst(ases: seq<Ase>, cig: byte, cis: byte, t: AseType, handle: uint16, i: nat)
    requires i < |ases|
    ensures var r := Bind(ases, cig, cis, t, handle);
      && r[i] == (if ases[i].typ == t && FirstCoupled(ases, i, cig, cis) then ases[i].(cis := handle) else ases[i])
      && (ases[i].typ != t ==> FirstCoupled(r, i, cig, cis) == FirstCoupled(ases, i, cig, cis))
  {
    hide FirstCoupled;
    FindsFirstCoupled(ases, cig, cis, t, i);
    var found := FindOnCis(ases, cig, cis, t, 0);
    if ases[i].typ != t && found.Some? {
      FirstKept(ases, i, found.value, ases[found.value].(cis := handle), cig, cis);
    }
  }

  /** A CIS that is requested gives its handle to the first sink coupled to it, and to no other ASE. */
  lemma RequestBinds(ases: seq<Ase>, cig: byte, cis: byte, handle: uint16, i: nat)
    requires Shape(ases) && i < |ases|
    ensures Step(ases, CisRequest(cig, cis, handle))[i]
         == if ases[i].typ == Sink && FirstCoupled(ases, i, cig, cis) then ases[i].(cis := handle) else ases[i]
  {
    hide Bind, FirstCoupled;
    BindsFirst(ases, cig, cis, Sink, handle, i);
  }

  /** An established CIS gives its handle to the first ASE of each direction coupled to it, and to no other; one that
      failed changes nothing. */
  lemma EstablishedBinds(ases: seq<Ase>, ok: bool, cig: byte, cis: byte, handle: uint16, i: nat)
    requires Shape(ases) && i < |ases|
    ensures Step(ases, CisEstablished(ok, cig, cis, handle))[i]
         == if ok && FirstCoupled(ases, i, cig, cis) then ases[i].(cis := handle) else ases[i]
  {
    hide Bind, FirstCoupled;
    BindsFirst(ases, cig, cis, Sink, handle, i);
    BindsFirst(Bind(ases, cig, cis, Sink, handle), cig, cis, Source, handle, i);
  }

  /** What the loss of its CIS does to an ASE: its data path is gone; it leaves Releasing for Idle, without its CIG and
      CIS, and Disabling for QoS Configured; streaming, a sink falls back to QoS Configured and a source starts
      disabling; in any other state it stays, and nothing else changes. */
  predicate Lost(a: Ase, b: Ase) {
    && !b.dataPath
    && b.state == (match a.state
                   case Releasing => Idle
                   case Disabling => QosConfigured
                   case Streaming => if a.typ == Sink then QosConfigured else Disabling
                   case s => s)
    && b.hist == (if a.state in {Releasing, Disabling, Streaming} then a.hist + [Move(CisLost, a.state, b.state)]
                  else a.hist)
    && b.qos == (if a.state == Releasing then a.qos.(cig := 0xFF, cis := 0xFF) else a.qos)
    && b == a.(dataPath := b.dataPath, state := b.state, hist := b.hist, qos := b.qos)
  }

  lemma LosesCis(a: Ase)
    ensures Lost(a, LoseCis(a)) && LoseCis(a).typ == a.typ
  {
  }

  lemma LosesFirst(ases: seq<Ase>, cig: byte, cis: byte, t: AseType, i: nat)
    requires i < |ases|
    ensures var r := Lose(ases, cig, cis, t);
      && (if ases[i].typ == t && FirstCoupled(ases, i, cig, cis) then Lost(ases[i], r[i]) else r[i] == ases[i])
      && (ases[i].typ != t ==> FirstCoupled(r, i, cig, cis) == FirstCoupled(ases, i, cig, cis))
      && r[i].typ == ases[i].typ
  {
    hide FirstCoupled, LoseCis, Lost;
    FindsFirstCoupled(ases, cig, cis, t, i);
    LosesCis(ases[i]);
    var found := FindOnCis(ases, cig, cis, t, 0);
    if ases[i].typ != t && found.Some? {
      LosesCis(ases[found.value]);
      FirstKept(ases, i, found.value, LoseCis(ases[found.value]), cig, cis);
    }
  }

  /** A CIS that is disconnected is lost to the first ASE of each direction coupled to it; any other ASE stays as it
      is. */
  lemma LosingTheCis(ases: seq<Ase>, cig: byte, cis: byte, i: nat)
    requires Shape(ases) && i < |ases|
    ensures var b := Step(ases, CisDisconnected(cig, cis))[i];
      if FirstCoupled(ases, i, cig, cis) then Lost(ases[i], b) else b == ases[i]
  {
    hide FirstCoupled, Lose, Lost;
    LosesFirst(ases, cig, cis, Sink, i);
    LosesFirst(Lose(ases, cig, cis, Sink), cig, cis, Source, i);
  }

  // ---- data paths ----

  /** The stack knows the ASE's CIS under the handle it holds. */
  predicate HoldsHandle(env: Env, a: Ase) {
    a.state !in {Idle, CodecConfigured} && a.cis == env.cisHandle(a.qos.cig, a.qos.cis, a.acl)
  }

  /** A data path that is set up for ASE `i` on a connected CIS, while some ASE holds the handle of a known one: a sink
      in Enabling streams, any other ASE `i` stays in its state, and no other ASE changes. Without one of these
      conditions nothing changes. */
  lemma DataPathComesUp(ases: seq<Ase>, ok: bool, connected: bool, i: nat, env: Env)
    requires Shape(ases) && i < |ases|
    ensures var after := Step(ases, DataPathSetup(ok, connected, i, env));
      var a, b := ases[i], after[i];
      && (forall j | 0 <= j < |ases| && j != i :: after[j] == ases[j])
      && if ok && connected && exists k :: 0 <= k < |ases| && HoldsHandle(env, ases[k]) then
           && b.dataPath
           && (if a.typ == Sink && a.state == Enabling then
                 b.state == Streaming && b.hist == a.hist + [Move(DataPathUp, Enabling, Streaming)]
               else b.state == a.state && b.hist == a.hist)
           && b == a.(dataPath := b.dataPath, state := b.state, hist := b.hist)
         else b == a
  {
    hide DataPath;
    PathUp(ases[i]);
    forall k | 0 <= k < |ases| ensures CisKnown(env, ases[k]) <==> HoldsHandle(env, ases[k]) {
    }
  }

  lemma PathUp(a: Ase)
    ensures var b := DataPath(a);
      && b.dataPath
      && (if a.typ == Sink && a.state == Enabling then
            b.state == Streaming && b.hist == a.hist + [Move(DataPathUp, Enabling, Streaming)]
          else b.state == a.state && b.hist == a.hist)
      && b == a.(dataPath := b.dataPath, state := b.state, hist := b.hist)
  {
  }
}
