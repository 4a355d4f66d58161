/** The server as the program has it: ASEs in an array, updated in place by the control point and by events. Every
    method is tied to a step of `ControlPoint` or `AscsRuns`. */
module AscsServer {
  import opened AscsPayload
  import opened AscsRuns
  import opened AscsTypes
  import opened AseMachine
  import opened Bytes
  import opened CodecConfig
  import opened ControlPoint
  import opened Metadata
  import opened Pacs

  method ParseMetadataStream(data: seq<byte>, start: nat, c: Contexts, sts: Status) returns (r: MetaParse)
    requires start <= |data|
    ensures r == ParseMetadata(data[start..], c, sts)
  {
    hide GetMetadata;
    if start == |data| {
      return MetaParsed(c, 0, sts.(code := INVALID_LENGTH, reason := NOT_APPLICABLE));
    }
    if data[start] > |data| - start - 1 {
      return MetaParsed(c, 1, sts.(code := INVALID_LENGTH, reason := NOT_APPLICABLE));
    }
    assert data[start..][1..] == data[start + 1..];
    var m := GetMetadataStream(data, start + 1, data[start], c);
    r := if m.outcome == Metadata.Overrun then MetaOverrun else MetaParsed(m.contexts, data[start] as int + 1, sts);
  }

  class Server {
    const ases: array<Ase>

    ghost predicate Valid()
      reads this
    {
      ases.Length == CONNECTIONS * ASES
    }

    constructor ()
      ensures Valid() && fresh(ases) && ases[..] == Start()
    {
      var start := Start();
      ases := new Ase[CONNECTIONS * ASES](i requires 0 <= i < CONNECTIONS * ASES => start[i]);
      new;
      assert ases[..] == Start();
    }

    method InitLocalAseData(c: nat, acl: uint16)
      requires Valid() && c < CONNECTIONS
      modifies ases
      ensures ases[..] == Step(old(ases[..]), Connected(c, acl))
    {
      hide Renew, FreshAse, Connect;
      var i := 0;
      while i < ASES
        invariant 0 <= i <= ASES
        invariant forall j | 0 <= j < ases.Length ::
                    ases[j] == if c * ASES <= j < c * ASES + i then Renew(old(ases[j]), FreshAse(j - c * ASES, acl))
                               else old(ases[j])
      {
        ases[c * ASES + i] := Renew(ases[c * ASES + i], FreshAse(i, acl));
        i := i + 1;
      }
      ConnectIs(old(ases[..]), ases[..], c, acl);
    }

    method FreeConnection(c: nat)
      requires Valid() && c < CONNECTIONS
      modifies ases
      ensures ases[..] == Step(old(ases[..]), Disconnected(c))
    {
      hide Renew, FreeAse, Disconnect;
      var i := 0;
      while i < ASES
        invariant 0 <= i <= ASES
        invariant forall j | 0 <= j < ases.Length ::
                    ases[j] == if c * ASES <= j < c * ASES + i then Renew(old(ases[j]), FreeAse(j - c * ASES))
                               else old(ases[j])
      {
        ases[c * ASES + i] := Renew(ases[c * ASES + i], FreeAse(i));
        i := i + 1;
      }
      DisconnectIs(old(ases[..]), ases[..], c);
    }

    method FindAse(c: nat, id: byte) returns (r: Option<nat>)
      requires Valid() && c < CONNECTIONS
      ensures r == Find(ases[..], c * ASES, id, 0)
    {
      var i := 0;
      while i < ASES
        invariant 0 <= i <= ASES
        invariant Find(ases[..], c * ASES, id, i) == Find(ases[..], c * ASES, id, 0)
      {
        if ases[c * ASES + i].id == id {
          return Some(c * ASES + i);
        }
        i := i + 1;
      }
      r := None;
    }

    // ---- the control point ----

    /** The configuration is taken over, with a channel allocation if it has none, and then the preferences are set. */
    method ConfigureAse(i: nat, cc: CodecArgs)
      requires Valid() && i < ases.Length
      modifies ases
      ensures ases[..] == old(ases[..])[i := Configure(old(ases[i]), cc)]
    {
      var c := cc;
      if c.csc.alloc == 0 {
        c := c.(csc := c.csc.(alloc := 1));
      }
      ases[i] := ases[i].(codec := c);
      var p := Preferences(0, 2, 1, 20, 10000, 10000);
      if c.latency == 1 {
        p := p.(maxTransportLatency := if c.csc.dur == 7500 then 15 else 20);
        if ases[i].typ.Source? {
          p := p.(maxDelay := 60000, preferredMaxDelay := 60000);
        }
      } else {
        p := p.(maxTransportLatency := 0x64, maxDelay := 40000, retransmissions := 4, preferredMaxDelay := 40000);
      }
      if c.csc.freq == 44100 {
        p := p.(framing := 1);
      }
      ases[i] := ases[i].(preferences := p);
    }

    /** The entry at the cursor `p`, behind its ASE id. */
    method HandleEntry(env: Env, apply: bool, op: byte, i: nat, data: seq<byte>, p: nat, sts: array<Status>, k: nat)
      returns (q: nat, flow: Flow)
      requires Valid() && i < ases.Length && p <= |data| && k < sts.Length
      modifies ases, sts
      ensures var h := Handle(env, apply, op, old(ases[i]), data[p..], old(sts[k]), k);
        && ases[..] == old(ases[..])[i := h.ase]
        && sts[..] == old(sts[..])[k := h.sts]
        && q == p + h.used && flow == h.flow
    {
      hide ParseCodecConfig, ParseConfigQos, ParseMetadata, VerifyContext, VerifyCodecConfig, Configure, Next;
      q := p;
      var a := ases[i];
      var next := Next(a.typ, a.state, op);
      if next == Max {
        sts[k] := sts[k].(code := INVALID_TRANSITION);
        return q, Return(INVALID_TRANSITION);
      }
      if op == CONFIG_CODEC {
        var r := ParseCodecConfigStream(data, p, sts[k]);
        if r.CodecOverrun? {
          return q, Undefined;
        }
        q, sts[k] := p + r.used, r.sts;
        if sts[k].code != SUCCESS {
          return q, Return(sts[k].code);
        }
        var ok := VerifyAudioConfig(a.typ, if a.typ.Sink? then env.sinkLocations else env.sourceLocations, r.cc);
        if !ok {
          sts[k] := sts[k].(code := UNSUPPORTED_CONFIGURATION, reason := REASON_CODEC_SPECIFIC_CONFIGURATION);
          return q, Return(UNSUPPORTED_CONFIGURATION);
        }
        if apply {
          ConfigureAse(i, r.cc);
        }
      } else if op == CONFIG_QOS {
        var r := ParseConfigQos(data[p..], sts[k]);
        q, sts[k] := p + r.used, r.sts;
        if sts[k].code == SUCCESS {
          ases[i] := a.(qos := r.qos, cis := env.cisHandle(r.qos.cig, r.qos.cis, a.acl));
        }
      } else if op == ENABLE || op == UPDATE_METADATA {
        var r := ParseMetadataStream(data, p, a.contexts, sts[k]);
        if r.MetaOverrun? {
          return q, Undefined;
        }
        q, sts[k], ases[i] := p + r.used, r.sts, a.(contexts := r.contexts);
        if !VerifyContext(r.contexts.streaming) {
          sts[k] := sts[k].(code := UNSUPPORTED_METADATA, reason := NOT_APPLICABLE);
          return q, Return(UNSUPPORTED_METADATA);
        }
      } else if op == RECEIVER_START_READY && apply && !env.setupOk(k) {
        return q, SetupFailed;
      }
      if sts[k].code == INVALID_LENGTH {
        return q, Return(INVALID_LENGTH);
      }
      if sts[k].code == SUCCESS && apply {
        ases[i] := Assign(ases[i], Op(op), next);
      }
      flow := Continue;
    }

    /** One pass over a write: the entries are handled in turn until the octets are used up. */
    method CheckWriteReq(env: Env, apply: bool, c: nat, data: seq<byte>, sts: array<Status>) returns (v: Verdict)
      requires Valid() && c < CONNECTIONS && sts.Length == ASES
      modifies ases, sts
      ensures PassOut(ases[..], sts[..], v) == CheckWrite(env, apply, old(ases[..]), c * ASES, data, old(sts[..]))
    {
      hide Handle, Pass;
      if |data| < 2 {
        return Overran;
      }
      var op, numAses := data[0], data[1];
      if op > OPCODE_MAX {
        return Replied(UNSUPPORTED_OPCODE);
      }
      if numAses == 0 || numAses > ASES {
        return Replied(INVALID_ASE_ID);
      }
      var p, k := 2, 0;
      while p < |data|
        invariant 2 <= p <= |data|
        invariant Pass(env, apply, op, ases[..], c * ASES, data[p..], sts[..], k)
               == Pass(env, apply, op, old(ases[..]), c * ASES, data[2..], old(sts[..]), 0)
        decreases |data| - p
      {
        PassEnds(env, apply, op, ases[..], c * ASES, data[p..], sts[..], k);
        if k >= ASES {
          return Overran;
        }
        ghost var a, s := ases[..], sts[..];
        sts[k] := sts[k].(aseId := data[p]);
        var found := FindAse(c, data[p]);
        if found == None {
          sts[k] := sts[k].(code := INVALID_ASE_ID);
          assert sts[..] == s[k := s[k].(aseId := data[p], code := INVALID_ASE_ID)];
          return Replied(SUCCESS);
        }
        assert data[p..][1..] == data[p + 1..];
        var flow, start := Continue, p;
        p, flow := HandleEntry(env, apply, op, found.value, data, p + 1, sts, k);
        assert sts[..] == s[k := sts[k]];
        match flow {
          case Return(code) => return Replied(code);
          case SetupFailed => return Failed;
          case Undefined => return Overran;
          case Continue =>
        }
        PassContinues(env, apply, op, a, c * ASES, data[start..], s, k, found.value);
        assert data[start..][p - start..] == data[p..];
        k := k + 1;
      }
      PassEnds(env, apply, op, ases[..], c * ASES, data[p..], sts[..], k);
      v := Replied(SUCCESS);
    }

    /** A whole write to the control point; on a connection that is not in use it goes nowhere. */
    method HandleWriteReq(env: Env, c: nat, data: seq<byte>)
      requires Valid() && c < CONNECTIONS
      modifies ases
      ensures ases[..] == Step(old(ases[..]), Written(c, data, env))
    {
      hide Pass, Settle, Find, SettleOne;
      if ases[c * ASES].id == 0 {
        return;
      }
      var sts := new Status[ASES](_ => NO_STATUS);
      assert sts[..] == [NO_STATUS, NO_STATUS, NO_STATUS];
      var v := CheckWriteReq(env, false, c, data, sts);
      if v != Replied(SUCCESS) {
        return;
      }
      v := CheckWriteReq(env, true, c, data, sts);
      if v == Overran {
        return;
      }
      SettleAll(env, c, sts, data[1]);
    }

    method SettleAse(env: Env, i: nat)
      requires Valid() && i < ases.Length
      modifies ases
      ensures ases[..] == old(ases[..])[i := SettleOne(env, old(ases[i]))]
    {
      if env.connected(ases[i].cis) {
        return;
      }
      if ases[i].state.Releasing? {
        ases[i] := Assign(ases[i], NoCis, Idle);
      } else if ases[i].state.Disabling? {
        ases[i] := Assign(ases[i], NoCis, QosConfigured);
      }
    }

    method SettleAll(env: Env, c: nat, sts: array<Status>, n: nat)
      requires Valid() && c < CONNECTIONS && n <= sts.Length
      modifies ases
      ensures ases[..] == Settle(env, old(ases[..]), c * ASES, sts[..], n, 0)
    {
      hide Find, SettleOne;
      var i := 0;
      while i < n
        invariant 0 <= i <= n
        invariant Settle(env, ases[..], c * ASES, sts[..], n, i) == Settle(env, old(ases[..]), c * ASES, sts[..], n, 0)
      {
        var found := FindAse(c, sts[i].aseId);
        if found.Some? {
          SettleAse(env, found.value);
        }
        i := i + 1;
      }
    }

    // ---- the events of the isochronous channels ----

    method FindAseWithCisId(cig: byte, cis: byte, t: AseType) returns (r: Option<nat>)
      requires Valid()
      ensures r == FindOnCis(ases[..], cig, cis, t, 0)
    {
      hide OnCis;
      var i := 0;
      while i < ases.Length
        invariant 0 <= i <= ases.Length
        invariant FindOnCis(ases[..], cig, cis, t, i) == FindOnCis(ases[..], cig, cis, t, 0)
      {
        if OnCis(ases[i], cig, cis, t) {
          return Some(i);
        }
        i := i + 1;
      }
      r := None;
    }

    method SetConn(cig: byte, cis: byte, t: AseType, handle: uint16)
      requires Valid()
      modifies ases
      ensures ases[..] == Bind(old(ases[..]), cig, cis, t, handle)
    {
      hide FindOnCis, OnCis;
      var found := FindAseWithCisId(cig, cis, t);
      if found.Some? {
        ases[found.value] := ases[found.value].(cis := handle);
      }
    }

    method OnCisRequest(cig: byte, cis: byte, handle: uint16)
      requires Valid()
      modifies ases
      ensures ases[..] == Step(old(ases[..]), CisRequest(cig, cis, handle))
    {
      SetConn(cig, cis, Sink, handle);
    }

    method OnCisEstablished(ok: bool, cig: byte, cis: byte, handle: uint16)
      requires Valid()
      modifies ases
      ensures ases[..] == Step(old(ases[..]), CisEstablished(ok, cig, cis, handle))
    {
      hide Bind;
      if ok {
        SetConn(cig, cis, Sink, handle);
        SetConn(cig, cis, Source, handle);
      }
    }

    /** The look-up shadows its parameter: any ASE with a known CIS satisfies it. */
    method KnowsSomeCis(env: Env) returns (b: bool)
      requires Valid()
      ensures b == SomeCisKnown(env, ases[..])
    {
      var i := 0;
      while i < ases.Length
        invariant 0 <= i <= ases.Length
        invariant forall j | 0 <= j < i :: !CisKnown(env, ases[j])
      {
        if CisKnown(env, ases[i]) {
          assert CisKnown(env, ases[..][i]);
          return true;
        }
        i := i + 1;
      }
      b := false;
    }

    method OnDataPathSetup(ok: bool, connected: bool, i: nat, env: Env)
      requires Valid() && i < ases.Length
      modifies ases
      ensures ases[..] == Step(old(ases[..]), DataPathSetup(ok, connected, i, env))
    {
      hide SomeCisKnown;
      var known := KnowsSomeCis(env);
      if !ok || !connected || !known {
        return;
      }
      var a := ases[i];
      ases[i] := a.(dataPath := true);
      if a.typ.Sink? && a.state.Enabling? {
        ases[i] := Assign(ases[i], DataPathUp, Streaming);
      }
    }

    method HandleDisconnection(cig: byte, cis: byte, t: AseType)
      requires Valid()
      modifies ases
      ensures ases[..] == Lose(old(ases[..]), cig, cis, t)
    {
      hide FindOnCis, OnCis;
      var found := FindAseWithCisId(cig, cis, t);
      if found == None {
        return;
      }
      var i := found.value;
      var a := ases[i].(dataPath := false);
      ases[i] := a;
      if a.state.Releasing? {
        ases[i] := Assign(a, CisLost, Idle).(qos := a.qos.(cig := 0xFF, cis := 0xFF));
      } else if a.state.Streaming? {
        ases[i] := Assign(a, CisLost, if a.typ.Source? then Disabling else QosConfigured);
      } else if a.state.Disabling? {
        ases[i] := Assign(a, CisLost, QosConfigured);
      }
      assert ases[..] == old(ases[..])[i := LoseCis(old(ases[i]))];
    }

    method OnCisDisconnected(cig: byte, cis: byte)
      requires Valid()
      modifies ases
      ensures ases[..] == Step(old(ases[..]), CisDisconnected(cig, cis))
    {
      hide Lose;
      HandleDisconnection(cig, cis, Sink);
      HandleDisconnection(cig, cis, Source);
    }
  }
}
