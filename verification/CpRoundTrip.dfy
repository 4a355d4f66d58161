/** A client's control point command, built entry by entry, is understood by the server in full. */
module CpRoundTrip {
  import opened AscsPayload
  import opened AscsTypes
  import opened AseMachine
  import opened Bytes
  import opened CodecConfig
  import opened ControlPoint
  import opened Metadata
  import opened Pacs
  import opened TwoPass

  /** What a client wants of one ASE: of the arguments, the operation uses its own; `room` is what is left of the
      client's buffer. */
  datatype Request = Request(id: byte, cc: CodecArgs, qos: Qos, meta: Meta, room: int)

  function EntryBytes(op: byte, r: Request): (s: seq<byte>)
    ensures s != [] && s[0] == r.id
  {
    if op == CONFIG_CODEC then CodecEntry(r.id, r.cc, r.room)
    else if op == CONFIG_QOS then QosEntry(r.id, r.qos)
    else if op == ENABLE || op == UPDATE_METADATA then MetadataCommand(r.id, r.meta, r.room)
    else [r.id]
  }

  function Concat(op: byte, rs: seq<Request>): seq<byte> {
    if rs == [] then [] else EntryBytes(op, rs[0]) + Concat(op, rs[1..])
  }

  function CommandBytes(op: byte, rs: seq<Request>): seq<byte>
    requires |rs| < 256
  {
    [op, |rs|] + Concat(op, rs)
  }

  lemma AllSentIfRoom(cc: CodecArgs, room: int)
    ensures room >= 28 ==> Sent(cc, room) == cc
  {
    if room >= 28 {
      AllSent(cc, room);
    }
  }

  /** The arguments as the entry carries them; nothing is lost when the room is 28 octets. */
  function Carried(r: Request): (c: Request)
    ensures r.room >= 28 ==> c == r
  {
    AllSentIfRoom(r.cc, r.room);
    r.(cc := Sent(r.cc, r.room), meta := r.meta.(contexts := Fitting(r.meta.contexts, r.room - 2)))
  }

  /** The operation is allowed in the state of the ASE, its arguments are in range and its metadata length fits an
      octet, and the server's published capabilities cover what the entry carries. */
  predicate Acceptable(env: Env, op: byte, a: Ase, r: Request) {
    && Next(a.typ, a.state, op) != Max
    && (op == CONFIG_CODEC ==>
          VerifyCodecConfig(a.typ, if a.typ.Sink? then env.sinkLocations else env.sourceLocations, Carried(r).cc))
    && (op == CONFIG_QOS ==> QosInRange(r.qos))
    && (op == ENABLE || op == UPDATE_METADATA ==>
          && ValidContexts(r.meta.contexts) && |MetadataCommand(r.id, r.meta, r.room)| <= 257
          && VerifyContext(Merge(a.contexts, Carried(r).meta.contexts).streaming))
  }

  /** The configuration that is stored is the one that was sent; if it has no channel allocation it gets the first. */
  predicate TakenOver(sent: CodecArgs, stored: CodecArgs) {
    && (sent.csc.alloc != 0 ==> stored == sent)
    && stored.csc.alloc != 0
    && (sent.csc.alloc == 0 ==> stored.csc.alloc == 1 && stored.(csc := stored.csc.(alloc := 0)) == sent)
  }

  lemma IsTakenOver(cc: CodecArgs)
    ensures TakenOver(cc, WithAllocation(cc))
  {
  }

  /** The ASE holds what the entry carries; a check pass takes over the QoS values and the contexts, an apply pass also
      the codec configuration, and it moves the state. */
  predicate Granted(env: Env, op: byte, apply: bool, before: Ase, after: Ase, r: Request) {
    var next, sent := Next(before.typ, before.state, op), Carried(r);
    && after.id == before.id && after.typ == before.typ && after.acl == before.acl && after.dataPath == before.dataPath
    && after.state == (if apply then next else before.state)
    && after.hist == (if apply then before.hist + [Move(Op(op), before.state, next)] else before.hist)
    && (if apply && op == CONFIG_CODEC then
          TakenOver(sent.cc, after.codec) && PreferencesFor(before.typ, after.codec, after.preferences)
        else after.codec == before.codec && after.preferences == before.preferences)
    && after.qos == (if op == CONFIG_QOS then r.qos else before.qos)
    && after.cis == (if op == CONFIG_QOS then env.cisHandle(r.qos.cig, r.qos.cis, before.acl) else before.cis)
    && after.contexts
       == (if op == ENABLE || op == UPDATE_METADATA then Merge(before.contexts, sent.meta.contexts)
           else before.contexts)
  }

  // ---- one entry ----

  lemma SupportedIsListed(t: AseType, cc: CodecArgs)
    requires RecordAccepts(t, cc)
    ensures CodecInRange(cc)
  {
    hide RecordAccepts, Supported;
    AcceptedExactly(t, cc);
    if cc.csc.freq != 0 {
      SupportedListed(t, cc.csc.freq);
    }
  }

  lemma GrantedCodec(env: Env, apply: bool, a: Ase, r: Request, rest: seq<byte>, sts: Status)
    requires Acceptable(env, CONFIG_CODEC, a, r) && sts.code == SUCCESS
    ensures var e := EntryBytes(CONFIG_CODEC, r);
      var h := HandleCodec(env, apply, Next(a.typ, a.state, CONFIG_CODEC), a, e[1..] + rest, sts);
      && h.flow.Continue? && h.used == |e| - 1 && h.sts == sts && Granted(env, CONFIG_CODEC, apply, a, h.ase, r)
  {
    hide ParseCodecConfig, CodecEntry, Next, WithAllocation, Preferred, TakenOver, PreferencesFor, CompareCodecParam,
         ReadCapabilities, Record, FreqFromIndex, BitAnd, Truncated;
    SupportedIsListed(a.typ, Carried(r).cc);
    IsTakenOver(Carried(r).cc);
    PreferencesAre(a.typ, WithAllocation(Carried(r).cc));
    CodecRoundTrip(r.id, r.cc, r.room, rest, sts);
  }

  lemma GrantedQos(env: Env, apply: bool, a: Ase, r: Request, rest: seq<byte>, sts: Status)
    requires Acceptable(env, CONFIG_QOS, a, r) && sts.code == SUCCESS
    ensures var e := EntryBytes(CONFIG_QOS, r);
      var h := HandleQos(env, apply, Next(a.typ, a.state, CONFIG_QOS), a, e[1..] + rest, sts);
      && h.flow.Continue? && h.used == |e| - 1 && h.sts == sts && Granted(env, CONFIG_QOS, apply, a, h.ase, r)
  {
    hide ParseConfigQos, QosEntry, QosInRange, Next;
    QosRoundTrip(r.id, r.qos, rest, sts);
  }

  lemma GrantedMetadata(env: Env, apply: bool, op: byte, a: Ase, r: Request, rest: seq<byte>, sts: Status)
    requires Acceptable(env, op, a, r) && sts.code == SUCCESS && (op == ENABLE || op == UPDATE_METADATA)
    ensures var e := EntryBytes(op, r);
      var h := HandleMetadata(apply, op, Next(a.typ, a.state, op), a, e[1..] + rest, sts);
      && h.flow.Continue? && h.used == |e| - 1 && h.sts == sts && Granted(env, op, apply, a, h.ase, r)
  {
    hide ParseMetadata, MetadataCommand, VerifyContext, Next, Merge;
    MetadataEntryRoundTrip(r.id, r.meta, r.room, rest, a.contexts, sts);
  }

  /** The server recovers the arguments of a built entry and moves the cursor exactly behind it. */
  lemma EntryGranted(env: Env, apply: bool, op: byte, a: Ase, r: Request, rest: seq<byte>, sts: Status, k: nat)
    requires Acceptable(env, op, a, r) && sts.code == SUCCESS && env.setupOk(k)
    ensures var e := EntryBytes(op, r);
      var h := Handle(env, apply, op, a, e[1..] + rest, sts, k);
      && h.flow.Continue? && h.used == |e| - 1 && h.sts == sts && Granted(env, op, apply, a, h.ase, r)
  {
    if op == CONFIG_CODEC {
      GrantedCodec(env, apply, a, r, rest, sts);
    } else if op == CONFIG_QOS {
      GrantedQos(env, apply, a, r, rest, sts);
    } else if op == ENABLE || op == UPDATE_METADATA {
      GrantedMetadata(env, apply, op, a, r, rest, sts);
    }
    hide HandleCodec, HandleQos, HandleMetadata, CodecEntry, QosEntry, MetadataCommand, Next;
  }

  /** After a check pass the request is still acceptable, and granting it again ends where the request says. */
  lemma GrantedTwice(env: Env, op: byte, a: Ase, b: Ase, c: Ase, r: Request)
    requires Acceptable(env, op, a, r) && Granted(env, op, false, a, b, r)
    ensures Acceptable(env, op, b, r)
    ensures Granted(env, op, true, b, c, r) ==> Granted(env, op, true, a, c, r)
  {
    hide VerifyCodecConfig, VerifyContext, Next, MetadataCommand, QosInRange, CodecInRange, ValidContexts;
  }

  // ---- all entries ----

  /** `t[m]` is the ASE that the `m`-th request names. */
  predicate Names(ases: seq<Ase>, base: nat, rs: seq<Request>, t: seq<nat>)
    requires base + ASES <= |ases|
  {
    && |t| == |rs| && Distinct(t)
    && forall m | 0 <= m < |rs| :: Find(ases, base, rs[m].id, 0) == Some(t[m])
  }

  predicate AllAcceptable(env: Env, op: byte, ases: seq<Ase>, rs: seq<Request>, t: seq<nat>)
    requires |t| == |rs|
  {
    forall m | 0 <= m < |rs| :: t[m] < |ases| && Acceptable(env, op, ases[t[m]], rs[m])
  }

  predicate AllGranted(env: Env, op: byte, apply: bool, before: seq<Ase>, after: seq<Ase>, rs: seq<Request>,
                       t: seq<nat>)
    requires |t| == |rs|
  {
    && |before| == |after|
    && (forall m | 0 <= m < |rs| :: t[m] < |before| && Granted(env, op, apply, before[t[m]], after[t[m]], rs[m]))
    && (forall i | 0 <= i < |before| && i !in t :: after[i] == before[i])
  }

  /** The statuses from `k` on carry the ids of the requests, and success. */
  predicate Answered(before: seq<Status>, after: seq<Status>, rs: seq<Request>, k: nat) {
    && |before| == |after| == ASES && k + |rs| <= ASES
    && (forall m | 0 <= m < |rs| :: after[k + m] == before[k + m].(aseId := rs[m].id))
    && (forall j | 0 <= j < ASES && !(k <= j < k + |rs|) :: after[j] == before[j])
  }

  lemma NamesTail(ases: seq<Ase>, base: nat, rs: seq<Request>, t: seq<nat>, a: Ase)
    requires base + ASES <= |ases| && rs != [] && Names(ases, base, rs, t) && a.id == ases[t[0]].id
    ensures t[0] < |ases| && Names(ases[t[0] := a], base, rs[1..], t[1..]) && t[0] !in t[1..]
  {
    assert t == [t[0]] + t[1..];
    assert Find(ases, base, rs[0].id, 0) == Some(t[0]);
    DistinctTail(t[0], t[1..]);
    forall m | 0 <= m < |rs[1..]| ensures Find(ases[t[0] := a], base, rs[1..][m].id, 0) == Some(t[1..][m]) {
      FindByIds(ases, ases[t[0] := a], base, rs[m + 1].id, 0);
    }
  }

  lemma GrantedHead(env: Env, op: byte, apply: bool, ases: seq<Ase>, a: Ase, after: seq<Ase>, rs: seq<Request>,
                    t: seq<nat>)
    requires rs != [] && |t| == |rs| && t[0] < |ases| && t[0] !in t[1..]
    requires Granted(env, op, apply, ases[t[0]], a, rs[0])
    requires AllGranted(env, op, apply, ases[t[0] := a], after, rs[1..], t[1..])
    ensures AllGranted(env, op, apply, ases, after, rs, t)
  {
    hide Granted;
    assert t == [t[0]] + t[1..];
    assert after[t[0]] == a;
    forall m | 0 <= m < |rs| ensures t[m] < |ases| && Granted(env, op, apply, ases[t[m]], after[t[m]], rs[m]) {
      if m > 0 {
        assert rs[1..][m - 1] == rs[m] && t[1..][m - 1] == t[m];
        assert t[m] in t[1..];
      }
    }
  }

  lemma AcceptableTail(env: Env, op: byte, ases: seq<Ase>, rs: seq<Request>, t: seq<nat>, a: Ase)
    requires rs != [] && |t| == |rs| && AllAcceptable(env, op, ases, rs, t) && t[0] !in t[1..]
    ensures AllAcceptable(env, op, ases[t[0] := a], rs[1..], t[1..])
  {
    hide Acceptable;
    forall m | 0 <= m < |rs[1..]|
      ensures t[1..][m] < |ases| && Acceptable(env, op, ases[t[0] := a][t[1..][m]], rs[1..][m])
    {
      assert rs[1..][m] == rs[m + 1] && t[1..][m] == t[m + 1];
      assert t[1..][m] in t[1..];
    }
  }

  lemma AnsweredHead(before: seq<Status>, after: seq<Status>, rs: seq<Request>, k: nat)
    requires rs != [] && |before| == ASES && k < ASES
    requires Answered(before[k := before[k].(aseId := rs[0].id)], after, rs[1..], k + 1)
    ensures Answered(before, after, rs, k)
  {
    forall m | 0 <= m < |rs| ensures after[k + m] == before[k + m].(aseId := rs[m].id) {
      if m > 0 {
        assert rs[1..][m - 1] == rs[m];
        assert after[k + 1 + (m - 1)] == before[k + m].(aseId := rs[m].id);
      }
    }
  }

  /** Either pass over the built entries grants every request and ends at the last octet. */
  lemma {:induction false} PassGrants(env: Env, apply: bool, op: byte, ases: seq<Ase>, base: nat, rs: seq<Request>,
                                      t: seq<nat>, sts: seq<Status>, k: nat)
    requires base + ASES <= |ases| && |sts| == ASES && k + |rs| <= ASES
    requires Names(ases, base, rs, t) && AllAcceptable(env, op, ases, rs, t)
    requires forall j | k <= j < ASES :: sts[j].code == SUCCESS && env.setupOk(j)
    ensures var r := Pass(env, apply, op, ases, base, Concat(op, rs), sts, k);
      && r.verdict == Replied(SUCCESS)
      && AllGranted(env, op, apply, ases, r.ases, rs, t)
      && Answered(sts, r.sts, rs, k)
    decreases |rs|
  {
    hide Pass, Handle, Granted, Acceptable, Next, EntryBytes;
    if rs == [] {
      PassEnds(env, apply, op, ases, base, [], sts, k);
    } else {
      PassGrantsHead(env, apply, op, ases, base, rs, t, sts, k);
    }
  }

  lemma {:induction false} PassGrantsHead(env: Env, apply: bool, op: byte, ases: seq<Ase>, base: nat, rs: seq<Request>,
                                          t: seq<nat>, sts: seq<Status>, k: nat)
    requires base + ASES <= |ases| && |sts| == ASES && k + |rs| <= ASES && rs != []
    requires Names(ases, base, rs, t) && AllAcceptable(env, op, ases, rs, t)
    requires forall j | k <= j < ASES :: sts[j].code == SUCCESS && env.setupOk(j)
    ensures var r := Pass(env, apply, op, ases, base, Concat(op, rs), sts, k);
      && r.verdict == Replied(SUCCESS)
      && AllGranted(env, op, apply, ases, r.ases, rs, t)
      && Answered(sts, r.sts, rs, k)
    decreases |rs|, 0
  {
    hide Pass, Handle, Granted, Acceptable, Next, EntryBytes, Answered, AllGranted, Find;
    var s, e, rest, i := Concat(op, rs), EntryBytes(op, rs[0]), Concat(op, rs[1..]), t[0];
    assert Find(ases, base, rs[0].id, 0) == Some(i);
    assert s[0] == rs[0].id && s[1..] == e[1..] + rest;
    var st := sts[k].(aseId := s[0]);
    EntryGranted(env, apply, op, ases[i], rs[0], rest, st, k);
    var h := Handle(env, apply, op, ases[i], s[1..], st, k);
    PassContinues(env, apply, op, ases, base, s, sts, k, i);
    assert s[1 + h.used..] == rest;
    GrantedKeepsId(env, op, apply, ases[i], h.ase, rs[0]);
    NamesTail(ases, base, rs, t, h.ase);
    AcceptableTail(env, op, ases, rs, t, h.ase);
    var sts' := sts[k := h.sts];
    PassGrants(env, apply, op, ases[i := h.ase], base, rs[1..], t[1..], sts', k + 1);
    var r := Pass(env, apply, op, ases[i := h.ase], base, rest, sts', k + 1);
    GrantedHead(env, op, apply, ases, h.ase, r.ases, rs, t);
    AnsweredHead(sts, r.sts, rs, k);
  }

  lemma GrantedKeepsId(env: Env, op: byte, apply: bool, a: Ase, b: Ase, r: Request)
    requires Granted(env, op, apply, a, b, r)
    ensures a.id == b.id
  {
  }

  /** A command for up to three distinct ASEs of a connection, each request acceptable: both passes of the server
      accept it and use it up, every status is success, and every ASE named ends in the table's next state holding
      exactly the arguments its entry was built from, as far as they fitted; no other ASE changes. */
  lemma CommandUnderstood(env: Env, op: byte, ases: seq<Ase>, base: nat, rs: seq<Request>, t: seq<nat>)
    requires base + ASES <= |ases| && 1 <= |rs| <= ASES
    requires Names(ases, base, rs, t) && AllAcceptable(env, op, ases, rs, t)
    requires forall j | 0 <= j < ASES :: env.setupOk(j)
    ensures var z := [NO_STATUS, NO_STATUS, NO_STATUS];
      var f := CheckWrite(env, false, ases, base, CommandBytes(op, rs), z);
      var g := CheckWrite(env, true, f.ases, base, CommandBytes(op, rs), f.sts);
      && f.verdict == g.verdict == Replied(SUCCESS)
      && g.sts == f.sts && (forall m | 0 <= m < |rs| :: g.sts[m] == Status(rs[m].id, SUCCESS, NOT_APPLICABLE))
      && AllGranted(env, op, true, ases, g.ases, rs, t)
  {
    hide Pass, Next, Granted, Acceptable, Find;
    var z := [NO_STATUS, NO_STATUS, NO_STATUS];
    var data := CommandBytes(op, rs);
    assert data[2..] == Concat(op, rs);
    AllowedOpcode(env, op, ases[t[0]], rs[0]);
    PassGrants(env, false, op, ases, base, rs, t, z, 0);
    var f := CheckWrite(env, false, ases, base, data, z);
    CheckedStillAcceptable(env, op, ases, f.ases, base, rs, t);
    forall j | 0 <= j < ASES ensures f.sts[j] == if j < |rs| then z[j].(aseId := rs[j].id) else z[j] {
      assert j < |rs| ==> f.sts[0 + j] == z[0 + j].(aseId := rs[j].id);
    }
    PassGrants(env, true, op, f.ases, base, rs, t, f.sts, 0);
    var g := CheckWrite(env, true, f.ases, base, data, f.sts);
    forall m | 0 <= m < |rs| ensures Granted(env, op, true, ases[t[m]], g.ases[t[m]], rs[m]) {
      GrantedTwice(env, op, ases[t[m]], f.ases[t[m]], g.ases[t[m]], rs[m]);
    }
    forall j | 0 <= j < ASES ensures g.sts[j] == f.sts[j] {
      if j < |rs| {
        assert g.sts[0 + j] == f.sts[0 + j].(aseId := rs[j].id);
      }
    }
  }

  lemma AllowedOpcode(env: Env, op: byte, a: Ase, r: Request)
    requires Acceptable(env, op, a, r)
    ensures op < OPCODE_MAX
  {
  }

  lemma CheckedStillAcceptable(env: Env, op: byte, ases: seq<Ase>, after: seq<Ase>, base: nat, rs: seq<Request>,
                               t: seq<nat>)
    requires base + ASES <= |ases| && Names(ases, base, rs, t) && AllAcceptable(env, op, ases, rs, t)
    requires AllGranted(env, op, false, ases, after, rs, t)
    ensures Names(after, base, rs, t) && AllAcceptable(env, op, after, rs, t)
  {
    hide Granted, Acceptable;
    forall m | 0 <= m < |rs| ensures t[m] < |after| && Acceptable(env, op, after[t[m]], rs[m]) {
      GrantedTwice(env, op, ases[t[m]], after[t[m]], after[t[m]], rs[m]);
    }
    forall i | 0 <= i < |ases| ensures ases[i].id == after[i].id {
      if i in t {
        var m :| 0 <= m < |t| && t[m] == i;
        GrantedKeepsId(env, op, false, ases[i], after[i], rs[m]);
      }
    }
    forall m | 0 <= m < |rs| ensures Find(after, base, rs[m].id, 0) == Some(t[m]) {
      FindByIds(ases, after, base, rs[m].id, 0);
    }
  }
}
