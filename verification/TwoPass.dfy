/** The two passes over a control point write agree, although the first already stores values in the ASEs. */
module TwoPass {
  import opened AscsPayload
  import opened AscsTypes
  import opened AseMachine
  import opened Bytes
  import opened CodecConfig
  import opened ControlPoint
  import opened Metadata
  import opened Pacs

  // ---- the check pass changes no state ----

  lemma CheckKeepsOne(env: Env, op: byte, a: Ase, s: seq<byte>, sts: Status, k: nat)
    ensures var b := Handle(env, false, op, a, s, sts, k).ase;
      b == a.(qos := b.qos, contexts := b.contexts, cis := b.cis)
  {
    hide ParseCodecConfig, ParseConfigQos, ParseMetadata, VerifyContext, VerifyCodecConfig, Next;
  }

  /** Whatever is written and whatever the verdict, the check pass leaves every state, codec configuration, data path
      and history as it was. */
  lemma {:induction false} CheckKeepsState(env: Env, op: byte, ases: seq<Ase>, base: nat, s: seq<byte>,
                                           sts: seq<Status>, k: nat)
    requires base + ASES <= |ases| && |sts| == ASES
    ensures var f := Pass(env, false, op, ases, base, s, sts, k).ases;
      forall i | 0 <= i < |ases| ::
        f[i] == ases[i].(qos := f[i].qos, contexts := f[i].contexts, cis := f[i].cis)
    decreases |s|
  {
    hide Handle, Pass;
    PassEnds(env, false, op, ases, base, s, sts, k);
    if s != [] && k < ASES {
      var found := Find(ases, base, s[0], 0);
      if found.Some? {
        var i, st := found.value, sts[k].(aseId := s[0]);
        var h := Handle(env, false, op, ases[i], s[1..], st, k);
        CheckKeepsOne(env, op, ases[i], s[1..], st, k);
        if h.flow.Continue? {
          PassContinues(env, false, op, ases, base, s, sts, k, i);
          CheckKeepsState(env, op, ases[i := h.ase], base, s[1 + h.used..], sts[k := h.sts], k + 1);
        }
      }
    }
  }

  /** A write whose check pass is not accepted moves no ASE. */
  lemma RejectedWriteMovesNothing(env: Env, ases: seq<Ase>, base: nat, data: seq<byte>)
    requires base + ASES <= |ases|
    requires CheckWrite(env, false, ases, base, data, [NO_STATUS, NO_STATUS, NO_STATUS]).verdict != Replied(SUCCESS)
    ensures var r := Write(env, ases, base, data);
      forall i | 0 <= i < |ases| ::
        r[i].state == ases[i].state && r[i].hist == ases[i].hist && r[i].codec == ases[i].codec
  {
    hide Pass;
    if |data| >= 2 && data[0] <= OPCODE_MAX && 1 <= data[1] <= ASES {
      CheckKeepsState(env, data[0], ases, base, data[2..], [NO_STATUS, NO_STATUS, NO_STATUS], 0);
    }
  }

  // ---- re-parsing ----

  /** Each context a metadata stream yields is either one it carries or the stored one. */
  lemma {:induction false} Fieldwise(s: seq<byte>, left: int, c: Contexts, d: Contexts)
    ensures var rc, rd := GetMetadata(s, left, c), GetMetadata(s, left, d);
      && rc.outcome == rd.outcome
      && (rc.contexts.preferred == rd.contexts.preferred
          || (rc.contexts.preferred == c.preferred && rd.contexts.preferred == d.preferred))
      && (rc.contexts.streaming == rd.contexts.streaming
          || (rc.contexts.streaming == c.streaming && rd.contexts.streaming == d.streaming))
    decreases |s|
  {
    hide FromLe, Valid;
    if left != 0 && |s| >= 2 && s[0] <= left {
      var rest := left - (s[0] as int + 1);
      if s[1] == PREFERRED_CONTEXTS && |s| >= 4 {
        var v := FromLe(s[2..], 2);
        Fieldwise(s[4..], rest, c.(preferred := v), d.(preferred := v));
      } else if s[1] == STREAMING_CONTEXTS && |s| >= 4 {
        var v := FromLe(s[2..], 2);
        Fieldwise(s[4..], rest, c.(streaming := v), d.(streaming := v));
      } else if s[1] == CCID_LIST && rest != 0 && 2 + s[0] as int <= |s| {
        Fieldwise(s[2 + s[0]..], rest, c, d);
      }
    }
  }

  /** Parsing the same octets over the values they already gave changes nothing. */
  lemma ReparseMetadata(s: seq<byte>, c: Contexts, sts: Status)
    requires ParseMetadata(s, c, sts).MetaParsed?
    ensures var r := ParseMetadata(s, c, sts); ParseMetadata(s, r.contexts, r.sts) == r
  {
    hide GetMetadata;
    if |s| >= 1 && s[0] <= |s| - 1 {
      Fieldwise(s[1..], s[0], c, GetMetadata(s[1..], s[0], c).contexts);
    }
  }

  lemma ReparseQos(s: seq<byte>, sts: Status)
    ensures var r := ParseConfigQos(s, sts); ParseConfigQos(s, r.sts) == r
  {
    hide ReadQos;
  }

  // ---- one entry, twice ----

  /** The apply pass over an entry the check pass let through: same octets used, same status, and the ASE moves to the
      table's next state exactly when the status is success. */
  lemma HandleTwice(env: Env, op: byte, a: Ase, s: seq<byte>, sts: Status, k: nat)
    requires Handle(env, false, op, a, s, sts, k).flow.Continue? && env.setupOk(k)
    requires sts.code == SUCCESS
    ensures var c := Handle(env, false, op, a, s, sts, k);
      var d := Handle(env, true, op, c.ase, s, c.sts, k);
      && d.flow.Continue? && d.used == c.used && d.sts == c.sts
      && AppliedTo(op, c.ase, d.ase, c.sts)
  {
    hide ParseCodecConfig, ParseMetadata, VerifyContext, VerifyCodecConfig, Next, QosInRange, ParseConfigQos;
    if op == CONFIG_CODEC {
      StatusKept(s, sts);
    } else if op == CONFIG_QOS {
      ReparseQos(s, sts);
    } else if op == ENABLE || op == UPDATE_METADATA {
      ReparseMetadata(s, a.contexts, sts);
    }
  }

  /** What the apply pass does to an ASE `before` with status `sts`. */
  predicate AppliedTo(op: byte, before: Ase, after: Ase, sts: Status) {
    && (sts.code != SUCCESS ==> after == before)
    && (sts.code == SUCCESS ==>
          var next := Next(before.typ, before.state, op);
          && after.state == next && next != Max
          && after.hist == before.hist + [Move(Op(op), before.state, next)])
    && after.qos == before.qos && after.contexts == before.contexts && after.dataPath == before.dataPath
    && (op != CONFIG_CODEC ==> after.codec == before.codec)
  }

  // ---- all entries ----

  /** The ASEs the entries of a write name, in order, up to the one that ends the pass. */
  function Named(env: Env, op: byte, ases: seq<Ase>, base: nat, s: seq<byte>, sts: seq<Status>, k: nat): seq<nat>
    requires base + ASES <= |ases| && |sts| == ASES
    decreases |s|
  {
    if s == [] || k >= ASES then []
    else
      var st := sts[k].(aseId := s[0]);
      match Find(ases, base, s[0], 0)
      case None => []
      case Some(i) =>
        var h := Handle(env, false, op, ases[i], s[1..], st, k);
        HandledUsed(env, false, op, ases[i], s[1..], st, k);
        if h.flow.Continue? then [i] + Named(env, op, ases[i := h.ase], base, s[1 + h.used..], sts[k := h.sts], k + 1)
        else []
  }

  lemma NamedContinues(env: Env, op: byte, ases: seq<Ase>, base: nat, s: seq<byte>, sts: seq<Status>, k: nat, i: nat)
    requires base + ASES <= |ases| && |sts| == ASES && s != [] && k < ASES && Find(ases, base, s[0], 0) == Some(i)
    requires Handle(env, false, op, ases[i], s[1..], sts[k].(aseId := s[0]), k).flow.Continue?
    ensures var h := Handle(env, false, op, ases[i], s[1..], sts[k].(aseId := s[0]), k);
      && h.used <= |s| - 1
      && Named(env, op, ases, base, s, sts, k)
         == [i] + Named(env, op, ases[i := h.ase], base, s[1 + h.used..], sts[k := h.sts], k + 1)
  {
    hide Handle;
    HandledUsed(env, false, op, ases[i], s[1..], sts[k].(aseId := s[0]), k);
  }

  lemma NamedEnds(env: Env, op: byte, ases: seq<Ase>, base: nat, s: seq<byte>, sts: seq<Status>, k: nat)
    requires base + ASES <= |ases| && |sts| == ASES
    requires s == [] || k >= ASES || Find(ases, base, s[0], 0).None?
    ensures Named(env, op, ases, base, s, sts, k) == []
  {
  }

  predicate Distinct(t: seq<nat>) {
    forall i, j | 0 <= i < j < |t| :: t[i] != t[j]
  }

  lemma {:induction false} FindByIds(a: seq<Ase>, b: seq<Ase>, base: nat, id: byte, i: nat)
    requires |a| == |b| && base + ASES <= |a| && i <= ASES
    requires forall j | 0 <= j < |a| :: a[j].id == b[j].id
    ensures Find(a, base, id, i) == Find(b, base, id, i)
    decreases ASES - i
  {
    if i < ASES {
      FindByIds(a, b, base, id, i + 1);
    }
  }

  /** An accepted check pass touches only the ASEs it names and the statuses from `k` on. */
  lemma {:induction false} CheckFrame(env: Env, op: byte, ases: seq<Ase>, base: nat, s: seq<byte>, sts: seq<Status>,
                                      k: nat)
    requires base + ASES <= |ases| && |sts| == ASES
    requires Pass(env, false, op, ases, base, s, sts, k).verdict == Replied(SUCCESS)
    ensures var f := Pass(env, false, op, ases, base, s, sts, k);
      var t := Named(env, op, ases, base, s, sts, k);
      && (forall i | 0 <= i < |ases| && i !in t :: f.ases[i] == ases[i])
      && (forall i | i in t :: i < |ases|)
      && (forall j | 0 <= j < k && j < ASES :: f.sts[j] == sts[j])
      && k + |t| <= if k <= ASES then ASES else k
    decreases |s|
  {
    hide Handle, Pass, Named;
    PassEnds(env, false, op, ases, base, s, sts, k);
    if s == [] || k >= ASES || Find(ases, base, s[0], 0).None? {
      NamedEnds(env, op, ases, base, s, sts, k);
    } else {
      var i, st := Find(ases, base, s[0], 0).value, sts[k].(aseId := s[0]);
      var h := Handle(env, false, op, ases[i], s[1..], st, k);
      ReturnsFailure(env, false, op, ases[i], s[1..], st, k);
      PassContinues(env, false, op, ases, base, s, sts, k, i);
      NamedContinues(env, op, ases, base, s, sts, k, i);
      CheckFrame(env, op, ases[i := h.ase], base, s[1 + h.used..], sts[k := h.sts], k + 1);
    }
  }

  lemma ReturnsFailure(env: Env, apply: bool, op: byte, a: Ase, s: seq<byte>, sts: Status, k: nat)
    ensures var h := Handle(env, apply, op, a, s, sts, k); h.flow.Return? ==> h.flow.code != SUCCESS
  {
    hide ParseCodecConfig, ParseConfigQos, ParseMetadata, VerifyContext, VerifyCodecConfig, Next;
  }

  /** What the apply pass leaves when it runs over `start`, the check pass having ended in `f`. */
  predicate Agrees(op: byte, start: seq<Ase>, f: PassOut, t: seq<nat>, k: nat, g: PassOut) {
    && |start| == |f.ases| == |g.ases| && k + |t| <= |f.sts|
    && g.verdict == Replied(SUCCESS) && g.sts == f.sts
    && (forall i | 0 <= i < |start| && i !in t :: g.ases[i] == start[i])
    && (forall m | 0 <= m < |t| :: t[m] < |start| && AppliedTo(op, f.ases[t[m]], g.ases[t[m]], f.sts[k + m]))
  }

  lemma {:induction false} PassTwice(env: Env, op: byte, ases: seq<Ase>, base: nat, s: seq<byte>, sts: seq<Status>,
                                     k: nat, start: seq<Ase>)
    requires base + ASES <= |ases| && |sts| == ASES && |start| == |ases| && k <= ASES
    requires Pass(env, false, op, ases, base, s, sts, k).verdict == Replied(SUCCESS)
    requires forall j | k <= j < ASES :: sts[j].code == SUCCESS && env.setupOk(j)
    requires Distinct(Named(env, op, ases, base, s, sts, k))
    requires forall i | 0 <= i < |ases| :: start[i].id == ases[i].id
    requires forall i | i in Named(env, op, ases, base, s, sts, k) && i < |ases| ::
               start[i] == Pass(env, false, op, ases, base, s, sts, k).ases[i]
    ensures var f := Pass(env, false, op, ases, base, s, sts, k);
      Agrees(op, start, f, Named(env, op, ases, base, s, sts, k), k, Pass(env, true, op, start, base, s, f.sts, k))
    decreases |s|
  {
    hide Handle, Pass, Named, AppliedTo;
    var f := Pass(env, false, op, ases, base, s, sts, k);
    PassEnds(env, false, op, ases, base, s, sts, k);
    PassEnds(env, true, op, start, base, s, f.sts, k);
    if s != [] {
      FindByIds(ases, start, base, s[0], 0);
    }
    if s == [] || k >= ASES || Find(ases, base, s[0], 0).None? {
      NamedEnds(env, op, ases, base, s, sts, k);
    } else {
      StepTwice(env, op, ases, base, s, sts, k, start, Find(ases, base, s[0], 0).value);
    }
  }

  lemma {:induction false} StepTwice(env: Env, op: byte, ases: seq<Ase>, base: nat, s: seq<byte>, sts: seq<Status>,
                                     k: nat, start: seq<Ase>, i: nat)
    requires base + ASES <= |ases| && |sts| == ASES && |start| == |ases| && s != [] && k < ASES
    requires Find(ases, base, s[0], 0) == Find(start, base, s[0], 0) == Some(i)
    requires Pass(env, false, op, ases, base, s, sts, k).verdict == Replied(SUCCESS)
    requires forall j | k <= j < ASES :: sts[j].code == SUCCESS && env.setupOk(j)
    requires Distinct(Named(env, op, ases, base, s, sts, k))
    requires forall i | 0 <= i < |ases| :: start[i].id == ases[i].id
    requires forall i | i in Named(env, op, ases, base, s, sts, k) && i < |ases| ::
               start[i] == Pass(env, false, op, ases, base, s, sts, k).ases[i]
    ensures var f := Pass(env, false, op, ases, base, s, sts, k);
      Agrees(op, start, f, Named(env, op, ases, base, s, sts, k), k, Pass(env, true, op, start, base, s, f.sts, k))
    decreases |s|, 0
  {
    hide Handle, AppliedTo, Pass, Named;
    var st := sts[k].(aseId := s[0]);
    var c := Handle(env, false, op, ases[i], s[1..], st, k);
    ReturnsFailure(env, false, op, ases[i], s[1..], st, k);
    PassEnds(env, false, op, ases, base, s, sts, k);
    PassContinues(env, false, op, ases, base, s, sts, k, i);
    NamedContinues(env, op, ases, base, s, sts, k, i);
    KeepsIdentity(env, false, op, ases[i], s[1..], st, k);
    HandleTwice(env, op, ases[i], s[1..], st, k);
    var ases', sts', s' := ases[i := c.ase], sts[k := c.sts], s[1 + c.used..];
    var f, t' := Pass(env, false, op, ases, base, s, sts, k), Named(env, op, ases', base, s', sts', k + 1);
    DistinctTail(i, t');
    CheckFrame(env, op, ases', base, s', sts', k + 1);
    assert i in [i] + t' && start[i] == c.ase && f.sts[k] == c.sts && f.ases[i] == c.ase;
    var d := Handle(env, true, op, c.ase, s[1..], c.sts, k);
    KeepsIdentity(env, true, op, c.ase, s[1..], c.sts, k);
    var start' := start[i := d.ase];
    forall j | j in t' && j < |ases'| ensures start'[j] == f.ases[j] {
      assert j in [i] + t';
    }
    PassTwice(env, op, ases', base, s', sts', k + 1, start');
    var g := Pass(env, true, op, start', base, s', f.sts, k + 1);
    assert f.sts[k].(aseId := s[0]) == f.sts[k] && f.sts[k := d.sts] == f.sts;
    PassContinues(env, true, op, start, base, s, f.sts, k, i);
    AgreesHead(op, start, d.ase, i, f, t', k, g);
  }

  lemma DistinctTail(i: nat, t: seq<nat>)
    requires Distinct([i] + t)
    ensures Distinct(t) && i !in t
  {
    forall a, b | 0 <= a < b < |t| ensures t[a] != t[b] {
      assert ([i] + t)[a + 1] == t[a] && ([i] + t)[b + 1] == t[b];
    }
    forall b | 0 <= b < |t| ensures t[b] != i {
      assert ([i] + t)[0] == i && ([i] + t)[b + 1] == t[b];
    }
  }

  lemma AgreesHead(op: byte, start: seq<Ase>, moved: Ase, i: nat, f: PassOut, t: seq<nat>, k: nat, g: PassOut)
    requires i < |start| && i !in t && k < |f.sts|
    requires Agrees(op, start[i := moved], f, t, k + 1, g) && AppliedTo(op, f.ases[i], moved, f.sts[k])
    ensures Agrees(op, start, f, [i] + t, k, g)
  {
    hide AppliedTo;
    var t' := [i] + t;
    forall m | 0 <= m < |t'| ensures t'[m] < |start| && AppliedTo(op, f.ases[t'[m]], g.ases[t'[m]], f.sts[k + m]) {
      if m > 0 {
        assert t'[m] == t[m - 1];
      }
    }
    forall j | 0 <= j < |start| && j !in t' ensures g.ases[j] == start[j] {
      assert t'[0] == i;
    }
  }

  /** The identity of the ASE and of its status. */
  predicate SameIdentity(a: Ase, sts: Status, h: Handled) {
    h.ase.id == a.id && h.ase.typ == a.typ && h.sts.aseId == sts.aseId
  }

  lemma CodecKeepsIdentity(env: Env, apply: bool, next: State, a: Ase, s: seq<byte>, sts: Status)
    ensures SameIdentity(a, sts, HandleCodec(env, apply, next, a, s, sts))
  {
    hide ParseCodecConfig, VerifyCodecConfig, Preferred, WithAllocation;
    StatusKept(s, sts);
  }

  lemma QosKeepsIdentity(env: Env, apply: bool, next: State, a: Ase, s: seq<byte>, sts: Status)
    ensures SameIdentity(a, sts, HandleQos(env, apply, next, a, s, sts))
  {
    hide ParseConfigQos;
    StatusKept(s, sts);
  }

  lemma MetadataKeepsIdentity(apply: bool, op: byte, next: State, a: Ase, s: seq<byte>, sts: Status)
    ensures SameIdentity(a, sts, HandleMetadata(apply, op, next, a, s, sts))
  {
    hide ParseMetadata, VerifyContext;
    MetadataKeepsId(s, a.contexts, sts);
  }

  lemma KeepsIdentity(env: Env, apply: bool, op: byte, a: Ase, s: seq<byte>, sts: Status, k: nat)
    ensures SameIdentity(a, sts, Handle(env, apply, op, a, s, sts, k))
  {
    hide HandleCodec, HandleQos, HandleMetadata, Next;
    var next := Next(a.typ, a.state, op);
    CodecKeepsIdentity(env, apply, next, a, s, sts);
    QosKeepsIdentity(env, apply, next, a, s, sts);
    MetadataKeepsIdentity(apply, op, next, a, s, sts);
  }

  lemma StatusKept(s: seq<byte>, sts: Status)
    ensures var r := ParseCodecConfig(s, sts);
      r.CodecParsed? ==> r.sts.aseId == sts.aseId && (r.sts.code == SUCCESS ==> r.sts == sts)
    ensures ParseConfigQos(s, sts).sts.aseId == sts.aseId
  {
    hide ReadField, Apply, ReadQos, FromLe, CscLoop, QosInRange;
    if |s| >= 8 {
      LoopKeepsStatus(s[8..], s[7], NO_CSC, 8, sts);
    }
  }

  lemma {:induction false} LoopKeepsStatus(s: seq<byte>, left: byte, c: Csc, used: nat, sts: Status)
    ensures var r := CscLoop(s, left, c, used, sts);
      r.LoopDone? ==> r.sts.aseId == sts.aseId && (r.sts.code == SUCCESS ==> r.sts == sts)
    decreases |s|
  {
    hide Apply, Encode;
    if left != 0 && |s| >= 2 && s[0] <= left && 1 <= s[1] < |TYPE_LENGTH| && s[0] == TYPE_LENGTH[s[1]] {
      var f := ReadField(s[1], s[2..]);
      if f.Field? {
        LoopKeepsStatus(s[s[0] as int + 1..], (left as int - (s[0] as int + 1)) % 256, Apply(c, f.l),
                        used + s[0] as int + 1, sts);
      }
    }
  }

  lemma MetadataKeepsId(s: seq<byte>, c: Contexts, sts: Status)
    ensures var r := ParseMetadata(s, c, sts); r.MetaParsed? ==> r.sts.aseId == sts.aseId
  {
    hide GetMetadata;
  }

  /** The two passes of a write that names distinct ASEs, when the data paths can be set up: once the check pass
      accepts it, the apply pass accepts it too and answers the same status for every entry, and it moves exactly the
      ASEs with status success, each to the table's next state from the state it had before the write; every ASE the
      write does not name is untouched. */
  lemma ApplyAgreesWithCheck(env: Env, ases: seq<Ase>, base: nat, data: seq<byte>)
    requires base + ASES <= |ases| && forall j | 0 <= j < ASES :: env.setupOk(j)
    requires CheckWrite(env, false, ases, base, data, [NO_STATUS, NO_STATUS, NO_STATUS]).verdict == Replied(SUCCESS)
    requires |data| >= 2 ==> Distinct(Named(env, data[0], ases, base, data[2..], [NO_STATUS, NO_STATUS, NO_STATUS], 0))
    ensures var f := CheckWrite(env, false, ases, base, data, [NO_STATUS, NO_STATUS, NO_STATUS]);
      var g := CheckWrite(env, true, f.ases, base, data, f.sts);
      var t := Named(env, data[0], ases, base, data[2..], [NO_STATUS, NO_STATUS, NO_STATUS], 0);
      && Agrees(data[0], f.ases, f, t, 0, g)
      && (forall i | 0 <= i < |ases| :: f.ases[i].state == ases[i].state && f.ases[i].typ == ases[i].typ)
      && (forall i | 0 <= i < |ases| && i !in t :: g.ases[i] == ases[i])
  {
    hide Pass, Named, AppliedTo;
    var z := [NO_STATUS, NO_STATUS, NO_STATUS];
    CheckKeepsState(env, data[0], ases, base, data[2..], z, 0);
    CheckFrame(env, data[0], ases, base, data[2..], z, 0);
    PassTwice(env, data[0], ases, base, data[2..], z, 0, Pass(env, false, data[0], ases, base, data[2..], z, 0).ases);
  }

  // ---- an ASE named twice ----

  /** Both entries of a Disable that names one ASE twice pass the check, which moves nothing; the apply pass moves the
      ASE with the first entry and stops at the second. */
  lemma NamedTwiceDisagrees(env: Env, ases: seq<Ase>, base: nat, id: byte, i: nat)
    requires base + ASES <= |ases| && Find(ases, base, id, 0) == Some(i) && ases[i].state in {Enabling, Streaming}
    ensures var f := CheckWrite(env, false, ases, base, [DISABLE, 2, id, id], [NO_STATUS, NO_STATUS, NO_STATUS]);
      var g := CheckWrite(env, true, f.ases, base, [DISABLE, 2, id, id], f.sts);
      && f.verdict == Replied(SUCCESS) && f.ases == ases
      && g.verdict == Replied(INVALID_TRANSITION) && g.ases[i].state == Next(ases[i].typ, ases[i].state, DISABLE)
  {
    hide Pass, Find;
    var data, z, st := [DISABLE, 2, id, id], [NO_STATUS, NO_STATUS, NO_STATUS], NO_STATUS.(aseId := id);
    assert data[2..] == [id, id] && [id, id][1..] == [id] && [id][1..] == [];
    var z1 := z[0 := st];
    var z2 := z1[1 := st];
    assert ases[i := ases[i]] == ases;
    PassContinues(env, false, DISABLE, ases, base, [id, id], z, 0, i);
    PassContinues(env, false, DISABLE, ases, base, [id], z1, 1, i);
    PassEnds(env, false, DISABLE, ases, base, [], z2, 2);
    var next := Next(ases[i].typ, ases[i].state, DISABLE);
    var moved := ases[i := Assign(ases[i], Op(DISABLE), next)];
    assert z2[0 := st] == z2 && z2[1].(aseId := id) == st;
    PassContinues(env, true, DISABLE, ases, base, [id, id], z2, 0, i);
    FindByIds(ases, moved, base, id, 0);
    assert Next(moved[i].typ, moved[i].state, DISABLE) == Max;
    PassEnds(env, true, DISABLE, moved, base, [id], z2, 1);
  }
}
