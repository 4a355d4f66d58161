/** Exactly when the two passes over a control point write agree: an ASE may be named twice by the operations that lead
    back to where they start. */
module TwoPassExactly {
  import opened AscsPayload
  import opened AscsTypes
  import opened AseMachine
  import opened Bytes
  import opened CodecConfig
  import opened ControlPoint
  import opened Metadata
  import opened Pacs
  import opened TwoPass

  predicate Repeatable(op: byte) {
    op in {CONFIG_CODEC, CONFIG_QOS, UPDATE_METADATA, RELEASE}
  }

  predicate Single(op: byte) {
    op in {ENABLE, RECEIVER_START_READY, DISABLE, RECEIVER_STOP_READY}
  }

  /** An operation is allowed again where it has led, exactly if it is repeatable. */
  lemma AllowedAgain(t: AseType, s: State, op: byte)
    requires Next(t, s, op) != Max
    ensures Repeatable(op) || Single(op)
    ensures Repeatable(op) ==> Next(t, Next(t, s, op), op) == Next(t, s, op)
    ensures Single(op) ==> Next(t, Next(t, s, op), op) == Max
  {
  }

  // ---- what does not depend on the ASE ----

  /** The octets an entry uses, when the pass goes on behind it. */
  lemma EntryUsed(env: Env, apply: bool, op: byte, a: Ase, s: seq<byte>, sts: Status, k: nat)
    requires Handle(env, apply, op, a, s, sts, k).flow.Continue?
    ensures op == CONFIG_CODEC ==> ParseCodecConfig(s, sts).CodecParsed?
    ensures op == ENABLE || op == UPDATE_METADATA ==> ParseMetadata(s, a.contexts, sts).MetaParsed?
    ensures Handle(env, apply, op, a, s, sts, k).used
         == if op == CONFIG_CODEC then ParseCodecConfig(s, sts).used
            else if op == CONFIG_QOS then ParseConfigQos(s, sts).used
            else if op == ENABLE || op == UPDATE_METADATA then ParseMetadata(s, a.contexts, sts).used
            else 0
  {
    hide VerifyContext, VerifyCodecConfig, Next, ParseCodecConfig, ParseConfigQos, ParseMetadata, Configure, Assign;
  }

  lemma OctetsDecide(env: Env, op: byte, a: Ase, b: Ase, s: seq<byte>, sts: Status, sts': Status, k: nat)
    requires Handle(env, false, op, a, s, sts, k).flow.Continue? && Handle(env, true, op, b, s, sts', k).flow.Continue?
    ensures Handle(env, true, op, b, s, sts', k).used == Handle(env, false, op, a, s, sts, k).used
  {
    hide Handle, ParseCodecConfig, ParseConfigQos, ParseMetadata;
    EntryUsed(env, false, op, a, s, sts, k);
    EntryUsed(env, true, op, b, s, sts', k);
    CodecUsed(s, sts, sts');
    QosUsed(s, sts, sts');
    MetadataUsed(s, a.contexts, b.contexts, sts, sts');
  }

  lemma CodecUsed(s: seq<byte>, sts: Status, sts': Status)
    ensures var r, r' := ParseCodecConfig(s, sts), ParseCodecConfig(s, sts');
      r.CodecParsed? && r'.CodecParsed? ==> r.used == r'.used
  {
    hide CscLoop, FromLe;
    if |s| >= 8 {
      LoopIgnoresStatus(s[8..], s[7], NO_CSC, 8, sts, sts');
    }
  }

  lemma QosUsed(s: seq<byte>, sts: Status, sts': Status)
    ensures ParseConfigQos(s, sts).used == ParseConfigQos(s, sts').used
  {
    hide ReadQos, QosInRange;
  }

  lemma MetadataUsed(s: seq<byte>, c: Contexts, c': Contexts, sts: Status, sts': Status)
    ensures var r, r' := ParseMetadata(s, c, sts), ParseMetadata(s, c', sts');
      r.MetaParsed? && r'.MetaParsed? ==> r.used == r'.used
  {
    hide GetMetadata;
  }

  /** The cursor of the configuration loop does not depend on the status it is given. */
  lemma {:induction false} LoopIgnoresStatus(s: seq<byte>, left: byte, c: Csc, used: nat, sts: Status, sts': Status)
    ensures var r, r' := CscLoop(s, left, c, used, sts), CscLoop(s, left, c, used, sts');
      r.LoopDone? == r'.LoopDone? && (r.LoopDone? ==> r.used == r'.used)
    decreases |s|
  {
    hide Apply, Encode, ReadField;
    if left != 0 && |s| >= 2 && s[0] <= left && 1 <= s[1] < |TYPE_LENGTH| && s[0] == TYPE_LENGTH[s[1]] {
      var f := ReadField(s[1], s[2..]);
      if f.Field? {
        FieldSize(s[1], s[2..]);
        LoopIgnoresStatus(s[s[0] as int + 1..], (left as int - (s[0] as int + 1)) % 256, Apply(c, f.l),
                          used + s[0] as int + 1, sts, sts');
      }
    }
  }

  // ---- operations that lead back ----

  /** An ASE that the apply pass may already have moved is as good as the one the check pass saw. */
  predicate Follows(op: byte, a: Ase, b: Ase) {
    && b.id == a.id && b.typ == a.typ
    && (b.state == a.state || b.state == Next(a.typ, a.state, op))
  }

  predicate Stays(op: byte, a: Ase, b: Ase, c: Ase) {
    b.state == Next(a.typ, a.state, op) ==> c.state == b.state
  }

  predicate ContextsPass(op: byte, b: Ase) {
    op == UPDATE_METADATA ==> VerifyContext(b.contexts.streaming)
  }

  lemma RepeatedMetadata(env: Env, op: byte, a: Ase, b: Ase, s: seq<byte>, sts: Status, k: nat)
    requires op == UPDATE_METADATA && Handle(env, false, op, a, s, sts, k).flow.Continue? && sts.code == SUCCESS
    requires Next(b.typ, b.state, op) != Max && VerifyContext(b.contexts.streaming)
    ensures var c := Handle(env, false, op, a, s, sts, k);
      var d := Handle(env, true, op, b, s, c.sts, k);
      && d.flow.Continue? && d.sts == c.sts && c.sts.code == SUCCESS
      && d.ase == Assign(b.(contexts := d.ase.contexts), Op(op), Next(b.typ, b.state, op))
      && VerifyContext(c.ase.contexts.streaming) && VerifyContext(d.ase.contexts.streaming)
  {
    hide VerifyContext, Next, GetMetadata;
    if |s| >= 1 && s[0] <= |s| - 1 {
      Fieldwise(s[1..], s[0], a.contexts, b.contexts);
    }
  }

  /** The apply pass over an entry of a repeatable operation, on an ASE that may have been moved before. */
  lemma RepeatedEntry(env: Env, op: byte, a: Ase, b: Ase, s: seq<byte>, sts: Status, k: nat)
    requires Repeatable(op) && Handle(env, false, op, a, s, sts, k).flow.Continue? && sts.code == SUCCESS
    requires Follows(op, a, b) && ContextsPass(op, b)
    ensures var c := Handle(env, false, op, a, s, sts, k);
      var d := Handle(env, true, op, b, s, c.sts, k);
      && d.flow.Continue? && d.used == c.used && d.sts == c.sts && c.sts.aseId == sts.aseId
      && Follows(op, c.ase, d.ase) && ContextsPass(op, c.ase) && ContextsPass(op, d.ase)
      && (c.sts.code == SUCCESS ==> d.ase.state == Next(a.typ, a.state, op))
      && (c.sts.code != SUCCESS ==> d.ase.state == b.state)
      && Stays(op, a, b, d.ase)
  {
    hide ParseCodecConfig, ParseConfigQos, ParseMetadata, VerifyContext, VerifyCodecConfig, Next, Preferred,
         WithAllocation;
    AllowedAgain(a.typ, a.state, op);
    KeepsIdentity(env, false, op, a, s, sts, k);
    if op == CONFIG_CODEC {
      StatusKept(s, sts);
    } else if op == CONFIG_QOS {
      ReparseQos(s, sts);
    } else if op == UPDATE_METADATA {
      RepeatedMetadata(env, op, a, b, s, sts, k);
      OctetsDecide(env, op, a, b, s, sts, Handle(env, false, op, a, s, sts, k).sts, k);
    }
    CheckKeepsOne(env, op, a, s, sts, k);
  }

  /** After an accepted check pass the contexts of every ASE it names pass the test of the contexts. */
  lemma {:induction false} NamedPass(env: Env, op: byte, ases: seq<Ase>, base: nat, s: seq<byte>, sts: seq<Status>,
                                     k: nat)
    requires base + ASES <= |ases| && |sts| == ASES && Repeatable(op)
    requires Pass(env, false, op, ases, base, s, sts, k).verdict == Replied(SUCCESS)
    requires forall j | k <= j < ASES :: sts[j].code == SUCCESS
    ensures var f := Pass(env, false, op, ases, base, s, sts, k).ases;
      forall i | i in Named(env, op, ases, base, s, sts, k) && i < |ases| :: ContextsPass(op, f[i])
    decreases |s|
  {
    hide Handle, Pass, Named, ContextsPass;
    PassEnds(env, false, op, ases, base, s, sts, k);
    if s == [] || k >= ASES || Find(ases, base, s[0], 0).None? {
      NamedEnds(env, op, ases, base, s, sts, k);
    } else {
      var i, st := Find(ases, base, s[0], 0).value, sts[k].(aseId := s[0]);
      var h := Handle(env, false, op, ases[i], s[1..], st, k);
      ReturnsFailure(env, false, op, ases[i], s[1..], st, k);
      PassContinues(env, false, op, ases, base, s, sts, k, i);
      NamedContinues(env, op, ases, base, s, sts, k, i);
      EntryPasses(env, op, ases[i], s[1..], st, k);
      var ases', sts', s' := ases[i := h.ase], sts[k := h.sts], s[1 + h.used..];
      NamedPass(env, op, ases', base, s', sts', k + 1);
      CheckFrame(env, op, ases', base, s', sts', k + 1);
    }
  }

  lemma EntryPasses(env: Env, op: byte, a: Ase, s: seq<byte>, sts: Status, k: nat)
    requires Handle(env, false, op, a, s, sts, k).flow.Continue?
    ensures ContextsPass(op, Handle(env, false, op, a, s, sts, k).ase)
  {
    hide ParseMetadata, VerifyContext, Next;
  }

  predicate AllFollow(op: byte, ases: seq<Ase>, start: seq<Ase>) {
    |start| == |ases| && forall i | 0 <= i < |ases| :: Follows(op, ases[i], start[i])
  }

  predicate AllPass(op: byte, start: seq<Ase>, t: seq<nat>) {
    forall i | i in t && i < |start| :: ContextsPass(op, start[i])
  }

  /** Entry `m` names ASE `i`, with status success. */
  predicate Hit(t: seq<nat>, sts: seq<Status>, k: nat, m: nat, i: nat)
    requires k + |t| <= |sts|
  {
    m < |t| && t[m] == i && sts[k + m].code == SUCCESS
  }

  /** Where an apply pass that started in `start` leaves the ASEs: those that an entry with status success names in the
      table's next state, and every other in the state it had. */
  ghost predicate Moved(op: byte, ases: seq<Ase>, start: seq<Ase>, after: seq<Ase>, t: seq<nat>, sts: seq<Status>,
                        k: nat)
  {
    && |ases| == |start| == |after| && k + |t| <= |sts|
    && (forall i | 0 <= i < |ases| :: Follows(op, ases[i], after[i]) && Stays(op, ases[i], start[i], after[i]))
    && (forall i, m | 0 <= i < |ases| && 0 <= m && Hit(t, sts, k, m, i) ::
          after[i].state == Next(ases[i].typ, ases[i].state, op))
    && (forall i | 0 <= i < |ases| && (forall m: nat :: !Hit(t, sts, k, m, i)) :: after[i].state == start[i].state)
  }

  lemma NothingMoved(op: byte, ases: seq<Ase>, start: seq<Ase>, sts: seq<Status>, k: nat)
    requires AllFollow(op, ases, start) && k <= |sts|
    ensures Moved(op, ases, start, start, [], sts, k)
  {
  }

  lemma MovedHead(op: byte, ases: seq<Ase>, start: seq<Ase>, i: nat, c: Ase, d: Ase, after: seq<Ase>, t: seq<nat>,
                  sts: seq<Status>, k: nat)
    requires i < |ases| && |start| == |ases| && k < |sts|
    requires c.id == ases[i].id && c.typ == ases[i].typ && c.state == ases[i].state
    requires Stays(op, ases[i], start[i], d) && Follows(op, c, d)
    requires d.state == if sts[k].code == SUCCESS then Next(ases[i].typ, ases[i].state, op) else start[i].state
    requires Moved(op, ases[i := c], start[i := d], after, t, sts, k + 1)
    ensures Moved(op, ases, start, after, [i] + t, sts, k)
  {
    hide Next;
    var t', next := [i] + t, k + 1;
    forall j | 0 <= j < |ases| ensures Follows(op, ases[j], after[j]) && Stays(op, ases[j], start[j], after[j]) {
      assert Follows(op, ases[i := c][j], after[j]) && Stays(op, ases[i := c][j], start[i := d][j], after[j]);
    }
    forall j, m | 0 <= j < |ases| && 0 <= m && Hit(t', sts, k, m, j)
      ensures after[j].state == Next(ases[j].typ, ases[j].state, op)
    {
      if m == 0 {
        assert Stays(op, ases[i := c][i], start[i := d][i], after[i]);
      } else {
        assert Hit(t, sts, k + 1, m - 1, j);
      }
    }
    forall j | 0 <= j < |ases| && (forall m: nat :: !Hit(t', sts, k, m, j)) ensures after[j].state == start[j].state {
      forall m: nat ensures !Hit(t, sts, next, m, j) {
        assert !Hit(t', sts, k, m + 1, j);
      }
      assert !Hit(t', sts, k, 0, j);
    }
  }

  lemma {:induction false} PassRepeats(env: Env, op: byte, ases: seq<Ase>, base: nat, s: seq<byte>, sts: seq<Status>,
                                       k: nat, start: seq<Ase>)
    requires base + ASES <= |ases| && |sts| == ASES && k <= ASES && Repeatable(op)
    requires Pass(env, false, op, ases, base, s, sts, k).verdict == Replied(SUCCESS)
    requires forall j | k <= j < ASES :: sts[j].code == SUCCESS && env.setupOk(j)
    requires AllFollow(op, ases, start) && AllPass(op, start, Named(env, op, ases, base, s, sts, k))
    ensures var f := Pass(env, false, op, ases, base, s, sts, k);
      var g := Pass(env, true, op, start, base, s, f.sts, k);
      && g.verdict == Replied(SUCCESS) && g.sts == f.sts
      && Moved(op, ases, start, g.ases, Named(env, op, ases, base, s, sts, k), f.sts, k)
    decreases |s|
  {
    hide Handle, Pass, Named, Follows, ContextsPass, Moved;
    var f := Pass(env, false, op, ases, base, s, sts, k);
    PassEnds(env, false, op, ases, base, s, sts, k);
    PassEnds(env, true, op, start, base, s, f.sts, k);
    if s != [] {
      SameFind(op, ases, start, base, s[0]);
    }
    if s == [] || k >= ASES || Find(ases, base, s[0], 0).None? {
      NamedEnds(env, op, ases, base, s, sts, k);
      NothingMoved(op, ases, start, f.sts, k);
    } else {
      StepRepeats(env, op, ases, base, s, sts, k, start, Find(ases, base, s[0], 0).value);
    }
  }

  lemma SameFind(op: byte, ases: seq<Ase>, start: seq<Ase>, base: nat, id: byte)
    requires base + ASES <= |ases| && AllFollow(op, ases, start)
    ensures Find(ases, base, id, 0) == Find(start, base, id, 0)
  {
    FindByIds(ases, start, base, id, 0);
  }

  lemma {:induction false} StepRepeats(env: Env, op: byte, ases: seq<Ase>, base: nat, s: seq<byte>, sts: seq<Status>,
                                       k: nat, start: seq<Ase>, i: nat)
    requires base + ASES <= |ases| && |sts| == ASES && k < ASES && Repeatable(op) && s != []
    requires |start| == |ases| && Find(ases, base, s[0], 0) == Find(start, base, s[0], 0) == Some(i)
    requires Pass(env, false, op, ases, base, s, sts, k).verdict == Replied(SUCCESS)
    requires forall j | k <= j < ASES :: sts[j].code == SUCCESS && env.setupOk(j)
    requires AllFollow(op, ases, start) && AllPass(op, start, Named(env, op, ases, base, s, sts, k))
    ensures var f := Pass(env, false, op, ases, base, s, sts, k);
      var g := Pass(env, true, op, start, base, s, f.sts, k);
      && g.verdict == Replied(SUCCESS) && g.sts == f.sts
      && Moved(op, ases, start, g.ases, Named(env, op, ases, base, s, sts, k), f.sts, k)
    decreases |s|, 0
  {
    hide Handle, Pass, Named, Follows, ContextsPass, Find, Moved, Stays, Next;
    var st := sts[k].(aseId := s[0]);
    var c := Handle(env, false, op, ases[i], s[1..], st, k);
    ReturnsFailure(env, false, op, ases[i], s[1..], st, k);
    PassEnds(env, false, op, ases, base, s, sts, k);
    PassContinues(env, false, op, ases, base, s, sts, k, i);
    NamedContinues(env, op, ases, base, s, sts, k, i);
    var ases', sts', s' := ases[i := c.ase], sts[k := c.sts], s[1 + c.used..];
    var f, t' := Pass(env, false, op, ases, base, s, sts, k), Named(env, op, ases', base, s', sts', k + 1);
    CheckFrame(env, op, ases', base, s', sts', k + 1);
    assert i in [i] + t' && f.sts[k] == c.sts;
    RepeatedEntry(env, op, ases[i], start[i], s[1..], st, k);
    var d := Handle(env, true, op, start[i], s[1..], c.sts, k);
    var start' := start[i := d.ase];
    assert f.sts[k].(aseId := s[0]) == f.sts[k] && f.sts[k := d.sts] == f.sts;
    forall j | j in t' && j < |start'| ensures ContextsPass(op, start'[j]) {
      assert j in [i] + t';
    }
    PassRepeats(env, op, ases', base, s', sts', k + 1, start');
    PassContinues(env, true, op, start, base, s, f.sts, k, i);
    CheckKeepsOne(env, op, ases[i], s[1..], st, k);
    var g := Pass(env, true, op, start', base, s', f.sts, k + 1);
    MovedHead(op, ases, start, i, c.ase, d.ase, g.ases, t', f.sts, k);
  }

  // ---- operations that do not ----

  lemma SingleEntry(env: Env, op: byte, a: Ase, b: Ase, s: seq<byte>, sts: Status, k: nat)
    requires Single(op) && sts.code == SUCCESS
    requires Handle(env, false, op, a, s, sts, k).flow.Continue?
    requires Handle(env, true, op, b, s, Handle(env, false, op, a, s, sts, k).sts, k).flow.Continue?
    ensures var c := Handle(env, false, op, a, s, sts, k);
      var d := Handle(env, true, op, b, s, c.sts, k);
      && d.used == c.used && d.sts == c.sts && c.sts.aseId == sts.aseId
      && Next(b.typ, b.state, op) != Max && Next(d.ase.typ, d.ase.state, op) == Max
  {
    hide ParseMetadata, VerifyContext, Next;
    AllowedAgainIfAllowed(b.typ, b.state, op);
    KeepsIdentity(env, false, op, a, s, sts, k);
    OctetsDecide(env, op, a, b, s, sts, Handle(env, false, op, a, s, sts, k).sts, k);
    SingleStatus(s, a.contexts, sts);
    SingleStatus(s, b.contexts, Handle(env, false, op, a, s, sts, k).sts);
  }

  lemma AllowedAgainIfAllowed(t: AseType, s: State, op: byte)
    ensures Single(op) && Next(t, s, op) != Max ==> Next(t, Next(t, s, op), op) == Max
  {
    if Next(t, s, op) != Max {
      AllowedAgain(t, s, op);
    }
  }

  lemma SingleStatus(s: seq<byte>, c: Contexts, sts: Status)
    ensures var r := ParseMetadata(s, c, sts); r.MetaParsed? && r.sts.code != INVALID_LENGTH ==> r.sts == sts
  {
    hide GetMetadata;
  }

  /** An apply pass that is accepted as well names no ASE twice. */
  lemma {:induction false} AcceptedOnce(env: Env, op: byte, ases: seq<Ase>, base: nat, s: seq<byte>, sts: seq<Status>,
                                        k: nat, start: seq<Ase>)
    requires base + ASES <= |ases| && |sts| == ASES && |start| == |ases| && k <= ASES && Single(op)
    requires forall i | 0 <= i < |ases| :: start[i].id == ases[i].id
    requires Pass(env, false, op, ases, base, s, sts, k).verdict == Replied(SUCCESS)
    requires forall j | k <= j < ASES :: sts[j].code == SUCCESS
    requires var f := Pass(env, false, op, ases, base, s, sts, k);
      Pass(env, true, op, start, base, s, f.sts, k).verdict == Replied(SUCCESS)
    ensures var t := Named(env, op, ases, base, s, sts, k);
      Distinct(t) && forall i | i in t && i < |start| :: Next(start[i].typ, start[i].state, op) != Max
    decreases |s|
  {
    hide Handle, Pass, Named, Next;
    PassEnds(env, false, op, ases, base, s, sts, k);
    if s == [] || k >= ASES || Find(ases, base, s[0], 0).None? {
      NamedEnds(env, op, ases, base, s, sts, k);
    } else {
      FindByIds(ases, start, base, s[0], 0);
      StepOnce(env, op, ases, base, s, sts, k, start, Find(ases, base, s[0], 0).value);
    }
  }

  lemma {:induction false} StepOnce(env: Env, op: byte, ases: seq<Ase>, base: nat, s: seq<byte>, sts: seq<Status>,
                                    k: nat, start: seq<Ase>, i: nat)
    requires base + ASES <= |ases| && |sts| == ASES && |start| == |ases| && k < ASES && Single(op) && s != []
    requires Find(ases, base, s[0], 0) == Find(start, base, s[0], 0) == Some(i)
    requires forall i | 0 <= i < |ases| :: start[i].id == ases[i].id
    requires Pass(env, false, op, ases, base, s, sts, k).verdict == Replied(SUCCESS)
    requires forall j | k <= j < ASES :: sts[j].code == SUCCESS
    requires var f := Pass(env, false, op, ases, base, s, sts, k);
      Pass(env, true, op, start, base, s, f.sts, k).verdict == Replied(SUCCESS)
    ensures var t := Named(env, op, ases, base, s, sts, k);
      Distinct(t) && forall i | i in t && i < |start| :: Next(start[i].typ, start[i].state, op) != Max
    decreases |s|, 0
  {
    hide Handle, Pass, Named, Next, Find;
    var st := sts[k].(aseId := s[0]);
    var c := Handle(env, false, op, ases[i], s[1..], st, k);
    ReturnsFailure(env, false, op, ases[i], s[1..], st, k);
    PassEnds(env, false, op, ases, base, s, sts, k);
    PassContinues(env, false, op, ases, base, s, sts, k, i);
    NamedContinues(env, op, ases, base, s, sts, k, i);
    var ases', sts', s' := ases[i := c.ase], sts[k := c.sts], s[1 + c.used..];
    var f, t' := Pass(env, false, op, ases, base, s, sts, k), Named(env, op, ases', base, s', sts', k + 1);
    CheckFrame(env, op, ases', base, s', sts', k + 1);
    KeepsIdentity(env, false, op, ases[i], s[1..], st, k);
    assert f.sts[k] == c.sts && f.sts[k].(aseId := s[0]) == f.sts[k];
    var d := Handle(env, true, op, start[i], s[1..], c.sts, k);
    ReturnsFailure(env, true, op, start[i], s[1..], c.sts, k);
    PassEnds(env, true, op, start, base, s, f.sts, k);
    SingleEntry(env, op, ases[i], start[i], s[1..], st, k);
    KeepsIdentity(env, true, op, start[i], s[1..], c.sts, k);
    assert f.sts[k := d.sts] == f.sts;
    PassContinues(env, true, op, start, base, s, f.sts, k, i);
    var start' := start[i := d.ase];
    AcceptedOnce(env, op, ases', base, s', sts', k + 1, start');
    assert i !in t';
    DistinctHead(i, t');
    forall j | j in [i] + t' && j < |start| ensures Next(start[j].typ, start[j].state, op) != Max {
      if j != i {
        assert j in t' && start'[j] == start[j];
      }
    }
  }

  lemma DistinctHead(i: nat, t: seq<nat>)
    requires Distinct(t) && i !in t
    ensures Distinct([i] + t)
  {
  }

  // ---- exactly ----

  lemma NothingNamed(env: Env, op: byte, ases: seq<Ase>, base: nat, s: seq<byte>, sts: seq<Status>)
    requires base + ASES <= |ases| && |sts| == ASES && !Repeatable(op) && !Single(op)
    ensures Named(env, op, ases, base, s, sts, 0) == []
  {
    hide Pass;
    if s != [] {
      var found := Find(ases, base, s[0], 0);
      if found.Some? {
        var a := ases[found.value];
        if Next(a.typ, a.state, op) != Max {
          AllowedAgain(a.typ, a.state, op);
        }
      }
    }
  }

  /** Once the check pass accepts a write, and when the data paths can be set up, the apply pass accepts it with the
      same statuses if and only if the write names no ASE twice or its operation is one that leads back: Config Codec,
      Config QoS, Update Metadata or Release. */
  lemma AgreeExactly(env: Env, ases: seq<Ase>, base: nat, data: seq<byte>)
    requires base + ASES <= |ases| && forall j | 0 <= j < ASES :: env.setupOk(j)
    requires CheckWrite(env, false, ases, base, data, [NO_STATUS, NO_STATUS, NO_STATUS]).verdict == Replied(SUCCESS)
    ensures var f := CheckWrite(env, false, ases, base, data, [NO_STATUS, NO_STATUS, NO_STATUS]);
      var g := CheckWrite(env, true, f.ases, base, data, f.sts);
      var t := Named(env, data[0], ases, base, data[2..], [NO_STATUS, NO_STATUS, NO_STATUS], 0);
      g.verdict == Replied(SUCCESS) && g.sts == f.sts
      <==> Distinct(t) || data[0] in {CONFIG_CODEC, CONFIG_QOS, UPDATE_METADATA, RELEASE}
  {
    hide Pass, Named, Distinct, AppliedTo;
    var z, op, s := [NO_STATUS, NO_STATUS, NO_STATUS], data[0], data[2..];
    var f := Pass(env, false, op, ases, base, s, z, 0);
    var t := Named(env, op, ases, base, s, z, 0);
    CheckKeepsState(env, op, ases, base, s, z, 0);
    if Distinct(t) {
      ApplyAgreesWithCheck(env, ases, base, data);
    } else if Repeatable(op) {
      NamedPass(env, op, ases, base, s, z, 0);
      PassRepeats(env, op, ases, base, s, z, 0, f.ases);
    } else if Single(op) {
      if Pass(env, true, op, f.ases, base, s, f.sts, 0).verdict == Replied(SUCCESS) {
        AcceptedOnce(env, op, ases, base, s, z, 0, f.ases);
      }
    } else {
      NothingNamed(env, op, ases, base, s, z);
      EmptyDistinct();
    }
  }

  /** What a repeatable operation does that names ASEs any number of times: every ASE that an entry with status success
      names ends in the table's next state, and every other ASE is in the state it had before the write. */
  lemma RepeatedMoves(env: Env, ases: seq<Ase>, base: nat, data: seq<byte>, i: nat)
    requires base + ASES <= |ases| && i < |ases| && forall j | 0 <= j < ASES :: env.setupOk(j)
    requires CheckWrite(env, false, ases, base, data, [NO_STATUS, NO_STATUS, NO_STATUS]).verdict == Replied(SUCCESS)
    requires Repeatable(data[0])
    ensures var f := CheckWrite(env, false, ases, base, data, [NO_STATUS, NO_STATUS, NO_STATUS]);
      var g := CheckWrite(env, true, f.ases, base, data, f.sts);
      var t := Named(env, data[0], ases, base, data[2..], [NO_STATUS, NO_STATUS, NO_STATUS], 0);
      && |t| <= ASES
      && g.ases[i].state
         == if exists m: nat :: Hit(t, f.sts, 0, m, i) then Next(ases[i].typ, ases[i].state, data[0]) else ases[i].state
  {
    hide Pass, Named, Next, ContextsPass, Hit;
    var z, op, s := [NO_STATUS, NO_STATUS, NO_STATUS], data[0], data[2..];
    var f := Pass(env, false, op, ases, base, s, z, 0);
    CheckKeepsState(env, op, ases, base, s, z, 0);
    CheckFrame(env, op, ases, base, s, z, 0);
    NamedPass(env, op, ases, base, s, z, 0);
    PassRepeats(env, op, ases, base, s, z, 0, f.ases);
  }

  lemma EmptyDistinct()
    ensures Distinct([])
  {
  }
}
