/** Receiver Start Ready: each entry sets up a data path before its ASE moves, and the first one that fails stops the
    write. */
module StartReady {
  import opened AscsPayload
  import opened AscsRuns
  import opened AscsTypes
  import opened AseMachine
  import opened Bytes
  import opened ControlPoint
  import opened Pacs
  import opened TwoPass

  /** The ASEs the ids name, in order, up to an id that names none. */
  function Entries(ases: seq<Ase>, base: nat, ids: seq<byte>): (t: seq<nat>)
    requires base + ASES <= |ases|
    ensures |t| <= |ids| && forall k | 0 <= k < |t| :: t[k] < |ases|
  {
    if ids == [] then []
    else
      match Find(ases, base, ids[0], 0)
      case None => []
      case Some(i) => [i] + Entries(ases, base, ids[1..])
  }

  /** The ASE after its data path was set up. */
  function Started(a: Ase): Ase {
    a.(state := Streaming, hist := a.hist + [Move(Op(RECEIVER_START_READY), a.state, Streaming)])
  }

  /** The first `m` entries name distinct ASEs and set up their data paths; the one behind them, if there is one, names
      one of these again or fails. `k` is the position of the first of the entries in the write. */
  predicate StopsAt(env: Env, t: seq<nat>, k: nat, m: nat) {
    && m <= |t|
    && (forall p | k <= p < k + m :: env.setupOk(p))
    && (forall i, j | 0 <= i < j < m :: t[i] != t[j])
    && (m < |t| ==> !env.setupOk(k + m) || t[m] in t[..m])
  }

  lemma EntriesById(a: seq<Ase>, b: seq<Ase>, base: nat, ids: seq<byte>)
    requires |a| == |b| && base + ASES <= |a| && forall j | 0 <= j < |a| :: a[j].id == b[j].id
    ensures Entries(a, base, ids) == Entries(b, base, ids)
  {
    hide Find;
    if ids != [] {
      FindByIds(a, b, base, ids[0], 0);
      EntriesById(a, b, base, ids[1..]);
    }
  }

  /** One entry: it uses no octet behind its id. */
  lemma OneEntry(env: Env, apply: bool, a: Ase, s: seq<byte>, sts: Status, k: nat)
    requires sts.code == SUCCESS
    ensures var h := Handle(env, apply, RECEIVER_START_READY, a, s, sts, k);
      && h.used == 0
      && h.ase == (if a.state == Enabling && apply && env.setupOk(k) then Started(a) else a)
      && (if a.state != Enabling then h.flow == Return(INVALID_TRANSITION)
          else if apply && !env.setupOk(k) then h.flow == SetupFailed && h.sts == sts
          else h.flow == Continue && h.sts == sts)
  {
  }

  predicate AllEnabling(ases: seq<Ase>, t: seq<nat>) {
    forall k | 0 <= k < |t| :: t[k] < |ases| && ases[t[k]].state == Enabling
  }

  /** The check pass lets the write through only if all ASEs named are in Enabling, and then changes no ASE and leaves
      the statuses of these entries, and of those it did not come to, at success. */
  lemma {:induction false} CheckAllows(env: Env, ases: seq<Ase>, base: nat, ids: seq<byte>, sts: seq<Status>, k: nat)
    requires base + ASES <= |ases| && |sts| == ASES && k <= ASES
    requires forall j | 0 <= j < ASES :: sts[j].code == SUCCESS
    ensures var f, t := Pass(env, false, RECEIVER_START_READY, ases, base, ids, sts, k), Entries(ases, base, ids);
      f.verdict == Replied(SUCCESS) ==>
        && f.ases == ases && k + |t| <= ASES && AllEnabling(ases, t)
        && (forall j | 0 <= j < k :: f.sts[j] == sts[j])
        && (forall j | k <= j < k + |t| :: f.sts[j].code == SUCCESS)
    decreases |ids|
  {
    hide Handle, Pass, Find;
    PassEnds(env, false, RECEIVER_START_READY, ases, base, ids, sts, k);
    if ids != [] && k < ASES && Find(ases, base, ids[0], 0).Some? {
      var i, st := Find(ases, base, ids[0], 0).value, sts[k].(aseId := ids[0]);
      OneEntry(env, false, ases[i], ids[1..], st, k);
      if ases[i].state == Enabling {
        PassContinues(env, false, RECEIVER_START_READY, ases, base, ids, sts, k, i);
        assert ases[i := ases[i]] == ases;
        CheckAllows(env, ases, base, ids[1..], sts[k := st], k + 1);
      }
    }
  }

  /** The same of ASEs some of which may have moved already. */
  predicate StopsIn(env: Env, ases: seq<Ase>, t: seq<nat>, k: nat, m: nat) {
    && m <= |t| && (forall j | 0 <= j < |t| :: t[j] < |ases|)
    && (forall p | k <= p < k + m :: env.setupOk(p)) && (forall j | 0 <= j < m :: ases[t[j]].state == Enabling)
    && (forall i, j | 0 <= i < j < m :: t[i] != t[j])
    && (m < |t| ==> !env.setupOk(k + m) || ases[t[m]].state != Enabling || t[m] in t[..m])
  }

  /** What the entries leave when they stop at the `m`-th. */
  predicate StartsUpTo(before: seq<Ase>, after: seq<Ase>, t: seq<nat>, m: nat) {
    && |before| == |after| && m <= |t|
    && forall i | 0 <= i < |before| :: after[i] == if i in t[..m] then Started(before[i]) else before[i]
  }

  lemma StartsHead(before: seq<Ase>, after: seq<Ase>, t: seq<nat>, m: nat)
    requires t != [] && t[0] < |before| && 0 < m <= |t| && t[0] !in t[1..m]
    requires StartsUpTo(before[t[0] := Started(before[t[0]])], after, t[1..], m - 1)
    ensures StartsUpTo(before, after, t, m)
  {
    assert t[1..][..m - 1] == t[1..m] && t[..m] == [t[0]] + t[1..m];
  }

  lemma StopsBehind(env: Env, ases: seq<Ase>, t: seq<nat>, k: nat, m: nat)
    requires m > 0 && StopsIn(env, ases, t, k, m)
    ensures t[0] !in t[1..m] && env.setupOk(k) && ases[t[0]].state == Enabling
    ensures StopsIn(env, ases[t[0] := Started(ases[t[0]])], t[1..], k + 1, m - 1)
  {
    var u := t[1..];
    assert u[..m - 1] == t[1..m] && t[..m] == [t[0]] + t[1..m];
    forall j | 0 <= j < m - 1 ensures ases[u[j]].state == Enabling && u[j] != t[0] {
      assert u[j] == t[j + 1];
    }
  }

  lemma EntriesHead(ases: seq<Ase>, base: nat, ids: seq<byte>)
    requires base + ASES <= |ases|
    ensures var t := Entries(ases, base, ids);
      t != [] ==>
        && ids != [] && Find(ases, base, ids[0], 0) == Some(t[0])
        && t[1..] == Entries(ases, base, ids[1..])
    ensures Entries(ases, base, ids) == [] ==> ids == [] || Find(ases, base, ids[0], 0) == None
  {
    hide Find;
  }

  /** The apply pass. */
  lemma {:induction false} ApplyStarts(env: Env, ases: seq<Ase>, base: nat, ids: seq<byte>, sts: seq<Status>, k: nat,
                                       m: nat)
    requires base + ASES <= |ases| && |sts| == ASES && k + |Entries(ases, base, ids)| <= ASES
    requires forall j | k <= j < k + |Entries(ases, base, ids)| :: sts[j].code == SUCCESS
    requires StopsIn(env, ases, Entries(ases, base, ids), k, m)
    ensures StartsUpTo(ases, Pass(env, true, RECEIVER_START_READY, ases, base, ids, sts, k).ases,
                       Entries(ases, base, ids), m)
    decreases |ids|
  {
    hide Handle, Pass, Find, Entries, StopsIn, StartsUpTo, Started;
    var t := Entries(ases, base, ids);
    EntriesHead(ases, base, ids);
    PassEnds(env, true, RECEIVER_START_READY, ases, base, ids, sts, k);
    StartsNone(ases, t);
    if t == [] {
      StopsWithin(env, ases, t, k, m);
    } else {
      var i, st := t[0], sts[k].(aseId := ids[0]);
      OneEntry(env, true, ases[i], ids[1..], st, k);
      if m == 0 {
        StopsAtHead(env, ases, t, k);
        assert ases[i := ases[i]] == ases;
      } else {
        StopsBehind(env, ases, t, k, m);
        PassContinues(env, true, RECEIVER_START_READY, ases, base, ids, sts, k, i);
        var next := ases[i := Started(ases[i])];
        KeepsIds(ases, i);
        EntriesById(ases, next, base, ids[1..]);
        ApplyStarts(env, next, base, ids[1..], sts[k := st], k + 1, m - 1);
        StopsWithin(env, ases, t, k, m);
        StartsHead(ases, Pass(env, true, RECEIVER_START_READY, next, base, ids[1..], sts[k := st], k + 1).ases, t, m);
      }
    }
  }

  lemma KeepsIds(ases: seq<Ase>, i: nat)
    requires i < |ases|
    ensures forall j | 0 <= j < |ases| :: ases[i := Started(ases[i])][j].id == ases[j].id
  {
  }

  lemma StopsWithin(env: Env, ases: seq<Ase>, t: seq<nat>, k: nat, m: nat)
    requires StopsIn(env, ases, t, k, m)
    ensures m <= |t|
  {
  }

  lemma StopsAtHead(env: Env, ases: seq<Ase>, t: seq<nat>, k: nat)
    requires t != [] && StopsIn(env, ases, t, k, 0)
    ensures !env.setupOk(k) || ases[t[0]].state != Enabling
  {
    assert t[..0] == [];
  }

  lemma StartsNone(ases: seq<Ase>, t: seq<nat>)
    ensures StartsUpTo(ases, ases, t, 0)
  {
  }

  /** There is always a place where the entries stop, be it their end. */
  lemma {:induction false} StopOf(env: Env, t: seq<nat>, m: nat) returns (r: nat)
    requires m <= |t| && forall j | 0 <= j < m :: env.setupOk(j) && t[j] !in t[..j]
    ensures StopsAt(env, t, 0, r)
    decreases |t| - m
  {
    r := m;
    if m < |t| && env.setupOk(m) && t[m] !in t[..m] {
      r := StopOf(env, t, m + 1);
    } else {
      forall i, j | 0 <= i < j < m ensures t[i] != t[j] {
        assert t[..j][i] == t[i];
      }
    }
  }

  /** Any Receiver Start Ready the check pass accepts, from any connection: if its entries stop at the `m`-th, the ASEs
      of the entries before it stream, and the ASE of this entry and those of all later ones keep their state and
      history, unless one of the first entries names them too; no ASE but those that wait for the end of a CIS changes
      otherwise. */
  lemma FailedSetUpStops(ases: seq<Ase>, c: nat, data: seq<byte>, env: Env, m: nat)
    requires Shape(ases) && c < CONNECTIONS && InUse(ases, c) && data != [] && data[0] == RECEIVER_START_READY
    requires CheckWrite(env, false, ases, c * ASES, data, [NO_STATUS, NO_STATUS, NO_STATUS]).verdict
             == Replied(SUCCESS)
    ensures var t, after := Entries(ases, c * ASES, data[2..]), Step(ases, Written(c, data, env));
      && AllEnabling(ases, t)
      && (StopsAt(env, t, 0, m) ==>
            forall i | 0 <= i < |ases| && (i in t || !Waits(env, ases[i])) ::
              after[i] == if i in t[..m] then Started(ases[i]) else ases[i])
  {
    hide Pass, Settle, Entries, Waits, Started;
    var base, z := c * ASES, [NO_STATUS, NO_STATUS, NO_STATUS];
    var t, after := Entries(ases, base, data[2..]), Step(ases, Written(c, data, env));
    CheckAllows(env, ases, base, data[2..], z, 0);
    var f := CheckWrite(env, false, ases, base, data, z);
    if StopsAt(env, t, 0, m) {
      ApplyStarts(env, ases, base, data[2..], f.sts, 0, m);
      var g := CheckWrite(env, true, ases, base, data, f.sts);
      forall i | 0 <= i < |ases| && (i in t || !Waits(env, ases[i]))
        ensures after[i] == if i in t[..m] then Started(ases[i]) else ases[i]
      {
        WriteLeavesWaiting(env, ases, base, data, i);
        NoneWaits(env, ases, t, i);
      }
    }
  }

  lemma NoneWaits(env: Env, ases: seq<Ase>, t: seq<nat>, i: nat)
    requires i < |ases| && AllEnabling(ases, t)
    ensures i in t ==> !Waits(env, ases[i])
    ensures !Waits(env, Started(ases[i]))
  {
  }

  // ---- the check pass sets up nothing ----

  lemma HandleSetsUpNothing(env: Env, ok: nat -> bool, op: byte, a: Ase, s: seq<byte>, sts: Status, k: nat)
    ensures Handle(env, false, op, a, s, sts, k) == Handle(env.(setupOk := ok), false, op, a, s, sts, k)
  {
    hide ParseCodecConfig, ParseConfigQos, ParseMetadata, VerifyContext, VerifyCodecConfig, Next;
  }

  /** Whether data paths can be set up decides nothing in the check pass of any write. */
  lemma {:induction false} CheckSetsUpNothing(env: Env, ok: nat -> bool, op: byte, ases: seq<Ase>, base: nat,
                                              s: seq<byte>, sts: seq<Status>, k: nat)
    requires base + ASES <= |ases| && |sts| == ASES
    ensures Pass(env, false, op, ases, base, s, sts, k)
         == Pass(env.(setupOk := ok), false, op, ases, base, s, sts, k)
    decreases |s|
  {
    hide Handle, Pass, Find;
    PassEnds(env, false, op, ases, base, s, sts, k);
    PassEnds(env.(setupOk := ok), false, op, ases, base, s, sts, k);
    if s != [] && k < ASES && Find(ases, base, s[0], 0).Some? {
      var i, st := Find(ases, base, s[0], 0).value, sts[k].(aseId := s[0]);
      HandleSetsUpNothing(env, ok, op, ases[i], s[1..], st, k);
      var h := Handle(env, false, op, ases[i], s[1..], st, k);
      if h.flow.Continue? {
        PassContinues(env, false, op, ases, base, s, sts, k, i);
        PassContinues(env.(setupOk := ok), false, op, ases, base, s, sts, k, i);
        CheckSetsUpNothing(env, ok, op, ases[i := h.ase], base, s[1 + h.used..], sts[k := h.sts], k + 1);
      }
    }
  }
}
