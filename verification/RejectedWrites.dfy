/** What a control point write stores although it is rejected: the check pass keeps QoS values and contexts. */
module RejectedWrites {
  import opened AscsPayload
  import opened AscsTypes
  import opened AseMachine
  import opened Bytes
  import opened ControlPoint
  import opened Metadata
  import opened TwoPass

  /** An entry the check pass came to: its ASE, and the octets from behind the ASE's id on. */
  datatype Reached = Reached(ase: nat, octets: seq<byte>)

  /** The entries of a write the check pass comes to, the one that ends it included. */
  function ReachedBy(env: Env, op: byte, ases: seq<Ase>, base: nat, s: seq<byte>, sts: seq<Status>, k: nat)
    : (r: seq<Reached>)
    requires base + ASES <= |ases| && |sts| == ASES
    decreases |s|
  {
    if s == [] || k >= ASES then []
    else
      var st := sts[k].(aseId := s[0]);
      match Find(ases, base, s[0], 0)
      case None => []
      case Some(i) =>
        var h := Handle(env, false, op, ases[i], s[1..], st, k);
        HandledUsed(env, false, op, ases[i], s[1..], st, k);
        [Reached(i, s[1..])]
        + if h.flow.Continue? then
            ReachedBy(env, op, ases[i := h.ase], base, s[1 + h.used..], sts[k := h.sts], k + 1)
          else []
  }

  /** What one entry stores in its ASE: QoS values that are all in range, with the handle of their CIS, and contexts
      even if the entry is then refused for them; nothing where the operation is not allowed. */
  function Overwrite(env: Env, op: byte, a: Ase, octets: seq<byte>): Ase {
    if Next(a.typ, a.state, op) == Max then a
    else if op == CONFIG_QOS then
      var r := ParseConfigQos(octets, NO_STATUS);
      if r.sts.code == SUCCESS then a.(qos := r.qos, cis := env.cisHandle(r.qos.cig, r.qos.cis, a.acl)) else a
    else if op == ENABLE || op == UPDATE_METADATA then
      match ParseMetadata(octets, a.contexts, NO_STATUS)
      case MetaOverrun => a
      case MetaParsed(contexts, _, _) => a.(contexts := contexts)
    else a
  }

  /** ASE `i` after the entries that name it. */
  function Overwritten(env: Env, op: byte, a: Ase, es: seq<Reached>, i: nat): Ase
    decreases |es|
  {
    if es == [] then a
    else Overwritten(env, op, if es[0].ase == i then Overwrite(env, op, a, es[0].octets) else a, es[1..], i)
  }

  lemma QosIgnoresStatus(s: seq<byte>, sts: Status)
    requires sts.code == SUCCESS
    ensures var r, r' := ParseConfigQos(s, sts), ParseConfigQos(s, NO_STATUS);
      r.qos == r'.qos && r.sts.code == r'.sts.code
  {
    hide ReadQos, QosInRange;
  }

  lemma MetadataIgnoresStatus(s: seq<byte>, c: Contexts, sts: Status)
    ensures var r, r' := ParseMetadata(s, c, sts), ParseMetadata(s, c, NO_STATUS);
      r.MetaParsed? == r'.MetaParsed? && (r.MetaParsed? ==> r.contexts == r'.contexts)
  {
    hide GetMetadata;
  }

  lemma EntryOverwrites(env: Env, op: byte, a: Ase, s: seq<byte>, sts: Status, k: nat)
    requires sts.code == SUCCESS
    ensures Handle(env, false, op, a, s, sts, k).ase == Overwrite(env, op, a, s)
  {
    hide ParseCodecConfig, ParseConfigQos, ParseMetadata, Next;
    QosIgnoresStatus(s, sts);
    MetadataIgnoresStatus(s, a.contexts, sts);
  }

  lemma ReachedOne(env: Env, op: byte, ases: seq<Ase>, base: nat, s: seq<byte>, sts: seq<Status>, k: nat)
    requires base + ASES <= |ases| && |sts| == ASES
    ensures s == [] || k >= ASES || Find(ases, base, s[0], 0).None? ==> ReachedBy(env, op, ases, base, s, sts, k) == []
    ensures s != [] && k < ASES && Find(ases, base, s[0], 0).Some? ==>
              var i := Find(ases, base, s[0], 0).value;
              var h := Handle(env, false, op, ases[i], s[1..], sts[k].(aseId := s[0]), k);
              && h.used <= |s| - 1
              && ReachedBy(env, op, ases, base, s, sts, k)
                 == [Reached(i, s[1..])]
                    + if h.flow.Continue? then
                        ReachedBy(env, op, ases[i := h.ase], base, s[1 + h.used..], sts[k := h.sts], k + 1)
                      else []
  {
    hide Handle;
    if s != [] && k < ASES && Find(ases, base, s[0], 0).Some? {
      HandledUsed(env, false, op, ases[Find(ases, base, s[0], 0).value], s[1..], sts[k].(aseId := s[0]), k);
    }
  }

  lemma OverwrittenHead(env: Env, op: byte, a: Ase, e: Reached, es: seq<Reached>, i: nat)
    ensures Overwritten(env, op, a, [e] + es, i)
         == Overwritten(env, op, if e.ase == i then Overwrite(env, op, a, e.octets) else a, es, i)
  {
    hide Overwrite;
    assert ([e] + es)[1..] == es;
  }

  /** The check pass of any write leaves in every ASE exactly what the entries it came to store there. */
  lemma {:induction false} CheckOverwrites(env: Env, op: byte, ases: seq<Ase>, base: nat, s: seq<byte>,
                                           sts: seq<Status>, k: nat, i: nat)
    requires base + ASES <= |ases| && |sts| == ASES && i < |ases|
    requires forall j | k <= j < ASES :: sts[j].code == SUCCESS
    ensures Pass(env, false, op, ases, base, s, sts, k).ases[i]
         == Overwritten(env, op, ases[i], ReachedBy(env, op, ases, base, s, sts, k), i)
    decreases |s|
  {
    hide Handle, Pass, Overwrite, Overwritten, ReachedBy;
    PassEnds(env, false, op, ases, base, s, sts, k);
    ReachedOne(env, op, ases, base, s, sts, k);
    NothingOverwritten(env, op, ases[i], i);
    if s != [] && k < ASES {
      var found := Find(ases, base, s[0], 0);
      if found.Some? {
        var j, st := found.value, sts[k].(aseId := s[0]);
        var h := Handle(env, false, op, ases[j], s[1..], st, k);
        var e := Reached(j, s[1..]);
        EntryOverwrites(env, op, ases[j], s[1..], st, k);
        var next := ases[j := h.ase];
        NothingOverwritten(env, op, next[i], i);
        if h.flow.Continue? {
          PassContinues(env, false, op, ases, base, s, sts, k, j);
          var s', sts' := s[1 + h.used..], sts[k := h.sts];
          CheckOverwrites(env, op, next, base, s', sts', k + 1, i);
          OverwrittenHead(env, op, ases[i], e, ReachedBy(env, op, next, base, s', sts', k + 1), i);
        } else {
          OverwrittenHead(env, op, ases[i], e, [], i);
        }
      }
    }
  }

  lemma NothingOverwritten(env: Env, op: byte, a: Ase, i: nat)
    ensures Overwritten(env, op, a, [], i) == a
  {
  }

  lemma {:induction false} OthersOverwriteNothing(env: Env, op: byte, a: Ase, es: seq<Reached>, i: nat)
    requires op !in {CONFIG_QOS, ENABLE, UPDATE_METADATA}
    ensures Overwritten(env, op, a, es, i) == a
    decreases |es|
  {
    if es != [] {
      OthersOverwriteNothing(env, op, a, es[1..], i);
    }
  }

  /** Which fields that can be, and whose. */
  lemma {:induction false} OverwrittenFields(env: Env, op: byte, a: Ase, es: seq<Reached>, i: nat)
    ensures var b := Overwritten(env, op, a, es, i);
      && b == (if op == CONFIG_QOS then a.(qos := b.qos, cis := b.cis) else a.(contexts := b.contexts))
      && (a.state == Idle || (forall e | e in es :: e.ase != i) ==> b == a)
    decreases |es|
  {
    hide ParseConfigQos, ParseMetadata;
    if es != [] {
      var next := if es[0].ase == i then Overwrite(env, op, a, es[0].octets) else a;
      OverwrittenFields(env, op, next, es[1..], i);
      assert forall e | e in es[1..] :: e in es;
      assert es[0] in es;
    }
  }

  predicate HeaderAccepted(data: seq<byte>) {
    |data| >= 2 && data[0] <= OPCODE_MAX && 1 <= data[1] <= ASES
  }

  /** A rejected write leaves in each ASE exactly what its entries, up to the one that was refused, store there: for
      Config QoS the QoS values in range and the CIS handle, for Enable and Update Metadata the contexts. For any other
      operation, or with a bad header, it changes nothing at all, and an Idle ASE is never changed. */
  lemma RejectedWriteOverwrites(env: Env, ases: seq<Ase>, base: nat, data: seq<byte>, i: nat)
    requires base + ASES <= |ases| && i < |ases|
    requires CheckWrite(env, false, ases, base, data, [NO_STATUS, NO_STATUS, NO_STATUS]).verdict != Replied(SUCCESS)
    ensures Write(env, ases, base, data)[i]
         == if HeaderAccepted(data) then
              Overwritten(env, data[0], ases[i],
                          ReachedBy(env, data[0], ases, base, data[2..], [NO_STATUS, NO_STATUS, NO_STATUS], 0), i)
            else ases[i]
    ensures (HeaderAccepted(data) && data[0] in {CONFIG_QOS, ENABLE, UPDATE_METADATA})
            || Write(env, ases, base, data)[i] == ases[i]
    ensures var a, b := ases[i], Write(env, ases, base, data)[i];
      && (b == a.(qos := b.qos, cis := b.cis) || b == a.(contexts := b.contexts))
      && (a.state == Idle ==> b == a)
  {
    hide Pass, Overwritten, ReachedBy;
    if HeaderAccepted(data) {
      var z := [NO_STATUS, NO_STATUS, NO_STATUS];
      OverwrittenFields(env, data[0], ases[i], ReachedBy(env, data[0], ases, base, data[2..], z, 0), i);
      CheckOverwrites(env, data[0], ases, base, data[2..], z, 0, i);
      if data[0] !in {CONFIG_QOS, ENABLE, UPDATE_METADATA} {
        OthersOverwriteNothing(env, data[0], ases[i], ReachedBy(env, data[0], ases, base, data[2..], z, 0), i);
      }
    }
  }

  /** Such a write: a Config QoS for an ASE that may be configured and for a second one that may not is rejected, and
      the first ASE holds the new values. */
  lemma RejectedWriteStoresQos(env: Env, ases: seq<Ase>, base: nat, i: nat, j: nat, q: Qos, id: byte)
    requires base + ASES <= |ases| && i != j && QosInRange(q)
    requires i < |ases| && Find(ases, base, ases[i].id, 0) == Some(i) && Find(ases, base, id, 0) == Some(j)
    requires Next(ases[i].typ, ases[i].state, CONFIG_QOS) != Max && Next(ases[j].typ, ases[j].state, CONFIG_QOS) == Max
    ensures var data := [CONFIG_QOS, 2] + QosEntry(ases[i].id, q) + [id];
      && CheckWrite(env, false, ases, base, data, [NO_STATUS, NO_STATUS, NO_STATUS]).verdict
         == Replied(INVALID_TRANSITION)
      && Write(env, ases, base, data)[i] == ases[i].(qos := q, cis := env.cisHandle(q.cig, q.cis, ases[i].acl))
  {
    hide Pass, Find, Next, QosEntry, ParseConfigQos;
    var e, z := QosEntry(ases[i].id, q), [NO_STATUS, NO_STATUS, NO_STATUS];
    var data := [CONFIG_QOS, 2] + e + [id];
    EntryId(ases[i].id, q);
    assert data[2..] == e + [id] && (e + [id])[1..] == e[1..] + [id];
    var st := NO_STATUS.(aseId := ases[i].id);
    QosRoundTrip(ases[i].id, q, [id], st);
    var a := ases[i].(qos := q, cis := env.cisHandle(q.cig, q.cis, ases[i].acl));
    PassContinues(env, false, CONFIG_QOS, ases, base, e + [id], z, 0, i);
    assert (e + [id])[16..] == [id];
    FindByIds(ases, ases[i := a], base, id, 0);
    PassEnds(env, false, CONFIG_QOS, ases[i := a], base, [id], z[0 := st], 1);
  }

  lemma EntryId(id: byte, q: Qos)
    requires QosInRange(q)
    ensures QosEntry(id, q)[0] == id
  {
  }
}
