/** Service discovery: slots for the characteristics a profile knows, filled from what the peer reports, sections 4.6
    and 4.7 of Vol 3 Part G of the Core Specification. */
module GattDiscovery {
  import opened AscsTypes
  import opened Bytes

  datatype Uuid = Uuid16(short: uint16) | Uuid32(middle: uint32) | Uuid128(long: seq<byte>)

  const CHAR_DECLARE := Uuid16(0x2803)
  const CLIENT_CONFIG := Uuid16(0x2902)

  /** A zero handle stands for nothing found. */
  datatype Slot = Slot(uuid: Uuid, handle: uint16, value: uint16, descriptor: uint16)

  datatype Characteristic = Characteristic(uuid: Uuid, handle: uint16, value: uint16)
  datatype Descriptor = Descriptor(uuid: Uuid, handle: uint16)

  function FindFree(slots: seq<Slot>, uuid: Uuid, i: nat): (r: Option<nat>)
    requires i <= |slots|
    ensures r.Some? ==> i <= r.value < |slots| && slots[r.value].handle == 0 && slots[r.value].uuid == uuid
    decreases |slots| - i
  {
    if i == |slots| then None
    else if slots[i].handle == 0 && slots[i].uuid == uuid then Some(i)
    else FindFree(slots, uuid, i + 1)
  }

  function FindHandle(slots: seq<Slot>, handle: uint16, i: nat): (r: Option<nat>)
    requires i <= |slots|
    ensures r.Some? ==> i <= r.value < |slots| && slots[r.value].handle == handle
    decreases |slots| - i
  {
    if i == |slots| then None else if slots[i].handle == handle then Some(i) else FindHandle(slots, handle, i + 1)
  }

  function OnCharacteristic(slots: seq<Slot>, c: Characteristic): (r: seq<Slot>)
    ensures |r| == |slots| && forall i | 0 <= i < |slots| :: r[i].uuid == slots[i].uuid
  {
    match FindFree(slots, c.uuid, 0)
    case None => slots
    case Some(i) => slots[i := slots[i].(handle := c.handle, value := c.value)]
  }

  datatype Progress = Progress(slots: seq<Slot>, lastFound: uint16)

  predicate IsCccd(d: Descriptor) {
    d.uuid == CLIENT_CONFIG && d.handle != 0
  }

  /** The descriptors of the whole service are reported in one stream; a CCCD belongs to the declaration before it. */
  function OnDescriptor(p: Progress, d: Descriptor): (r: Progress)
    ensures |r.slots| == |p.slots|
    ensures forall i | 0 <= i < |p.slots| :: r.slots[i].handle == p.slots[i].handle
  {
    if d.uuid == CHAR_DECLARE then p.(lastFound := d.handle)
    else if !IsCccd(d) then p
    else
      match FindHandle(p.slots, p.lastFound, 0)
      case None => p
      case Some(i) => p.(slots := p.slots[i := p.slots[i].(descriptor := d.handle)])
  }

  function AllCharacteristics(slots: seq<Slot>, cs: seq<Characteristic>): (r: seq<Slot>)
    ensures |r| == |slots| && forall i | 0 <= i < |slots| :: r[i].uuid == slots[i].uuid
  {
    if cs == [] then slots else OnCharacteristic(AllCharacteristics(slots, cs[..|cs| - 1]), cs[|cs| - 1])
  }

  function AllDescriptors(slots: seq<Slot>, ds: seq<Descriptor>): (r: Progress)
    ensures |r.slots| == |slots| && forall i | 0 <= i < |slots| :: r.slots[i].handle == slots[i].handle
  {
    if ds == [] then Progress(slots, 0) else OnDescriptor(AllDescriptors(slots, ds[..|ds| - 1]), ds[|ds| - 1])
  }

  // ---- the slots in memory ----

  class ServiceDiscovery {
    const slots: array<Slot>
    var lastFoundCharHandle: uint16

    ghost function Contents(): Progress
      reads this, slots
    {
      Progress(slots[..], lastFoundCharHandle)
    }

    constructor (n: nat)
      ensures fresh(slots) && slots.Length == n
      ensures forall i | 0 <= i < n :: slots[i] == Slot(Uuid16(0), 0, 0, 0)
      ensures lastFoundCharHandle == 0
    {
      slots := new Slot[n](_ => Slot(Uuid16(0), 0, 0, 0));
      lastFoundCharHandle := 0;
    }

    /** The first slots are for these characteristics, one each. */
    method CopyUnique(uuids: seq<Uuid>) returns (next: nat)
      modifies slots
      ensures next == if |uuids| > slots.Length then 0 else |uuids|
      ensures forall i | 0 <= i < slots.Length ::
                slots[i] == if i < next then old(slots[i]).(uuid := uuids[i]) else old(slots[i])
    {
      if |uuids| > slots.Length {
        return 0;
      }
      next := 0;
      while next < |uuids|
        invariant 0 <= next <= |uuids|
        invariant forall i | 0 <= i < slots.Length ::
                    slots[i] == if i < next then old(slots[i]).(uuid := uuids[i]) else old(slots[i])
      {
        slots[next] := slots[next].(uuid := uuids[next]);
        next := next + 1;
      }
    }

    /** The next `repeat` slots are all for one characteristic, which the peer may have several times. */
    method Repeat(start: nat, uuid: Uuid, repeat: nat) returns (next: nat)
      modifies slots
      ensures next == if start + repeat > slots.Length then 0 else start + repeat
      ensures forall i | 0 <= i < slots.Length ::
                slots[i] == if start <= i < next then old(slots[i]).(uuid := uuid) else old(slots[i])
    {
      if start + repeat > slots.Length {
        return 0;
      }
      next := start;
      while next < start + repeat
        invariant start <= next <= start + repeat
        invariant forall i | 0 <= i < slots.Length ::
                    slots[i] == if start <= i < next then old(slots[i]).(uuid := uuid) else old(slots[i])
      {
        slots[next] := slots[next].(uuid := uuid);
        next := next + 1;
      }
    }

    method HandleCharacteristic(c: Characteristic)
      modifies slots
      ensures slots[..] == OnCharacteristic(old(slots[..]), c)
    {
      var i := 0;
      while i < slots.Length
        invariant 0 <= i <= slots.Length && slots[..] == old(slots[..])
        invariant FindFree(slots[..], c.uuid, i) == FindFree(slots[..], c.uuid, 0)
      {
        if slots[i].handle == 0 && slots[i].uuid == c.uuid {
          slots[i] := slots[i].(handle := c.handle, value := c.value);
          break;
        }
        i := i + 1;
      }
    }

    method HandleDescriptor(d: Descriptor)
      modifies this, slots
      ensures Contents() == OnDescriptor(old(Contents()), d)
    {
      if d.uuid == CHAR_DECLARE {
        lastFoundCharHandle := d.handle;
      } else if d.uuid == CLIENT_CONFIG && d.handle != 0 {
        var i := 0;
        while i < slots.Length
          invariant 0 <= i <= slots.Length && Contents() == old(Contents())
          invariant FindHandle(slots[..], lastFoundCharHandle, i) == FindHandle(slots[..], lastFoundCharHandle, 0)
        {
          if slots[i].handle == lastFoundCharHandle {
            slots[i] := slots[i].(descriptor := d.handle);
            break;
          }
          i := i + 1;
        }
      }
    }
  }

  // ---- which slot holds what ----

  /** The discovered characteristics with a UUID, in order. */
  function Of(cs: seq<Characteristic>, uuid: Uuid): (r: seq<Characteristic>)
    ensures |r| <= |cs|
  {
    if cs == [] then []
    else
      var last := cs[|cs| - 1];
      Of(cs[..|cs| - 1], uuid) + if last.uuid == uuid then [last] else []
  }

  /** The number of slots below `i` for a UUID. */
  function Rank(slots: seq<Slot>, uuid: Uuid, i: nat): nat
    requires i <= |slots|
  {
    if i == 0 then 0 else Rank(slots, uuid, i - 1) + if slots[i - 1].uuid == uuid then 1 else 0
  }

  /** Slot `i` for its UUID holds the characteristic of the same rank among those found. */
  predicate Holds(slots: seq<Slot>, cs: seq<Characteristic>, i: nat)
    requires i < |slots|
  {
    var s, found, k := slots[i], Of(cs, slots[i].uuid), Rank(slots, slots[i].uuid, i);
    if k < |found| then s.handle == found[k].handle && s.value == found[k].value else s.handle == 0
  }

  lemma {:induction false} RankMonotone(slots: seq<Slot>, uuid: Uuid, i: nat, j: nat)
    requires i < j <= |slots|
    ensures Rank(slots, uuid, j) >= Rank(slots, uuid, i) + if slots[i].uuid == uuid then 1 else 0
    decreases j
  {
    if i < j - 1 {
      RankMonotone(slots, uuid, i, j - 1);
    }
  }

  lemma {:induction false} RankByUuids(a: seq<Slot>, b: seq<Slot>, uuid: Uuid, i: nat)
    requires |a| == |b| && i <= |a| && forall j | 0 <= j < |a| :: a[j].uuid == b[j].uuid
    ensures Rank(a, uuid, i) == Rank(b, uuid, i)
  {
    if i > 0 {
      RankByUuids(a, b, uuid, i - 1);
    }
  }

  /** When the slots below `i` for a UUID are filled up to rank `m`, the first free one is the one of rank `m`. */
  lemma {:induction false} FreeHasRank(slots: seq<Slot>, uuid: Uuid, m: nat, i: nat)
    requires i <= |slots| && Rank(slots, uuid, i) <= m
    requires forall j | 0 <= j < |slots| && slots[j].uuid == uuid :: slots[j].handle != 0 <==> Rank(slots, uuid, j) < m
    ensures var r := FindFree(slots, uuid, i);
      && (r.Some? ==> Rank(slots, uuid, r.value) == m)
      && (r.None? ==> forall j | i <= j < |slots| && slots[j].uuid == uuid :: Rank(slots, uuid, j) < m)
    decreases |slots| - i
  {
    if i < |slots| {
      if slots[i].uuid != uuid || slots[i].handle != 0 {
        FreeHasRank(slots, uuid, m, i + 1);
      }
    }
  }

  lemma FilledByRank(slots: seq<Slot>, cs: seq<Characteristic>, uuid: Uuid)
    requires forall i | 0 <= i < |slots| :: Holds(slots, cs, i)
    requires forall k | 0 <= k < |Of(cs, uuid)| :: Of(cs, uuid)[k].handle != 0
    ensures forall j | 0 <= j < |slots| && slots[j].uuid == uuid ::
              slots[j].handle != 0 <==> Rank(slots, uuid, j) < |Of(cs, uuid)|
  {
    forall j | 0 <= j < |slots| && slots[j].uuid == uuid
      ensures slots[j].handle != 0 <==> Rank(slots, uuid, j) < |Of(cs, uuid)|
    {
      assert Holds(slots, cs, j);
    }
  }

  lemma {:induction false} OfNonzero(cs: seq<Characteristic>, uuid: Uuid)
    requires forall c | c in cs :: c.handle != 0
    ensures forall k | 0 <= k < |Of(cs, uuid)| :: Of(cs, uuid)[k].handle != 0
  {
    if cs != [] {
      OfNonzero(cs[..|cs| - 1], uuid);
    }
  }

  lemma HoldsStep(slots: seq<Slot>, cs: seq<Characteristic>, c: Characteristic, i: nat)
    requires i < |slots| && forall j | 0 <= j < |slots| :: Holds(slots, cs, j)
    requires forall k | 0 <= k < |Of(cs, c.uuid)| :: Of(cs, c.uuid)[k].handle != 0
    ensures Holds(OnCharacteristic(slots, c), cs + [c], i)
  {
    hide FindFree, Rank;
    var after, uuid, m := OnCharacteristic(slots, c), slots[i].uuid, |Of(cs, c.uuid)|;
    assert (cs + [c])[..|cs|] == cs;
    assert Holds(slots, cs, i);
    RankByUuids(slots, after, uuid, i);
    FilledByRank(slots, cs, c.uuid);
    RankZero(slots, c.uuid);
    FreeHasRank(slots, c.uuid, m, 0);
    var found := FindFree(slots, c.uuid, 0);
    if uuid == c.uuid && found.Some? && i != found.value {
      if i < found.value {
        RankMonotone(slots, uuid, i, found.value);
      } else {
        RankMonotone(slots, uuid, found.value, i);
      }
    }
  }

  lemma RankZero(slots: seq<Slot>, uuid: Uuid)
    ensures Rank(slots, uuid, 0) == 0
  {
  }

  predicate Fresh(slots: seq<Slot>) {
    forall i | 0 <= i < |slots| :: slots[i].handle == 0 && slots[i].descriptor == 0
  }

  /** After any sequence of discovered characteristics, the k-th slot of a UUID holds the k-th discovered
      characteristic of that UUID, or nothing if there were fewer. */
  lemma {:induction false} KthSlotHoldsKth(slots: seq<Slot>, cs: seq<Characteristic>, i: nat)
    requires Fresh(slots) && (forall c | c in cs :: c.handle != 0) && i < |slots|
    ensures Holds(AllCharacteristics(slots, cs), cs, i)
    decreases |cs|
  {
    hide Holds, OnCharacteristic;
    if cs == [] {
      HoldsFresh(slots, i);
    } else {
      var rest, c := cs[..|cs| - 1], cs[|cs| - 1];
      forall j | 0 <= j < |slots| ensures Holds(AllCharacteristics(slots, rest), rest, j) {
        KthSlotHoldsKth(slots, rest, j);
      }
      OfNonzero(rest, c.uuid);
      HoldsStep(AllCharacteristics(slots, rest), rest, c, i);
      assert rest + [c] == cs;
    }
  }

  lemma HoldsFresh(slots: seq<Slot>, i: nat)
    requires Fresh(slots) && i < |slots|
    ensures Holds(slots, [], i)
  {
  }

  predicate DistinctHandles(cs: seq<Characteristic>) {
    forall i, j | 0 <= i < j < |cs| :: cs[i].handle != cs[j].handle
  }

  lemma {:induction false} OfIndices(cs: seq<Characteristic>, uuid: Uuid, k: nat) returns (n: nat)
    requires k < |Of(cs, uuid)|
    ensures n < |cs| && cs[n] == Of(cs, uuid)[k] && cs[n].uuid == uuid && |Of(cs[..n], uuid)| == k
  {
    var rest := cs[..|cs| - 1];
    if k < |Of(rest, uuid)| {
      n := OfIndices(rest, uuid, k);
      assert rest[..n] == cs[..n];
    } else {
      n := |cs| - 1;
    }
  }

  /** The slot holds the `n`-th of the discovered characteristics. */
  predicate HasNth(s: Slot, cs: seq<Characteristic>, n: nat) {
    n < |cs| && cs[n] == Characteristic(s.uuid, s.handle, s.value)
  }

  /** No report of a characteristic fills two slots: any two filled slots have two reports, and so one handle only if
      it was reported twice. */
  lemma NoHandleTwice(slots: seq<Slot>, cs: seq<Characteristic>, i: nat, j: nat)
    requires Fresh(slots) && (forall c | c in cs :: c.handle != 0) && i < j < |slots|
    ensures var r := AllCharacteristics(slots, cs);
      && (r[i].handle != 0 && r[j].handle != 0 ==> exists a, b :: HasNth(r[i], cs, a) && HasNth(r[j], cs, b) && a != b)
      && (r[i].handle == r[j].handle != 0 ==> !DistinctHandles(cs))
  {
    hide Of, Rank, AllCharacteristics;
    var r := AllCharacteristics(slots, cs);
    KthSlotHoldsKth(slots, cs, i);
    KthSlotHoldsKth(slots, cs, j);
    if r[i].handle != 0 && r[j].handle != 0 {
      var a := OfIndices(cs, r[i].uuid, Rank(r, r[i].uuid, i));
      var b := OfIndices(cs, r[j].uuid, Rank(r, r[j].uuid, j));
      RankMonotone(r, r[i].uuid, i, j);
      assert HasNth(r[i], cs, a) && HasNth(r[j], cs, b) && a != b;
    }
  }

  // ---- descriptors ----

  /** The last declaration before the end of the stream; zero if there is none yet. */
  function Owner(ds: seq<Descriptor>): uint16 {
    if ds == [] then 0
    else if ds[|ds| - 1].uuid == Uuid16(0x2803) then ds[|ds| - 1].handle
    else Owner(ds[..|ds| - 1])
  }

  /** The last CCCD that comes after declaration `h` and before the next one; zero if there is none. */
  function LastCccd(ds: seq<Descriptor>, h: uint16): uint16 {
    if ds == [] then 0
    else
      var rest, d := ds[..|ds| - 1], ds[|ds| - 1];
      if d.uuid == Uuid16(0x2902) && d.handle != 0 && Owner(rest) == h then d.handle else LastCccd(rest, h)
  }

  /** The slot is the first with its handle. */
  predicate First(slots: seq<Slot>, i: nat)
    requires i < |slots|
  {
    forall j | 0 <= j < i :: slots[j].handle != slots[i].handle
  }

  lemma {:induction false} FindsFirst(slots: seq<Slot>, h: uint16, from: nat)
    requires from <= |slots| && forall j | 0 <= j < from :: slots[j].handle != h
    ensures var r := FindHandle(slots, h, from);
      forall i | 0 <= i < |slots| :: r == Some(i) <==> slots[i].handle == h && First(slots, i)
    decreases |slots| - from
  {
    if from < |slots| && slots[from].handle != h {
      FindsFirst(slots, h, from + 1);
    }
  }

  /** After the descriptors, the first slot with a handle has the last CCCD reported between its declaration and the
      next one; any other slot has none. With distinct handles every filled slot is the first with its handle; an
      empty slot gets a CCCD only if one is reported before any declaration. */
  lemma {:induction false} DescriptorFollowsDeclaration(slots: seq<Slot>, ds: seq<Descriptor>, i: nat)
    requires i < |slots| && slots[i].descriptor == 0
    ensures var r := AllDescriptors(slots, ds);
      && r.lastFound == Owner(ds)
      && r.slots[i].descriptor == if First(slots, i) then LastCccd(ds, slots[i].handle) else 0
    decreases |ds|
  {
    hide FindHandle, First;
    if ds != [] {
      var rest, d := ds[..|ds| - 1], ds[|ds| - 1];
      DescriptorFollowsDeclaration(slots, rest, i);
      var p := AllDescriptors(slots, rest);
      FindsFirst(p.slots, p.lastFound, 0);
      SameFirst(slots, p.slots, i);
    }
  }

  lemma SameFirst(a: seq<Slot>, b: seq<Slot>, i: nat)
    requires |a| == |b| && i < |a| && forall j | 0 <= j < |a| :: a[j].handle == b[j].handle
    ensures First(a, i) == First(b, i)
  {
  }

  lemma {:induction false} NoDescriptorYet(slots: seq<Slot>, cs: seq<Characteristic>)
    requires Fresh(slots)
    ensures forall i | 0 <= i < |slots| :: AllCharacteristics(slots, cs)[i].descriptor == 0
    decreases |cs|
  {
    if cs != [] {
      NoDescriptorYet(slots, cs[..|cs| - 1]);
    }
  }

  /** The whole discovery: a filled slot ends up with the CCCD of its own characteristic if it is the first with that
      handle, as it is unless a handle is reported twice; a later one with the same handle gets none. */
  lemma DiscoveryPairsDescriptors(slots: seq<Slot>, cs: seq<Characteristic>, ds: seq<Descriptor>, i: nat)
    requires Fresh(slots) && (forall c | c in cs :: c.handle != 0) && i < |slots|
    ensures var found := AllCharacteristics(slots, cs);
      var r := AllDescriptors(found, ds).slots;
      && Holds(found, cs, i)
      && r[i].handle == found[i].handle
      && r[i].descriptor == (if First(found, i) then LastCccd(ds, found[i].handle) else 0)
      && (found[i].handle != 0 && DistinctHandles(cs) ==> First(found, i))
  {
    hide AllCharacteristics, AllDescriptors, LastCccd;
    var found := AllCharacteristics(slots, cs);
    KthSlotHoldsKth(slots, cs, i);
    NoDescriptorYet(slots, cs);
    DescriptorFollowsDeclaration(found, ds, i);
    if found[i].handle != 0 && DistinctHandles(cs) {
      forall j | 0 <= j < i ensures found[j].handle != found[i].handle {
        NoHandleTwice(slots, cs, j, i);
      }
    }
  }
}
