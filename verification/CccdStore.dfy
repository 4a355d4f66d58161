/** Client Characteristic Configuration descriptors, section 3.3.3.3 of Vol 3 Part G of the Core Specification: two
    bits each, packed into two words per connection. */
module CccdStore {
  import opened AscsTypes
  import opened Bytes

  const CCCDS := 27
  const WORDS := 2
  const NOTIFICATION: bv32 := 1
  const INDICATION: bv32 := 2

  /** The handles of a characteristic value and of its CCCD. */
  datatype Pair = Pair(value: uint16, descriptor: uint16)

  /** The handles of a database are distinct. */
  predicate WellFormed(table: seq<Pair>) {
    && |table| == CCCDS
    && forall i, j | 0 <= i < j < CCCDS ::
         table[i].value != table[j].value && table[i].descriptor != table[j].descriptor
  }

  function FindDescriptor(table: seq<Pair>, handle: uint16, i: nat): (r: Option<nat>)
    requires i <= |table|
    ensures r.Some? ==> i <= r.value < |table| && table[r.value].descriptor == handle
    ensures r.None? ==> forall j | i <= j < |table| :: table[j].descriptor != handle
    decreases |table| - i
  {
    if i == |table| then None
    else if table[i].descriptor == handle then Some(i)
    else FindDescriptor(table, handle, i + 1)
  }

  function FindValue(table: seq<Pair>, handle: uint16, i: nat): (r: Option<nat>)
    requires i <= |table|
    ensures r.Some? ==> i <= r.value < |table| && table[r.value].value == handle
    ensures r.None? ==> forall j | i <= j < |table| :: table[j].value != handle
    decreases |table| - i
  {
    if i == |table| then None
    else if table[i].value == handle then Some(i)
    else FindValue(table, handle, i + 1)
  }

  // ---- two bits in a word ----

  function Offset(i: nat): (o: bv32)
    requires i < CCCDS
    ensures o < 32 && o & 1 == 0
  {
    [0, 2, 4, 6, 8, 10, 12, 14, 16, 18, 20, 22, 24, 26, 28, 30][i % 16]
  }

  function Read(words: seq<bv32>, i: nat): bv32
    requires |words| == WORDS && i < CCCDS
  {
    (words[i / 16] >> Offset(i)) & 3
  }

  function ClearField(word: bv32, o: bv32): bv32
    requires o < 32
  {
    word & !((3 as bv32) << o)
  }

  function FillField(word: bv32, o: bv32, v: bv32): bv32
    requires o < 32
  {
    word | ((v & 3) << o)
  }

  function Packed(word: bv32, o: bv32, v: bv32): bv32
    requires o < 32
  {
    FillField(ClearField(word, o), o, v)
  }

  function Store(words: seq<bv32>, i: nat, v: bv32): (r: seq<bv32>)
    requires |words| == WORDS && i < CCCDS
    ensures |r| == WORDS
  {
    words[i / 16 := Packed(words[i / 16], Offset(i), v)]
  }

  lemma PackedHere(word: bv32, o: bv32, v: bv32)
    requires o < 32 && o & 1 == 0
    ensures (Packed(word, o, v) >> o) & 3 == v & 3
  {
  }

  lemma MasksApart(o: bv32, p: bv32)
    requires o < 32 && p < 32 && o & 1 == 0 && p & 1 == 0 && o != p
    ensures ((3 as bv32) << o) & ((3 as bv32) << p) == 0
  {
  }

  lemma SameField(word: bv32, other: bv32, p: bv32)
    requires p < 32 && p & 1 == 0 && other & ((3 as bv32) << p) == word & ((3 as bv32) << p)
    ensures (word >> p) & 3 == (other >> p) & 3
  {
  }

  lemma InsideMask(o: bv32, v: bv32)
    requires o < 32
    ensures ((v & 3) << o) & !((3 as bv32) << o) == 0
  {
  }

  lemma Untouched(word: bv32, m: bv32, n: bv32, x: bv32)
    requires m & n == 0 && x & !m == 0
    ensures ((word & !m) | x) & n == word & n
  {
  }

  lemma PackedElsewhere(word: bv32, o: bv32, p: bv32, v: bv32)
    requires o < 32 && p < 32 && o & 1 == 0 && p & 1 == 0 && o != p
    ensures (Packed(word, o, v) >> p) & 3 == (word >> p) & 3
  {
    var m, n: bv32, x := (3 as bv32) << o, (3 as bv32) << p, (v & 3) << o;
    MasksApart(o, p);
    InsideMask(o, v);
    Untouched(word, m, n, x);
    SameField(word, Packed(word, o, v), p);
  }

  lemma OffsetsDiffer(i: nat, j: nat)
    requires i < CCCDS && j < CCCDS && i != j && i / 16 == j / 16
    ensures Offset(i) != Offset(j)
  {
    var offsets: seq<bv32> := [0, 2, 4, 6, 8, 10, 12, 14, 16, 18, 20, 22, 24, 26, 28, 30];
    assert forall a, b | 0 <= a < b < 16 :: offsets[a] != offsets[b];
    assert i % 16 != j % 16;
  }

  /** A store changes one entry, to the low two bits of the value. */
  lemma StoreThenRead(words: seq<bv32>, i: nat, j: nat, v: bv32)
    requires |words| == WORDS && i < CCCDS && j < CCCDS
    ensures Read(Store(words, i, v), j) == if i == j then v & 3 else Read(words, j)
  {
    hide Packed, Offset;
    if i == j {
      PackedHere(words[i / 16], Offset(i), v);
    } else if i / 16 == j / 16 {
      OffsetsDiffer(i, j);
      PackedElsewhere(words[i / 16], Offset(i), Offset(j), v);
    }
  }

  // ---- requests ----

  datatype Request = Request(handle: uint16, value: seq<bv8>)
  datatype Status = Stored | InvalidLength | NotACccd

  function Value(v: seq<bv8>): bv32
    requires |v| == 2
  {
    (v[0] as bv32) | ((v[1] as bv32) << 8)
  }

  function StatusOf(table: seq<Pair>, r: Request): Status {
    if FindDescriptor(table, r.handle, 0).None? then NotACccd else if |r.value| != 2 then InvalidLength else Stored
  }

  function Handle(table: seq<Pair>, words: seq<bv32>, r: Request): (w: seq<bv32>)
    requires |table| == CCCDS && |words| == WORDS
    ensures |w| == WORDS
  {
    if StatusOf(table, r) != Stored then words
    else Store(words, FindDescriptor(table, r.handle, 0).value, Value(r.value))
  }

  function HandleAll(table: seq<Pair>, words: seq<bv32>, rs: seq<Request>): (w: seq<bv32>)
    requires |table| == CCCDS && |words| == WORDS
    ensures |w| == WORDS
  {
    if rs == [] then words else Handle(table, HandleAll(table, words, rs[..|rs| - 1]), rs[|rs| - 1])
  }

  function Lookup(table: seq<Pair>, words: seq<bv32>, handle: uint16): bv32
    requires |table| == CCCDS && |words| == WORDS
  {
    match FindValue(table, handle, 0)
    case None => 0
    case Some(i) => Read(words, i)
  }

  datatype Sent = TooLong | NotConfigured | Suppressed | NoBuffer | Indication | Notification

  class Connection {
    const table: seq<Pair>
    const cccdBits: array<bv32>

    ghost predicate Valid()
      reads this
    {
      |table| == CCCDS && cccdBits.Length == WORDS
    }

    constructor (table: seq<Pair>)
      requires WellFormed(table)
      ensures Valid() && fresh(cccdBits) && this.table == table && cccdBits[..] == [0, 0]
    {
      this.table := table;
      cccdBits := new bv32[WORDS](_ => 0);
      new;
      assert cccdBits[..] == [0, 0];
    }

    method GetDescriptorIndex(handle: uint16) returns (r: Option<nat>)
      requires Valid()
      ensures r == FindDescriptor(table, handle, 0)
    {
      var i := 0;
      while i < |table|
        invariant 0 <= i <= |table|
        invariant FindDescriptor(table, handle, i) == FindDescriptor(table, handle, 0)
      {
        if table[i].descriptor == handle {
          return Some(i);
        }
        i := i + 1;
      }
      r := None;
    }

    method GetValueIndex(handle: uint16) returns (r: Option<nat>)
      requires Valid()
      ensures r == FindValue(table, handle, 0)
    {
      var i := 0;
      while i < |table|
        invariant 0 <= i <= |table|
        invariant FindValue(table, handle, i) == FindValue(table, handle, 0)
      {
        if table[i].value == handle {
          return Some(i);
        }
        i := i + 1;
      }
      r := None;
    }

    method GetCccd(handle: uint16) returns (v: bv32)
      requires Valid()
      ensures v == Lookup(table, cccdBits[..], handle)
    {
      var i := GetValueIndex(handle);
      if i == None {
        return 0;
      }
      v := (cccdBits[i.value / 16] >> Offset(i.value)) & 3;
    }

    /** The field is cleared, then filled. */
    method SetCccd(i: nat, v: bv32)
      requires Valid() && i < CCCDS
      modifies cccdBits
      ensures cccdBits[..] == Store(old(cccdBits[..]), i, v)
    {
      hide Offset, ClearField, FillField;
      var o := Offset(i);
      cccdBits[i / 16] := ClearField(cccdBits[i / 16], o);
      cccdBits[i / 16] := FillField(cccdBits[i / 16], o, v);
    }

    method HandleWrite(r: Request) returns (s: Status)
      requires Valid()
      modifies cccdBits
      ensures s == StatusOf(table, r) && cccdBits[..] == Handle(table, old(cccdBits[..]), r)
    {
      hide Store, Value;
      var i := GetDescriptorIndex(r.handle);
      if i == None {
        return NotACccd;
      }
      if |r.value| != 2 {
        return InvalidLength;
      }
      SetCccd(i.value, Value(r.value));
      s := Stored;
    }

    /** `registered` says whether the application has set its look-up of CCCDs, `buffer` whether the stack has a buffer
        for the value. */
    method SendNotification(handle: uint16, len: nat, mtu: nat, registered: bool, buffer: bool) returns (s: Sent)
      requires Valid()
      ensures s == Decision(Lookup(table, cccdBits[..], handle), len, mtu, registered, buffer)
    {
      if len > mtu {
        return TooLong;
      }
      if !registered {
        return NotConfigured;
      }
      var cccd := GetCccd(handle);
      if cccd & (NOTIFICATION | INDICATION) == 0 {
        return Suppressed;
      }
      if len != 0 && !buffer {
        return NoBuffer;
      }
      s := if cccd & INDICATION != 0 then Indication else Notification;
    }
  }

  function Decision(cccd: bv32, len: nat, mtu: nat, registered: bool, buffer: bool): Sent {
    if len > mtu then TooLong
    else if !registered then NotConfigured
    else if cccd & 3 == 0 then Suppressed
    else if len != 0 && !buffer then NoBuffer
    else if cccd & 2 != 0 then Indication
    else Notification
  }

  // ---- the words are a map ----

  /** The first octet of the last value written to a descriptor; a write of another length does not count. */
  function LastWrite(rs: seq<Request>, handle: uint16): Option<bv8> {
    if rs == [] then None
    else
      var r := rs[|rs| - 1];
      if r.handle == handle && |r.value| == 2 then Some(r.value[0]) else LastWrite(rs[..|rs| - 1], handle)
  }

  /** The two bits are those of the first octet. */
  lemma FirstOctet(v: seq<bv8>)
    requires |v| == 2
    ensures Value(v) & 3 == (v[0] & 3) as bv32
  {
  }

  /** A write to a handle that is no descriptor is not taken, of whatever length; one to a descriptor is stored exactly
      if it has two octets, and otherwise refused for its length, and then nothing is stored. */
  lemma AnsweredExactly(table: seq<Pair>, words: seq<bv32>, r: Request)
    requires |table| == CCCDS && |words| == WORDS
    ensures StatusOf(table, r) == NotACccd <==> forall i | 0 <= i < |table| :: table[i].descriptor != r.handle
    ensures StatusOf(table, r) == Stored
            <==> |r.value| == 2 && exists i :: 0 <= i < |table| && table[i].descriptor == r.handle
    ensures StatusOf(table, r) != Stored ==> Handle(table, words, r) == words
  {
    hide Store;
  }

  lemma HandleRefines(table: seq<Pair>, words: seq<bv32>, r: Request, i: nat)
    requires WellFormed(table) && |words| == WORDS && i < CCCDS
    ensures Read(Handle(table, words, r), i)
         == if r.handle == table[i].descriptor && |r.value| == 2 then (r.value[0] & 3) as bv32
            else Read(words, i)
  {
    hide Read, Store, Value;
    var found := FindDescriptor(table, r.handle, 0);
    if found.Some? && |r.value| == 2 {
      StoreThenRead(words, found.value, i, Value(r.value));
      FirstOctet(r.value);
    }
  }

  /** After any requests, every descriptor reads the low two bits of its last write, or what it held before. */
  lemma {:induction false} ReadsLastWrite(table: seq<Pair>, words: seq<bv32>, rs: seq<Request>, i: nat)
    requires WellFormed(table) && |words| == WORDS && i < CCCDS
    ensures var last := LastWrite(rs, table[i].descriptor);
      Read(HandleAll(table, words, rs), i) == if last.Some? then (last.value & 3) as bv32 else Read(words, i)
  {
    hide Read, Handle, Value;
    if rs != [] {
      var n := |rs| - 1;
      ReadsLastWrite(table, words, rs[..n], i);
      HandleRefines(table, HandleAll(table, words, rs[..n]), rs[n], i);
    }
  }

  lemma {:induction false} FindsValue(table: seq<Pair>, i: nat, from: nat)
    requires WellFormed(table) && from <= i < CCCDS
    ensures FindValue(table, table[i].value, from) == Some(i)
    decreases i - from
  {
    if from < i {
      FindsValue(table, i, from + 1);
    }
  }

  /** What the two bits ask for: bit 0 notifications, bit 1 indications. */
  predicate Asked(v: bv8, bit: bv8) {
    v & bit != 0
  }

  lemma BitsAsked(v: bv8)
    ensures ((v & 3) as bv32) & 3 == 0 <==> !Asked(v, 1) && !Asked(v, 2)
    ensures ((v & 3) as bv32) & 2 != 0 <==> Asked(v, 2)
  {
  }

  /** Whether a value is indicated, notified or kept back follows the last write to its own descriptor on a connection
      that started with all bits clear: indicated if it asked for that, otherwise notified if it asked for that; a
      handle without a descriptor is never sent. Nothing is sent that is too long, before the application has
      registered its look-up, or without a buffer for a value that has octets. */
  lemma SendingFollowsLastWrite(table: seq<Pair>, rs: seq<Request>, handle: uint16, len: nat, mtu: nat,
                                registered: bool, buffer: bool)
    requires WellFormed(table)
    ensures var sent := Decision(Lookup(table, HandleAll(table, [0, 0], rs), handle), len, mtu, registered, buffer);
      var found := FindValue(table, handle, 0);
      var last := if found.Some? then LastWrite(rs, table[found.value].descriptor) else None;
      var v: bv8 := if last.Some? then last.value else 0;
      var ready := len <= mtu && registered && (len == 0 || buffer);
      && (sent == Indication <==> ready && Asked(v, 2))
      && (sent == Notification <==> ready && Asked(v, 1) && !Asked(v, 2))
      && (sent == TooLong <==> len > mtu)
      && (sent == NotConfigured <==> len <= mtu && !registered)
      && (sent == Suppressed <==> len <= mtu && registered && !Asked(v, 1) && !Asked(v, 2))
    ensures forall i | 0 <= i < CCCDS :: FindValue(table, table[i].value, 0) == Some(i)
  {
    hide Read, HandleAll, LastWrite, Asked;
    forall i | 0 <= i < CCCDS ensures FindValue(table, table[i].value, 0) == Some(i) {
      FindsValue(table, i, 0);
    }
    var found := FindValue(table, handle, 0);
    BitsAsked(0);
    if found.Some? {
      ReadsLastWrite(table, [0, 0], rs, found.value);
      ClearRead(found.value);
      var last := LastWrite(rs, table[found.value].descriptor);
      if last.Some? {
        BitsAsked(last.value);
      }
    }
  }

  lemma ClearRead(i: nat)
    requires i < CCCDS
    ensures Read([0, 0], i) == 0
  {
    hide Offset;
  }
}
