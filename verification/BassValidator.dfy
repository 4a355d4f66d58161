/** The length check of the Broadcast Audio Scan Control Point, section 3.1.1 of BASS v1.0. */
module BassValidator {
  import opened Bytes

  const SCAN_STOPPED: byte := 0
  const SCAN_STARTED: byte := 1
  const ADD_SOURCE: byte := 2
  const MODIFY_SOURCE: byte := 3
  const SET_BROADCAST_CODE: byte := 4
  const REMOVE_SOURCE: byte := 5

  const ADD_SOURCE_MIN_LEN := 15
  const MODIFY_SOURCE_MIN_LEN := 5
  const BROADCAST_CODE_LEN := 17
  const REMOVE_SOURCE_LEN := 1
  const BIS_SYNC_LEN := 4
  const SUBGROUP_MIN_LEN := 5

  // ---- the grammar ----

  datatype Group = Group(sync: seq<byte>, metadata: seq<byte>)

  predicate ValidGroup(g: Group) {
    |g.sync| == BIS_SYNC_LEN && |g.metadata| < 256
  }

  predicate ValidGroups(gs: seq<Group>) {
    forall i | 0 <= i < |gs| :: ValidGroup(gs[i])
  }

  function GroupBytes(g: Group): seq<byte>
    requires ValidGroup(g)
  {
    g.sync + [|g.metadata|] + g.metadata
  }

  function GroupsBytes(gs: seq<Group>): seq<byte>
    requires ValidGroups(gs)
  {
    if gs == [] then [] else GroupBytes(gs[0]) + GroupsBytes(gs[1..])
  }

  /** A count, and that many groups with nothing left over. */
  function Counted(gs: seq<Group>): seq<byte>
    requires ValidGroups(gs) && |gs| < 256
  {
    [|gs|] + GroupsBytes(gs)
  }

  /** `gs` is what `data` holds from `at` on, where its subgroups begin. */
  ghost predicate Holds(data: seq<byte>, at: nat, gs: seq<Group>) {
    ValidGroups(gs) && |gs| < 256 && at <= |data| && data[at..] == Counted(gs)
  }

  // ---- the validator ----

  /** `n` groups fill `s`. */
  predicate Fills(s: seq<byte>, n: nat)
    decreases n
  {
    if n == 0 then s == []
    else |s| >= SUBGROUP_MIN_LEN && |s| - SUBGROUP_MIN_LEN >= s[4] && Fills(s[SUBGROUP_MIN_LEN + s[4]..], n - 1)
  }

  /** The length is a sixteen-bit number and is only taken from where it is large enough. */
  method ValidateNumSubgroupLen(data: seq<byte>, start: nat) returns (ok: bool)
    requires start < |data| && |data| - start < 0x1_0000
    ensures ok == Fills(data[start + 1..], data[start])
  {
    var num, p := data[start], start + 1;
    var len: uint16 := |data| - start - 1;
    while num != 0
      invariant start < p <= |data| && len == |data| - p
      invariant Fills(data[p..], num) == Fills(data[start + 1..], data[start])
      decreases num
    {
      if len < SUBGROUP_MIN_LEN {
        return false;
      }
      p, len := p + BIS_SYNC_LEN, len - BIS_SYNC_LEN;
      var metadataLen := data[p];
      p, len := p + 1, len - 1;
      if len < metadataLen {
        return false;
      }
      assert data[p - SUBGROUP_MIN_LEN..][SUBGROUP_MIN_LEN + metadataLen..] == data[p + metadataLen..];
      p, len := p + metadataLen, len - metadataLen;
      num := num - 1;
    }
    ok := len == 0;
  }

  predicate Valid(op: byte, data: seq<byte>) {
    if op == SCAN_STOPPED || op == SCAN_STARTED then data == []
    else if op == ADD_SOURCE then
      |data| >= ADD_SOURCE_MIN_LEN && Fills(data[ADD_SOURCE_MIN_LEN..], data[ADD_SOURCE_MIN_LEN - 1])
    else if op == MODIFY_SOURCE then
      |data| >= MODIFY_SOURCE_MIN_LEN && Fills(data[MODIFY_SOURCE_MIN_LEN..], data[MODIFY_SOURCE_MIN_LEN - 1])
    else if op == SET_BROADCAST_CODE then |data| == BROADCAST_CODE_LEN
    else op == REMOVE_SOURCE && |data| == REMOVE_SOURCE_LEN
  }

  method ValidateOpcodeLength(op: byte, data: seq<byte>) returns (ok: bool)
    requires |data| < 0x1_0000
    ensures ok == Valid(op, data)
  {
    if op > REMOVE_SOURCE {
      return false;
    }
    match op {
      case 0 => ok := |data| == 0;
      case 1 => ok := |data| == 0;
      case 2 =>
        if |data| < ADD_SOURCE_MIN_LEN {
          return false;
        }
        ok := ValidateNumSubgroupLen(data, ADD_SOURCE_MIN_LEN - 1);
      case 3 =>
        if |data| < MODIFY_SOURCE_MIN_LEN {
          return false;
        }
        ok := ValidateNumSubgroupLen(data, MODIFY_SOURCE_MIN_LEN - 1);
      case 4 => ok := |data| == BROADCAST_CODE_LEN;
      case _ => ok := |data| == REMOVE_SOURCE_LEN;
    }
  }

  // ---- the validator decides the grammar ----

  lemma {:induction false} GrammarFills(gs: seq<Group>)
    requires ValidGroups(gs)
    ensures Fills(GroupsBytes(gs), |gs|)
  {
    if gs != [] {
      var g, s := gs[0], GroupsBytes(gs);
      assert ValidGroup(g);
      assert s[4] == |g.metadata| && s[SUBGROUP_MIN_LEN + s[4]..] == GroupsBytes(gs[1..]);
      GrammarFills(gs[1..]);
    }
  }

  lemma {:induction false} FillsGrammar(s: seq<byte>, n: nat) returns (gs: seq<Group>)
    requires Fills(s, n)
    ensures ValidGroups(gs) && |gs| == n && s == GroupsBytes(gs)
    decreases n
  {
    gs := [];
    if n > 0 {
      var at := SUBGROUP_MIN_LEN + s[4];
      var rest := FillsGrammar(s[at..], n - 1);
      var g := Group(s[..4], s[SUBGROUP_MIN_LEN..at]);
      gs := [g] + rest;
      assert gs[1..] == rest && s == GroupBytes(g) + s[at..];
    }
  }

  lemma HoldsIffFills(data: seq<byte>, at: nat)
    requires at < |data|
    ensures (exists gs :: Holds(data, at, gs)) <==> Fills(data[at + 1..], data[at])
  {
    if gs :| Holds(data, at, gs) {
      assert data[at] == |gs| && data[at + 1..] == GroupsBytes(gs);
      GrammarFills(gs);
    }
    if Fills(data[at + 1..], data[at]) {
      var gs := FillsGrammar(data[at + 1..], data[at]);
      assert data[at..] == Counted(gs);
      assert Holds(data, at, gs);
    }
  }

  /** An operation with subgroups is accepted if and only if, behind its fixed fields, the octets are a count followed
      by exactly that many groups of four synchronisation octets, a length and the metadata; any other operation if and
      only if it has its one length. */
  lemma AcceptsExactlyGrammar(op: byte, data: seq<byte>)
    ensures Valid(op, data) <==>
            match op
            case 0 => data == []
            case 1 => data == []
            case 2 => |data| >= 15 && exists gs :: Holds(data, 14, gs)
            case 3 => |data| >= 5 && exists gs :: Holds(data, 4, gs)
            case 4 => |data| == 17
            case 5 => |data| == 1
            case _ => false
  {
    if |data| >= 15 {
      HoldsIffFills(data, 14);
    }
    if |data| >= 5 {
      HoldsIffFills(data, 4);
    }
  }
}
