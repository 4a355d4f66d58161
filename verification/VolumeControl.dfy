/** The Volume Control Service, section 3 of VCS v1.0: a change counter keeps a client from overwriting a state it has
    not seen. */
module VolumeControl {
  import opened Bytes

  const CONNECTIONS := 2
  const STEP := 25
  const MAXIMUM_VOLUME := 0xFF
  const DEFAULT_VOLUME: byte := 100

  const RELATIVE_DOWN: byte := 0
  const RELATIVE_UP: byte := 1
  const UNMUTE_RELATIVE_DOWN: byte := 2
  const UNMUTE_RELATIVE_UP: byte := 3
  const SET_ABSOLUTE: byte := 4
  const UNMUTE: byte := 5
  const MUTE: byte := 6

  datatype Volume = Volume(setting: byte, muted: bool)

  /** `bumps` and `changes` are history variables of the model: how often the counter was incremented, and how often
      the volume or mute state changed. */
  datatype State = State(volume: Volume, counter: byte, inUse: seq<bool>, bumps: nat, changes: nat)

  predicate Shape(s: State) {
    |s.inUse| == CONNECTIONS
  }

  function Down(v: byte): byte {
    if v < STEP then 0 else v - STEP
  }

  function Up(v: byte): byte {
    if v + STEP > MAXIMUM_VOLUME then MAXIMUM_VOLUME else v + STEP
  }

  function NewVolume(op: byte, v: Volume, absolute: byte): Volume {
    if op == RELATIVE_DOWN then v.(setting := Down(v.setting))
    else if op == RELATIVE_UP then v.(setting := Up(v.setting))
    else if op == UNMUTE_RELATIVE_DOWN then Volume(Down(v.setting), false)
    else if op == UNMUTE_RELATIVE_UP then Volume(Up(v.setting), false)
    else if op == SET_ABSOLUTE then v.(setting := absolute)
    else if op == UNMUTE then v.(muted := false)
    else if op == MUTE then v.(muted := true)
    else v
  }

  /** What a client is told. */
  datatype Told = Told(slot: nat, volume: Volume, counter: byte)

  /** The notifications to the connections from slot `i` on; each of them increments the counter first. */
  function Notifications(s: State, i: nat): (r: seq<Told>)
    requires Shape(s) && i <= CONNECTIONS
    decreases CONNECTIONS - i
  {
    if i == CONNECTIONS then []
    else if !s.inUse[i] then Notifications(s, i + 1)
    else
      var t := Bump(s);
      [Told(i, t.volume, t.counter)] + Notifications(t, i + 1)
  }

  function Bump(s: State): State {
    s.(counter := (s.counter + 1) % 256, bumps := s.bumps + 1)
  }

  /** The counter after notifying the connections from slot `i` on. */
  function Notified(s: State, i: nat): (r: State)
    requires Shape(s) && i <= CONNECTIONS
    ensures Shape(r)
    decreases CONNECTIONS - i
  {
    if i == CONNECTIONS then s else Notified(if s.inUse[i] then Bump(s) else s, i + 1)
  }

  lemma NotifyOne(s: State, i: nat)
    requires Shape(s) && i < CONNECTIONS
    ensures Notified(s, i) == Notified(if s.inUse[i] then Bump(s) else s, i + 1)
    ensures Notifications(s, i)
         == if s.inUse[i] then [Told(i, Bump(s).volume, Bump(s).counter)] + Notifications(Bump(s), i + 1)
            else Notifications(s, i + 1)
  {
  }

  lemma NotifyEnd(s: State)
    requires Shape(s)
    ensures Notified(s, CONNECTIONS) == s && Notifications(s, CONNECTIONS) == []
  {
  }

  function WithVolume(s: State, op: byte, absolute: byte): (r: State)
    requires Shape(s)
    ensures Shape(r)
  {
    var v := NewVolume(op, s.volume, absolute);
    if v == s.volume then s else Notified(s.(volume := v, changes := s.changes + 1), 0)
  }

  /** The notifications of a change; there are none without one. */
  function ToldAbout(s: State, op: byte, absolute: byte): seq<Told>
    requires Shape(s)
  {
    var v := NewVolume(op, s.volume, absolute);
    if v == s.volume then [] else Notifications(s.(volume := v, changes := s.changes + 1), 0)
  }

  datatype Answer = Success | OpcodeNotSupported | InvalidLength | InvalidCounter | Overrun

  function AnswerTo(s: State, data: seq<byte>): Answer {
    if data == [] then Overrun
    else if data[0] > MUTE then OpcodeNotSupported
    else if |data| != (if data[0] == SET_ABSOLUTE then 3 else 2) then InvalidLength
    else if data[1] != s.counter then InvalidCounter
    else Success
  }

  function ControlPointWrite(s: State, data: seq<byte>): (r: State)
    requires Shape(s)
    ensures Shape(r)
  {
    if AnswerTo(s, data) != Success then s
    else WithVolume(s, data[0], if data[0] == SET_ABSOLUTE then data[2] else s.volume.setting)
  }

  /** The notifications a write leads to. */
  function ToldByWrite(s: State, data: seq<byte>): seq<Told>
    requires Shape(s)
  {
    if AnswerTo(s, data) != Success then []
    else ToldAbout(s, data[0], if data[0] == SET_ABSOLUTE then data[2] else s.volume.setting)
  }

  class VolumeControlService {
    var volume: Volume
    var counter: byte
    const inUse: array<bool>
    ghost var bumps: nat
    ghost var changes: nat

    ghost predicate Valid()
      reads this
    {
      inUse.Length == CONNECTIONS
    }

    ghost function Contents(): (s: State)
      reads this, inUse
      ensures Valid() ==> Shape(s)
    {
      State(volume, counter, inUse[..], bumps, changes)
    }

    constructor ()
      ensures Valid() && fresh(inUse) && volume == Volume(DEFAULT_VOLUME, false) && counter == 0
      ensures inUse[..] == [false, false] && bumps == 0 && changes == 0
    {
      volume, counter, bumps, changes := Volume(DEFAULT_VOLUME, false), 0, 0, 0;
      inUse := new bool[CONNECTIONS](_ => false);
      new;
      assert inUse[..] == [false, false];
    }

    method NotifyVolumeState() returns (told: seq<Told>)
      requires Valid()
      modifies this
      ensures Valid() && Contents() == Notified(old(Contents()), 0)
      ensures told == Notifications(old(Contents()), 0)
    {
      hide Notified, Notifications;
      told := [];
      for i := 0 to CONNECTIONS
        invariant Valid() && Contents().(counter := old(counter), bumps := old(bumps)) == old(Contents())
        invariant Notified(Contents(), i) == Notified(old(Contents()), 0)
        invariant told + Notifications(Contents(), i) == Notifications(old(Contents()), 0)
      {
        ghost var before := Contents();
        NotifyOne(before, i);
        if inUse[i] {
          if counter == 0xFF {
            counter := 0;
          } else {
            counter := counter + 1;
          }
          bumps := bumps + 1;
          assert Contents() == Bump(before);
          told := told + [Told(i, volume, counter)];
        }
      }
      NotifyEnd(Contents());
      assert told + [] == told;
    }

    method SetVolume(op: byte, absolute: byte) returns (told: seq<Told>)
      requires Valid()
      modifies this
      ensures Valid() && Contents() == WithVolume(old(Contents()), op, absolute)
      ensures told == ToldAbout(old(Contents()), op, absolute)
    {
      hide Notified, Notifications;
      told := [];
      var v := NewVolume(op, volume, absolute);
      if v != volume {
        volume, changes := v, changes + 1;
        told := NotifyVolumeState();
      }
    }

    method HandleControlPointWrite(data: seq<byte>) returns (a: Answer, told: seq<Told>)
      requires Valid()
      modifies this
      ensures Valid() && a == AnswerTo(old(Contents()), data) && Contents() == ControlPointWrite(old(Contents()), data)
      ensures told == ToldByWrite(old(Contents()), data)
    {
      hide Notified, WithVolume, ToldAbout;
      told := [];
      if |data| == 0 {
        return Overrun, [];
      }
      var opcode := data[0];
      if opcode > MUTE {
        return OpcodeNotSupported, [];
      }
      if (opcode == SET_ABSOLUTE && |data| != 3) || (opcode != SET_ABSOLUTE && |data| != 2) {
        return InvalidLength, [];
      }
      if data[1] != counter {
        return InvalidCounter, [];
      }
      var absolute := volume.setting;
      if opcode == SET_ABSOLUTE {
        absolute := data[2];
      }
      told := SetVolume(opcode, absolute);
      a := Success;
    }
  }

  // ---- one change ----

  function InUse(s: State, i: nat): nat
    requires Shape(s) && i <= CONNECTIONS
    decreases CONNECTIONS - i
  {
    if i == CONNECTIONS then 0 else (if s.inUse[i] then 1 else 0) + InUse(s, i + 1)
  }

  lemma Wraps(c: nat, m: nat, n: nat)
    ensures ((c + m) % 256 + n) % 256 == (c + m + n) % 256
  {
  }

  lemma {:induction false} NotifiedBumps(s: State, i: nat)
    requires Shape(s) && i <= CONNECTIONS
    ensures var r := Notified(s, i);
      r == s.(counter := (s.counter + InUse(s, i)) % 256, bumps := s.bumps + InUse(s, i))
    decreases CONNECTIONS - i
  {
    hide Notified;
    if i == CONNECTIONS {
      NotifyEnd(s);
    } else {
      NotifyOne(s, i);
      var t := if s.inUse[i] then Bump(s) else s;
      NotifiedBumps(t, i + 1);
      SameUse(s, t, i + 1);
      Wraps(s.counter, 1, InUse(s, i + 1));
    }
  }

  lemma {:induction false} SameUse(s: State, t: State, i: nat)
    requires Shape(s) && t.inUse == s.inUse && i <= CONNECTIONS
    ensures InUse(s, i) == InUse(t, i)
    decreases CONNECTIONS - i
  {
    if i < CONNECTIONS {
      SameUse(s, t, i + 1);
    }
  }

  /** Of the clients told about a change, exactly the last one is told the counter that holds afterwards: each
      notification increments it again. */
  lemma {:induction false} OnlyLastIsCurrent(s: State, i: nat)
    requires Shape(s) && i <= CONNECTIONS
    ensures var told, after := Notifications(s, i), Notified(s, i);
      && |told| == InUse(s, i)
      && forall m | 0 <= m < |told| ::
           told[m].volume == after.volume && (told[m].counter == after.counter <==> m == |told| - 1)
    decreases CONNECTIONS - i
  {
    hide Notified;
    if i < CONNECTIONS {
      var t := if s.inUse[i] then Bump(s) else s;
      OnlyLastIsCurrent(t, i + 1);
      SameUse(s, t, i + 1);
      NotifiedBumps(s, i);
      NotifiedBumps(t, i + 1);
    }
  }

  /** The counter after `n` more increments. */
  function Later(counter: byte, n: nat): byte {
    (counter + n) % 256
  }

  /** Exactly the connections in use from slot `i` on are told, in order: so many of them, and each one counter more. */
  predicate Tells(s: State, i: nat, told: seq<Told>)
    requires Shape(s) && i <= CONNECTIONS
  {
    && |told| == InUse(s, i)
    && (forall m | 0 <= m < |told| ::
          && i <= told[m].slot < CONNECTIONS && s.inUse[told[m].slot]
          && told[m].volume == s.volume && told[m].counter == Later(s.counter, m + 1))
    && (forall m, n | 0 <= m < n < |told| :: told[m].slot < told[n].slot)
  }

  lemma {:induction false} TellsEachInUse(s: State, i: nat)
    requires Shape(s) && i <= CONNECTIONS
    ensures Tells(s, i, Notifications(s, i))
    decreases CONNECTIONS - i
  {
    hide Notifications, Tells;
    if i == CONNECTIONS {
      TellsNone(s);
    } else {
      NotifyOne(s, i);
      var t := if s.inUse[i] then Bump(s) else s;
      TellsEachInUse(t, i + 1);
      TellsOne(s, i, Notifications(t, i + 1));
    }
  }

  lemma TellsNone(s: State)
    requires Shape(s)
    ensures Tells(s, CONNECTIONS, Notifications(s, CONNECTIONS))
  {
  }

  lemma TellsAlike(s: State, t: State, i: nat, told: seq<Told>)
    requires Shape(s) && i <= CONNECTIONS && t == s.(bumps := t.bumps, changes := t.changes)
    ensures Tells(s, i, told) == Tells(t, i, told)
  {
    SameUse(s, t, i);
  }

  lemma TellsOne(s: State, i: nat, later: seq<Told>)
    requires Shape(s) && i < CONNECTIONS
    requires Tells(if s.inUse[i] then Bump(s) else s, i + 1, later)
    ensures Tells(s, i, if s.inUse[i] then [Told(i, Bump(s).volume, Bump(s).counter)] + later else later)
  {
    hide Later;
    if s.inUse[i] {
      SameUse(s, Bump(s), i + 1);
      var told := [Told(i, Bump(s).volume, Bump(s).counter)] + later;
      forall m | 0 <= m < |told| ensures told[m].counter == Later(s.counter, m + 1) {
        LaterOne(s.counter, m);
        if m > 0 {
          assert told[m] == later[m - 1];
        }
      }
    }
  }

  lemma LaterOne(counter: byte, m: nat)
    ensures Later(counter, 1) == (counter + 1) % 256
    ensures Later(Later(counter, 1), m) == Later(counter, m + 1)
  {
    Wraps(counter, 1, m);
  }

  /** A well-formed command that carries counter `c`. */
  predicate Command(data: seq<byte>, c: byte) {
    && |data| >= 2 && data[0] <= MUTE && |data| == (if data[0] == SET_ABSOLUTE then 3 else 2) && data[1] == c
  }

  /** Success is exactly for a well-formed command with the current counter, and any other answer leaves everything as
      it was and tells nobody. */
  lemma AnsweredExactly(s: State, data: seq<byte>)
    requires Shape(s)
    ensures AnswerTo(s, data) == Success <==> Command(data, s.counter)
    ensures AnswerTo(s, data) == InvalidCounter <==> exists c :: Command(data, c) && c != s.counter
    ensures AnswerTo(s, data) == InvalidLength
            <==> data != [] && data[0] <= 6 && |data| != (if data[0] == 4 then 3 else 2)
    ensures AnswerTo(s, data) == OpcodeNotSupported <==> data != [] && data[0] > 6
    ensures AnswerTo(s, data) != Success ==> ControlPointWrite(s, data) == s && ToldByWrite(s, data) == []
  {
    if |data| >= 2 {
      assert Command(data, data[1]) || !exists c :: Command(data, c);
    }
  }

  /** What an accepted command of opcode 0 to 6 does to the volume: relative steps of 25, down, up, and the same with
      unmuting; an absolute setting; unmuting and muting. */
  predicate Commanded(v: Volume, data: seq<byte>, w: Volume)
    requires |data| >= 2 && (data[0] == 4 ==> |data| >= 3)
  {
    && (data[0] in {0, 2} ==> w.setting == if v.setting >= 25 then v.setting - 25 else 0)
    && (data[0] in {1, 3} ==> w.setting == if v.setting <= 230 then v.setting + 25 else 255)
    && (data[0] == 4 ==> w.setting == data[2])
    && (data[0] in {5, 6} ==> w.setting == v.setting)
    && (data[0] in {2, 3, 5} ==> !w.muted)
    && (data[0] == 6 ==> w.muted)
    && (data[0] in {0, 1, 4} ==> w.muted == v.muted)
  }

  /** An accepted command sets the volume it stands for; if that is another one than before, all connections in use are
      told this volume, in order, with the counters that follow the one the client sent, the last of which holds from
      then on; and if it is the same, nobody is told and nothing changes. */
  lemma AcceptedCommand(s: State, data: seq<byte>)
    requires Shape(s) && Command(data, s.counter)
    ensures var r, told := ControlPointWrite(s, data), ToldByWrite(s, data);
      && Commanded(s.volume, data, r.volume) && r.inUse == s.inUse
      && (r.volume == s.volume ==> r == s && told == [])
      && (r.volume != s.volume ==>
            && r.changes == s.changes + 1 && r.counter == Later(s.counter, |told|)
            && Tells(s.(volume := r.volume), 0, told))
  {
    hide Notifications, Notified, Tells;
    var v := NewVolume(data[0], s.volume, if data[0] == SET_ABSOLUTE then data[2] else s.volume.setting);
    if v != s.volume {
      var t := s.(volume := v, changes := s.changes + 1);
      TellsEachInUse(t, 0);
      TellsAlike(t, s.(volume := v), 0, Notifications(t, 0));
      NotifiedBumps(t, 0);
      OnlyLastIsCurrent(t, 0);
    }
  }

  // ---- runs ----

  datatype Event =
    | Written(data: seq<byte>)
    | SetLocally(op: byte, absolute: byte)
    | Connection(slot: nat, up: bool)

  predicate Possible(e: Event) {
    e.Connection? ==> e.slot < CONNECTIONS
  }

  function Step(s: State, e: Event): (r: State)
    requires Shape(s) && Possible(e)
    ensures Shape(r)
  {
    match e
    case Written(data) => ControlPointWrite(s, data)
    case SetLocally(op, absolute) => WithVolume(s, op, absolute)
    case Connection(slot, up) => s.(inUse := s.inUse[slot := up])
  }

  function Run(s: State, events: seq<Event>): (r: State)
    requires Shape(s) && forall e | e in events :: Possible(e)
    ensures Shape(r)
  {
    if events == [] then s else Step(Run(s, events[..|events| - 1]), events[|events| - 1])
  }

  /** The client in `slot` is connected before, during and after the run. */
  predicate Stays(s: State, events: seq<Event>, slot: nat) {
    && Shape(s) && slot < CONNECTIONS && s.inUse[slot]
    && forall e | e in events :: Possible(e) && e != Connection(slot, false)
  }

  lemma {:induction false} UsedSomewhere(s: State, slot: nat, i: nat)
    requires Shape(s) && i <= slot < CONNECTIONS && s.inUse[slot]
    ensures InUse(s, i) >= 1
    decreases slot - i
  {
    if i < slot {
      UsedSomewhere(s, slot, i + 1);
    }
  }

  predicate Since(s: State, t: State, slot: nat) {
    && Shape(t) && slot < CONNECTIONS && t.inUse[slot]
    && t.bumps >= s.bumps && t.counter == (s.counter + (t.bumps - s.bumps)) % 256
    && 0 <= t.changes - s.changes <= t.bumps - s.bumps
    && (t.bumps == s.bumps <==> t.changes == s.changes)
    && (t.changes == s.changes ==> t.volume == s.volume)
  }

  lemma SinceSet(s: State, t: State, slot: nat, op: byte, absolute: byte)
    requires Since(s, t, slot)
    ensures Since(s, WithVolume(t, op, absolute), slot)
  {
    hide Notified, NewVolume;
    var v := NewVolume(op, t.volume, absolute);
    if v != t.volume {
      var u := t.(volume := v, changes := t.changes + 1);
      NotifiedBumps(u, 0);
      UsedSomewhere(u, slot, 0);
    }
  }

  lemma {:induction false} RunSince(s: State, events: seq<Event>, slot: nat)
    requires Stays(s, events, slot)
    ensures Since(s, Run(s, events), slot)
  {
    hide WithVolume, Since;
    if events == [] {
      SinceStart(s, slot);
    } else {
      var n := |events| - 1;
      assert events[n] in events && forall e | e in events[..n] :: e in events;
      RunSince(s, events[..n], slot);
      SinceStep(s, Run(s, events[..n]), events[n], slot);
    }
  }

  lemma SinceStart(s: State, slot: nat)
    requires Shape(s) && slot < CONNECTIONS && s.inUse[slot]
    ensures Since(s, s, slot)
  {
  }

  lemma SinceStep(s: State, t: State, e: Event, slot: nat)
    requires Since(s, t, slot) && Possible(e) && e != Connection(slot, false)
    ensures Since(s, Step(t, e), slot)
  {
    hide WithVolume;
    match e
    case Written(data) =>
      if AnswerTo(t, data) == Success {
        SinceSet(s, t, slot, data[0], if data[0] == SET_ABSOLUTE then data[2] else t.volume.setting);
      }
    case SetLocally(op, absolute) => SinceSet(s, t, slot, op, absolute);
    case Connection(_, _) =>
  }

  /** A client that stays connected reads the state `s` and later writes with the counter it read. The write is accepted
      exactly if the number of increments since is a multiple of 256. With fewer than 256 increments that is: exactly if
      nothing changed, so that the client knows the state its command acts on. */
  lemma NoLostUpdate(s: State, events: seq<Event>, slot: nat, data: seq<byte>)
    requires Stays(s, events, slot) && Command(data, s.counter)
    ensures var t := Run(s, events);
      && (AnswerTo(t, data) == Success <==> (t.bumps - s.bumps) % 256 == 0)
      && (t.bumps - s.bumps < 256 ==> (AnswerTo(t, data) == Success <==> t.changes == s.changes))
      && (t.changes == s.changes ==> t.volume == s.volume)
  {
    hide Run;
    RunSince(s, events, slot);
  }

  // ---- where an update is lost ----

  function Toggles(k: nat): (r: seq<Event>)
    ensures |r| == k && forall e | e in r :: Possible(e) && !e.Connection?
  {
    if k == 0 then [] else Toggles(k - 1) + [SetLocally(if k % 2 == 1 then MUTE else UNMUTE, 0)]
  }

  lemma {:induction false} TogglesRun(s: State, k: nat)
    requires Shape(s) && s.inUse == [true, true] && !s.volume.muted
    ensures var t := Run(s, Toggles(k));
      t == s.(volume := s.volume.(muted := k % 2 == 1), counter := (s.counter + 2 * k) % 256,
              bumps := s.bumps + 2 * k, changes := s.changes + k)
  {
    hide WithVolume, Run, Toggles;
    TogglesLast(s, k);
    if k > 0 {
      TogglesRun(s, k - 1);
      ToggleStep(Run(s, Toggles(k - 1)), k % 2 == 1);
      Wraps(s.counter, 2 * (k - 1), 2);
    }
  }

  lemma TogglesLast(s: State, k: nat)
    requires Shape(s)
    ensures Run(s, Toggles(k))
         == if k == 0 then s else WithVolume(Run(s, Toggles(k - 1)), if k % 2 == 1 then MUTE else UNMUTE, 0)
  {
    hide WithVolume;
    if k > 0 {
      assert Toggles(k)[..k - 1] == Toggles(k - 1);
    }
  }

  lemma ToggleStep(t: State, mute: bool)
    requires Shape(t) && t.inUse == [true, true] && t.volume.muted != mute
    ensures WithVolume(t, if mute then MUTE else UNMUTE, 0)
         == t.(volume := t.volume.(muted := mute), counter := (t.counter + 2) % 256, bumps := t.bumps + 2,
               changes := t.changes + 1)
  {
    hide Notified;
    var u := t.(volume := t.volume.(muted := mute), changes := t.changes + 1);
    NotifiedBumps(u, 0);
    BothInUse(u);
  }

  lemma BothInUse(s: State)
    requires s.inUse == [true, true]
    ensures InUse(s, 0) == 2
  {
    assert InUse(s, 1) == 1;
  }

  /** With two clients the counter is back after 128 changes: a stale write is then accepted. */
  lemma UpdateLost(s: State, data: seq<byte>)
    requires Shape(s) && s.inUse == [true, true] && !s.volume.muted && Command(data, s.counter)
    ensures var t := Run(s, Toggles(128)); t.changes == s.changes + 128 && AnswerTo(t, data) == Success
  {
    hide Run;
    TogglesRun(s, 128);
  }

  // ---- saturation ----

  function Ups(s: State, k: nat): (r: State)
    requires Shape(s)
    ensures Shape(r)
  {
    if k == 0 then s else WithVolume(Ups(s, k - 1), RELATIVE_UP, 0)
  }

  function Downs(s: State, k: nat): (r: State)
    requires Shape(s)
    ensures Shape(r)
  {
    if k == 0 then s else WithVolume(Downs(s, k - 1), RELATIVE_DOWN, 0)
  }

  /** Repeated steps saturate at the ends of the range; a step that changes nothing is not counted. */
  lemma {:induction false} StepsSaturate(s: State, k: nat)
    requires Shape(s)
    ensures Ups(s, k).volume.setting
         == if s.volume.setting + STEP * k > MAXIMUM_VOLUME then MAXIMUM_VOLUME else s.volume.setting + STEP * k
    ensures Downs(s, k).volume.setting == if s.volume.setting < STEP * k then 0 else s.volume.setting - STEP * k
    ensures var r := Ups(s, k);
      && (r.volume.setting < MAXIMUM_VOLUME ==> STEP * (r.changes - s.changes) == r.volume.setting - s.volume.setting)
      && STEP * (r.changes - s.changes) < r.volume.setting - s.volume.setting + STEP
  {
    hide Notified;
    if k > 0 {
      StepsSaturate(s, k - 1);
      SetKeeps(Ups(s, k - 1), RELATIVE_UP);
      SetKeeps(Downs(s, k - 1), RELATIVE_DOWN);
    }
  }

  lemma SetKeeps(s: State, op: byte)
    requires Shape(s)
    ensures var r := WithVolume(s, op, 0);
      && r.volume == NewVolume(op, s.volume, 0)
      && r.changes == s.changes + if r.volume == s.volume then 0 else 1
  {
    hide Notified, NewVolume;
    var v := NewVolume(op, s.volume, 0);
    NotifiedBumps(s.(volume := v, changes := s.changes + 1), 0);
  }
}
