/** The client's list of notification writes: resumed by completions and by the end of congestion, with a guard
    against re-entry. */
module GattOperations {
  import opened AscsTypes
  import opened Bytes

  /** How the stack answers a write: not sent, sent, or sent and completed before the call returns. */
  datatype Answer = Refused | Sent | SentAndCompleted

  /** `issued`, `completed` and `callbacks` are history variables of the model: the entries written, in order, the
      completions, and the calls of the application's callback. */
  datatype Ops = Ops(index: nat, ops: byte, issued: seq<nat>, completed: nat, callbacks: nat)

  const INITIAL := Ops(0, 0, [], 0, 0)

  // `es` are the descriptor handles of the entries; zero stands for a missing entry or descriptor.

  /** The first entry from `i` on with a descriptor. */
  function Skip(es: seq<uint16>, i: nat): (r: nat)
    requires i <= |es|
    ensures i <= r <= |es|
    decreases |es| - i
  {
    if i == |es| || es[i] != 0 then i else Skip(es, i + 1)
  }

  function Notify(es: seq<uint16>, l: Ops): Ops {
    if l.ops == 0 && l.index == |es| then l.(callbacks := l.callbacks + 1) else l
  }

  function Execute(es: seq<uint16>, l: Ops, a: Answer): Ops
    requires l.index <= |es|
  {
    var i := Skip(es, l.index);
    if i == |es| || a.Refused? then Notify(es, l.(index := i))
    else
      var next := l.(index := i + 1, issued := l.issued + [i]);
      Notify(es, if a.Sent? then next.(ops := (l.ops + 1) % 256) else next.(completed := l.completed + 1))
  }

  function Complete(es: seq<uint16>, l: Ops, a: Answer): Ops
    requires l.index <= |es|
  {
    var next := l.(ops := (l.ops as int - 1) % 256, completed := l.completed + 1);
    if next.index == |es| then Notify(es, next) else Execute(es, next, a)
  }

  datatype Event = Executed(answer: Answer) | Completed(answer: Answer)

  /** The callback frees the list; a completion belongs to an outstanding write. */
  predicate Possible(l: Ops, e: Event) {
    l.callbacks == 0 && (e.Completed? ==> l.completed < |l.issued|)
  }

  function Step(es: seq<uint16>, l: Ops, e: Event): Ops
    requires l.index <= |es|
  {
    if e.Executed? then Execute(es, l, e.answer) else Complete(es, l, e.answer)
  }

  function Run(es: seq<uint16>, events: seq<Event>): (r: Option<Ops>)
    ensures r.Some? ==> r.value.index <= |es|
  {
    if events == [] then Some(INITIAL)
    else
      var before, e := Run(es, events[..|events| - 1]), events[|events| - 1];
      if before.Some? && Possible(before.value, e) then Some(Step(es, before.value, e)) else None
  }

  // ---- the list in memory ----

  class OperationList {
    const entries: seq<uint16>
    var currentIndex: nat
    var opsInProgress: byte
    var iteratingLoop: bool
    ghost var issued: seq<nat>
    ghost var completed: nat
    ghost var callbacks: nat

    ghost predicate Valid()
      reads this
    {
      currentIndex <= |entries|
    }

    ghost function Contents(): Ops
      reads this
    {
      Ops(currentIndex, opsInProgress, issued, completed, callbacks)
    }

    constructor (entries: seq<uint16>)
      ensures Valid() && Contents() == INITIAL && !iteratingLoop && this.entries == entries
    {
      this.entries := entries;
      currentIndex, opsInProgress, iteratingLoop := 0, 0, false;
      issued, completed, callbacks := [], 0, 0;
    }

    /** A write that is completed at once re-enters the list before the call returns. */
    method Write(a: Answer) returns (sent: bool)
      requires Valid() && iteratingLoop && currentIndex < |entries|
      modifies this
      ensures Valid() && iteratingLoop && sent == !a.Refused?
      ensures Contents() == if a.SentAndCompleted? then
                              old(Contents()).(ops := (old(opsInProgress) as int - 1) % 256,
                                               completed := old(completed) + 1)
                            else old(Contents())
      decreases 1, 1
    {
      if a.SentAndCompleted? {
        HandleOperationComplete(a);
      }
      sent := !a.Refused?;
    }

    method EnableNotification(a: Answer)
      requires Valid()
      modifies this
      ensures Valid() && iteratingLoop == old(iteratingLoop)
      ensures Contents() == if old(iteratingLoop) then old(Contents()) else Execute(entries, old(Contents()), a)
      decreases if iteratingLoop then 0 else 2, 0
    {
      if iteratingLoop {
        return;
      }
      iteratingLoop := true;
      while currentIndex < |entries|
        invariant Valid() && iteratingLoop
        invariant Contents() == old(Contents()).(index := currentIndex)
        invariant Skip(entries, currentIndex) == Skip(entries, old(currentIndex))
        decreases |entries| - currentIndex
      {
        if entries[currentIndex] != 0 {
          opsInProgress := (opsInProgress + 1) % 256;
          var sent := Write(a);
          if !sent {
            opsInProgress := (opsInProgress as int - 1) % 256;
          } else {
            issued := issued + [currentIndex];
            currentIndex := currentIndex + 1;
          }
          break;
        }
        currentIndex := currentIndex + 1;
      }
      iteratingLoop := false;
      if opsInProgress == 0 && currentIndex == |entries| {
        callbacks := callbacks + 1;
      }
    }

    method HandleOperationComplete(a: Answer)
      requires Valid() && (iteratingLoop ==> currentIndex < |entries|)
      modifies this
      ensures Valid() && iteratingLoop == old(iteratingLoop)
      ensures Contents() == if old(iteratingLoop) then
                              old(Contents()).(ops := (old(opsInProgress) as int - 1) % 256,
                                               completed := old(completed) + 1)
                            else Complete(entries, old(Contents()), a)
      decreases if iteratingLoop then 1 else 3, 0
    {
      opsInProgress, completed := (opsInProgress as int - 1) % 256, completed + 1;
      if opsInProgress == 0 && currentIndex == |entries| {
        callbacks := callbacks + 1;
      } else if currentIndex != |entries| {
        EnableNotification(a);
      }
    }
  }

  // ---- what holds in every run ----

  /** The entries below `n` that have a descriptor, in order. */
  function Usable(es: seq<uint16>, n: nat): (r: seq<nat>)
    requires n <= |es|
    ensures |r| <= n
  {
    if n == 0 then [] else if es[n - 1] != 0 then Usable(es, n - 1) + [n - 1] else Usable(es, n - 1)
  }

  lemma {:induction false} UsableExactly(es: seq<uint16>, n: nat)
    requires n <= |es|
    ensures var r := Usable(es, n);
      && (forall i | i in r :: i < n && es[i] != 0)
      && (forall i | 0 <= i < n && es[i] != 0 :: i in r)
      && (forall i, j | 0 <= i < j < |r| :: r[i] < r[j])
  {
    if n > 0 {
      UsableExactly(es, n - 1);
      var rest := Usable(es, n - 1);
      assert forall i | 0 <= i < |rest| :: rest[i] in rest;
    }
  }

  lemma {:induction false} UsableSkip(es: seq<uint16>, i: nat)
    requires i <= |es|
    ensures var j := Skip(es, i);
      Usable(es, j) == Usable(es, i) && (j < |es| ==> es[j] != 0 && Usable(es, j + 1) == Usable(es, i) + [j])
    decreases |es| - i
  {
    if i < |es| && es[i] == 0 {
      assert Usable(es, i + 1) == Usable(es, i);
      UsableSkip(es, i + 1);
    }
  }

  lemma {:induction false} UsableGrows(es: seq<uint16>, i: nat, j: nat)
    requires i <= j <= |es|
    ensures |Usable(es, i)| <= |Usable(es, j)|
    decreases j
  {
    if i < j {
      UsableGrows(es, i, j - 1);
    }
  }

  predicate Inv(es: seq<uint16>, l: Ops) {
    && l.index <= |es|
    && l.issued == Usable(es, l.index)
    && l.completed <= |l.issued|
    && l.ops == |l.issued| - l.completed
    && l.callbacks <= 1
    && (l.callbacks == 1 ==> l.index == |es| && l.ops == 0)
  }

  lemma InvExecute(es: seq<uint16>, l: Ops, a: Answer)
    requires Inv(es, l) && l.callbacks == 0 && |Usable(es, |es|)| <= 255
    ensures Inv(es, Execute(es, l, a))
    ensures var r := Execute(es, l, a); r.callbacks == 1 <==> r.index == |es| && r.ops == 0
  {
    hide Usable, Skip;
    UsableSkip(es, l.index);
    var i := Skip(es, l.index);
    if i < |es| {
      UsableGrows(es, i + 1, |es|);
    }
  }

  lemma InvStep(es: seq<uint16>, l: Ops, e: Event)
    requires Inv(es, l) && Possible(l, e) && |Usable(es, |es|)| <= 255
    ensures Inv(es, Step(es, l, e))
    ensures var r := Step(es, l, e); r.callbacks == 1 <==> r.index == |es| && r.ops == 0
  {
    hide Usable, Execute;
    if e.Executed? {
      InvExecute(es, l, e.answer);
    } else {
      var next := l.(ops := l.ops - 1, completed := l.completed + 1);
      UsableGrows(es, l.index, |es|);
      if next.index < |es| {
        InvExecute(es, next, e.answer);
      }
    }
  }

  /** In every run over a list of at most 255 entries with descriptors, whatever the stack answers and however often
      the list is executed again: the entries with descriptors are written once each and in order, the counter is the
      number of writes outstanding, and the callback has been called, once, exactly when all is written and
      completed. */
  lemma {:induction false} EveryRun(es: seq<uint16>, events: seq<Event>)
    requires |Usable(es, |es|)| <= 255 && Run(es, events).Some?
    ensures var l := Run(es, events).value;
      && l.issued == Usable(es, l.index)
      && l.completed <= |l.issued| && l.ops == |l.issued| - l.completed
      && l.callbacks <= 1
      && (l.callbacks == 1
          <==> events != [] && l.issued == Usable(es, |es|) && l.index == |es| && l.completed == |l.issued|)
  {
    hide Usable, Step;
    RunInv(es, events);
  }

  lemma {:induction false} RunInv(es: seq<uint16>, events: seq<Event>)
    requires |Usable(es, |es|)| <= 255 && Run(es, events).Some?
    ensures var l := Run(es, events).value;
      Inv(es, l) && (events != [] ==> (l.callbacks == 1 <==> l.index == |es| && l.ops == 0))
      && (events == [] ==> l == INITIAL)
  {
    hide Step, Inv;
    if events == [] {
      assert Inv(es, INITIAL) by {
        InvInitial(es);
      }
    } else {
      var n := |events| - 1;
      RunInv(es, events[..n]);
      InvStep(es, Run(es, events[..n]).value, events[n]);
    }
  }

  lemma InvInitial(es: seq<uint16>)
    ensures Inv(es, INITIAL)
  {
  }

  /** What is left to do. */
  function Measure(es: seq<uint16>, l: Ops): int {
    2 * (|es| - l.index) + l.ops
  }

  /** Every step that changes the list brings it closer to its end, but for the callback of a list with nothing to
      do. */
  lemma StepProgress(es: seq<uint16>, l: Ops, e: Event)
    requires Inv(es, l) && Possible(l, e) && |Usable(es, |es|)| <= 255
    ensures var r := Step(es, l, e);
      || r == l || Measure(es, r) < Measure(es, l)
      || (l.index == |es| && l.ops == 0 && r == l.(callbacks := 1))
  {
    hide Usable, Skip;
    UsableGrows(es, l.index, |es|);
    InvStep(es, l, e);
  }

  /** The number of steps of a run that change the list. */
  function Effective(es: seq<uint16>, events: seq<Event>): nat
    requires Run(es, events).Some?
  {
    if events == [] then 0
    else
      var rest := events[..|events| - 1];
      Effective(es, rest) + if Run(es, events) == Run(es, rest) then 0 else 1
  }

  lemma MeasureStart(es: seq<uint16>)
    ensures Measure(es, INITIAL) == 2 * |es|
  {
  }

  /** No run changes the list more than twice per entry, and once more for the callback. */
  lemma {:induction false} RunsEnd(es: seq<uint16>, events: seq<Event>)
    requires |Usable(es, |es|)| <= 255 && Run(es, events).Some?
    ensures Effective(es, events) + Measure(es, Run(es, events).value) <= 2 * |es| + Run(es, events).value.callbacks
  {
    hide Step, Usable;
    if events == [] {
      MeasureStart(es);
    } else {
      var n := |events| - 1;
      RunsEnd(es, events[..n]);
      RunInv(es, events[..n]);
      StepProgress(es, Run(es, events[..n]).value, events[n]);
    }
  }

  /** Nothing is outstanding and the callback has not been called: only the end of a congestion resumes the list. */
  predicate Stalled(l: Ops) {
    l.ops == 0 && l.callbacks == 0
  }

  /** What was outstanding before the step, without the write it completes. */
  function Left(l: Ops, e: Event): int {
    l.ops - if e.Completed? then 1 else 0
  }

  /** The next write is refused, or it completes before its call returns and is not the last entry of the list. */
  predicate StopsAt(es: seq<uint16>, l: Ops, e: Event)
    requires l.index <= |es|
  {
    var i := Skip(es, l.index);
    Left(l, e) == 0 && ((e.answer.Refused? && i < |es|) || (e.answer.SentAndCompleted? && i + 1 < |es|))
  }

  /** A step stalls the list exactly if nothing else is outstanding and the next write is refused, or completes at once
      and has entries behind it, be they with or without a descriptor. */
  lemma StepStallsExactly(es: seq<uint16>, l: Ops, e: Event)
    requires Inv(es, l) && Possible(l, e) && |Usable(es, |es|)| <= 255
    ensures Stalled(Step(es, l, e)) <==> StopsAt(es, l, e)
  {
    hide Usable, Skip;
    InvStep(es, l, e);
    UsableGrows(es, l.index, |es|);
    UsableSkip(es, l.index);
    var i := Skip(es, l.index);
    if i < |es| {
      UsableGrows(es, i + 1, |es|);
    }
  }

  /** After any run that has begun, the list is stalled exactly if its last step stopped it. */
  lemma StallsExactly(es: seq<uint16>, events: seq<Event>)
    requires |Usable(es, |es|)| <= 255 && Run(es, events).Some? && events != []
    ensures var n := |events| - 1;
      Run(es, events[..n]).Some?
      && (Stalled(Run(es, events).value) <==> StopsAt(es, Run(es, events[..n]).value, events[n]))
  {
    hide Usable, Skip, Step, Inv, StopsAt, Stalled;
    var n := |events| - 1;
    RunInv(es, events[..n]);
    StepStallsExactly(es, Run(es, events[..n]).value, events[n]);
  }

  /** In particular not after a write that was sent and is not yet completed. */
  lemma NoStall(es: seq<uint16>, events: seq<Event>)
    requires |Usable(es, |es|)| <= 255 && Run(es, events).Some? && events != [] && events[|events| - 1].answer.Sent?
    ensures !Stalled(Run(es, events).value)
  {
    hide Usable, Skip, Run;
    StallsExactly(es, events);
  }

  /** Of two entries, a first write that completes at once leaves the second unwritten with nothing outstanding; a list
      of one entry is done. */
  lemma SynchronousStall()
    ensures Run([1, 1], [Executed(SentAndCompleted)]) == Some(Ops(1, 0, [0], 1, 0))
    ensures Run([1], [Executed(SentAndCompleted)]) == Some(Ops(1, 0, [0], 1, 1))
  {
    OneExecute([1, 1]);
    OneExecute([1]);
  }

  lemma OneExecute(es: seq<uint16>)
    requires es != [] && es[0] != 0
    ensures Run(es, [Executed(SentAndCompleted)]) == Some(Ops(1, 0, [0], 1, if |es| == 1 then 1 else 0))
  {
    var e := Executed(SentAndCompleted);
    assert Execute(es, INITIAL, SentAndCompleted) == Ops(1, 0, [0], 1, if |es| == 1 then 1 else 0);
    assert [e][..0] == [];
    assert Run(es, []) == Some(INITIAL);
    assert Run(es, [e]) == Some(Step(es, INITIAL, e));
  }

  // ---- beyond 255 entries ----

  function Sends(k: nat): (r: seq<Event>)
    ensures |r| == k
  {
    if k == 0 then [] else Sends(k - 1) + [Executed(Sent)]
  }

  /** The list executed again and again, with every write sent and none completed. */
  lemma {:induction false} ManySends(es: seq<uint16>, k: nat)
    requires k <= 256 && k <= |Usable(es, |es|)|
    ensures var r := Run(es, Sends(k));
      && r.Some? && |r.value.issued| == k && r.value.issued == Usable(es, r.value.index)
      && r.value.ops == k % 256 && r.value.completed == 0
      && r.value.callbacks == if k == 256 && r.value.index == |es| then 1 else 0
  {
    hide Usable, Execute, Run, Sends;
    SendsLast(es, k);
    if k == 0 {
      NoneUsable(es);
    } else {
      ManySends(es, k - 1);
      OneSend(es, Run(es, Sends(k - 1)).value);
    }
  }

  lemma SendsLast(es: seq<uint16>, k: nat)
    ensures k == 0 ==> Run(es, Sends(k)) == Some(INITIAL)
    ensures k > 0 && Run(es, Sends(k - 1)).Some? && Run(es, Sends(k - 1)).value.callbacks == 0 ==>
              Run(es, Sends(k)) == Some(Execute(es, Run(es, Sends(k - 1)).value, Sent))
  {
    hide Execute;
    if k > 0 {
      assert Sends(k)[..k - 1] == Sends(k - 1) && Sends(k)[k - 1] == Executed(Sent);
    }
  }

  lemma OneSend(es: seq<uint16>, l: Ops)
    requires l.index <= |es| && l.issued == Usable(es, l.index) && |l.issued| < |Usable(es, |es|)| && l.callbacks == 0
    ensures var r := Execute(es, l, Sent);
      && |r.issued| == |l.issued| + 1 && r.index <= |es| && r.issued == Usable(es, r.index)
      && r.ops == (l.ops + 1) % 256 && r.completed == l.completed
      && r.callbacks == if r.ops == 0 && r.index == |es| then 1 else 0
  {
    hide Usable, Skip;
    UsableSkip(es, l.index);
  }

  lemma NoneUsable(es: seq<uint16>)
    ensures Usable(es, 0) == []
  {
  }

  predicate Accounts(es: seq<uint16>, events: seq<Event>) {
    Run(es, events).Some? ==>
      var l := Run(es, events).value;
      l.ops == |l.issued| - l.completed && (l.callbacks > 0 ==> l.completed == |l.issued|)
  }

  /** The counter has eight bits. It counts the outstanding writes in all runs exactly if there are at most 255 entries
      to write. */
  lemma CountsIffFewEntries(es: seq<uint16>)
    ensures (forall events :: Accounts(es, events)) <==> |Usable(es, |es|)| <= 255
  {
    hide Run, Usable;
    if |Usable(es, |es|)| <= 255 {
      forall events ensures Accounts(es, events) {
        if Run(es, events).Some? {
          EveryRun(es, events);
        }
      }
    } else {
      ManySends(es, 256);
      assert !Accounts(es, Sends(256));
    }
  }
}
