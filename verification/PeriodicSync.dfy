/** Synchronising to periodic advertising: the controller takes one create-sync command at a time, further requests
    wait in a queue. */
module PeriodicSync {
  import opened AscsTypes
  import opened Bytes

  const SYNCHRONIZATION_TIMEOUT: byte := 0x3E

  /** The advertiser and advertising set a request is for. */
  datatype Source = Source(sid: byte, addrType: byte, addr: nat)

  datatype Request = Request(source: Source, interval: uint16)

  /** `outstanding` are the commands the controller works on; `accepted` and `finished` are history variables of the
      model. */
  datatype Sync = Sync(progress: bool, queue: seq<Request>, outstanding: seq<Request>,
                       accepted: seq<Source>, finished: seq<Source>)

  const INITIAL := Sync(false, [], [], [], [])

  function SyncTimeout(r: Request): uint16 {
    r.interval * 3 / 4
  }

  function Issue(s: Sync, r: Request): Sync {
    s.(outstanding := s.outstanding + [r], progress := true)
  }

  /** A request, or none to go on with the queue; `buffer` says whether there is memory to queue a request. */
  function Create(s: Sync, report: Option<Request>, buffer: bool): Sync {
    if s.progress && report.Some? then
      if buffer then s.(queue := s.queue + [report.value]) else s
    else if report.Some? then Issue(s, report.value)
    else if s.queue == [] then s.(progress := false)
    else Issue(s.(queue := s.queue[1..]), s.queue[0])
  }

  datatype Event =
    | Requested(request: Request, buffer: bool)
    | Established(status: byte, source: Source, interval: uint16)

  /** A timeout that answers a command, and names another source than it; the program believes the event. */
  predicate Misnamed(s: Sync, e: Event) {
    && e.Established? && e.status == SYNCHRONIZATION_TIMEOUT
    && s.outstanding != [] && e.source != s.outstanding[0].source
  }

  /** Without memory for the queue a request is dropped. */
  predicate Dropped(s: Sync, e: Event) {
    e.Requested? && s.progress && !e.buffer
  }

  function Step(s: Sync, e: Event): Sync {
    match e
    case Requested(r, buffer) =>
      var t := Create(s, Some(r), buffer);
      if Dropped(s, e) then t else t.(accepted := s.accepted + [r.source])
    case Established(status, source, interval) =>
      var known := s.outstanding != [];
      var idle := s.(outstanding := if known then s.outstanding[1..] else [], progress := false);
      if status == SYNCHRONIZATION_TIMEOUT then
        var t := Create(idle, Some(Request(source, interval)), true);
        if known then t else t.(accepted := s.accepted + [source])
      else Create(idle.(finished := if known then s.finished + [s.outstanding[0].source] else s.finished), None, true)
  }

  function Run(events: seq<Event>): Sync {
    if events == [] then INITIAL else Step(Run(events[..|events| - 1]), events[|events| - 1])
  }

  // ---- the flag and the queue ----

  class BroadcastSink {
    var progress: bool
    var pending: seq<Request>
    ghost var outstanding: seq<Request>
    ghost var accepted: seq<Source>
    ghost var finished: seq<Source>

    ghost function Contents(): Sync
      reads this
    {
      Sync(progress, pending, outstanding, accepted, finished)
    }

    constructor ()
      ensures Contents() == INITIAL
    {
      progress, pending := false, [];
      outstanding, accepted, finished := [], [], [];
    }

    method CreatePeriodicSync(report: Option<Request>, buffer: bool) returns (timeout: Option<uint16>)
      modifies this
      ensures Contents() == Create(old(Contents()), report, buffer)
      ensures timeout.Some? <==> |outstanding| > |old(outstanding)|
      ensures timeout.Some? ==> timeout.value == SyncTimeout(outstanding[|outstanding| - 1])
    {
      if progress && report.Some? {
        if buffer {
          pending := pending + [report.value];
        }
        return None;
      }
      var r := report;
      if r.None? {
        if pending == [] {
          progress := false;
          return None;
        }
        r, pending := Some(pending[0]), pending[1..];
      }
      timeout := Some(r.value.interval * 3 / 4);
      outstanding := outstanding + [r.value];
      progress := true;
    }

    method OnRequest(r: Request, buffer: bool)
      modifies this
      ensures Contents() == Step(old(Contents()), Requested(r, buffer))
    {
      ghost var dropped := progress && !buffer;
      var _ := CreatePeriodicSync(Some(r), buffer);
      accepted := if dropped then accepted else accepted + [r.source];
    }

    /** A timeout that answers no command counts as a new request. */
    method OnSyncEstablished(status: byte, source: Source, interval: uint16)
      modifies this
      ensures Contents() == Step(old(Contents()), Established(status, source, interval))
    {
      var report := None;
      if status == SYNCHRONIZATION_TIMEOUT {
        report := Some(Request(source, interval));
      }
      ghost var known := outstanding != [];
      finished := if report.None? && known then finished + [outstanding[0].source] else finished;
      accepted := if report.Some? && !known then accepted + [source] else accepted;
      outstanding := if known then outstanding[1..] else [];
      progress := false;
      var _ := CreatePeriodicSync(report, true);
    }
  }

  /** The timeout, in units of 10 ms, is six intervals, in units of 1.25 ms, rounded down: the six opportunities the
      program means to give a peer are given in full exactly if the interval is a multiple of 5 ms. */
  lemma SixIntervals(r: Request)
    ensures var timeout, six := 1000 * SyncTimeout(r), 6 * 125 * r.interval;  // in hundredths of a millisecond
      && timeout <= six < timeout + 1000
      && (timeout == six <==> r.interval % 4 == 0)
  {
  }

  // ---- what holds in every run ----

  function Sources(rs: seq<Request>): (r: seq<Source>)
    ensures |r| == |rs| && forall i | 0 <= i < |rs| :: r[i] == rs[i].source
  {
    if rs == [] then [] else [rs[0].source] + Sources(rs[1..])
  }

  lemma SourcesOf(a: seq<Request>, b: seq<Request>)
    ensures Sources(a + b) == Sources(a) + Sources(b)
  {
  }

  /** One command at most, the flag set exactly then, and requests only wait while there is one. */
  predicate Flagged(s: Sync) {
    |s.outstanding| == (if s.progress then 1 else 0) && (s.queue != [] ==> s.progress)
  }

  /** The accepted requests, in order, are those finished, then the one outstanding, then those queued. */
  predicate Conserved(s: Sync) {
    s.accepted == s.finished + Sources(s.outstanding) + Sources(s.queue)
  }

  lemma FlaggedStep(s: Sync, e: Event)
    requires Flagged(s)
    ensures Flagged(Step(s, e))
  {
  }

  lemma RequestConserves(s: Sync, r: Request, buffer: bool)
    requires Flagged(s) && Conserved(s)
    ensures Conserved(Step(s, Requested(r, buffer)))
  {
    hide Sources;
    SourcesOf(s.queue, [r]);
    SourcesOf(s.outstanding, [r]);
    OneSource(r);
  }

  lemma OneSource(r: Request)
    ensures Sources([r]) == [r.source] && Sources([]) == []
  {
  }

  /** An idle controller is given the oldest queued request. */
  lemma NextConserves(s: Sync)
    requires s.outstanding == [] && !s.progress && s.accepted == s.finished + Sources(s.queue)
    ensures Conserved(Create(s, None, true))
  {
    hide Sources;
    if s.queue == [] {
      OneSource(Request(Source(0, 0, 0), 0));
    } else {
      assert s.queue == [s.queue[0]] + s.queue[1..] && [] + [s.queue[0]] == [s.queue[0]];
      SourcesOf([s.queue[0]], s.queue[1..]);
      OneSource(s.queue[0]);
    }
  }

  lemma RetryConserves(s: Sync, source: Source, interval: uint16)
    requires Flagged(s) && Conserved(s)
    ensures var e := Established(SYNCHRONIZATION_TIMEOUT, source, interval);
      Conserved(Step(s, e)) <==> !Misnamed(s, e)
  {
    hide Sources;
    var e, r := Established(SYNCHRONIZATION_TIMEOUT, source, interval), Request(source, interval);
    OneSource(r);
    assert [] + [r] == [r];
    if s.outstanding != [] {
      assert s.outstanding == [s.outstanding[0]];
      OneSource(s.outstanding[0]);
      var t, n := Step(s, e), |s.finished|;
      assert (s.finished + Sources(s.outstanding) + Sources(s.queue))[n] == s.outstanding[0].source;
      assert (t.finished + Sources(t.outstanding) + Sources(t.queue))[n] == source;
    }
  }

  lemma EndConserves(s: Sync, e: Event)
    requires Flagged(s) && Conserved(s) && e.Established? && e.status != SYNCHRONIZATION_TIMEOUT
    ensures Conserved(Step(s, e))
  {
    hide Sources;
    OneSource(Request(e.source, 0));
    if s.outstanding != [] {
      assert s.outstanding == [s.outstanding[0]];
      OneSource(s.outstanding[0]);
    }
    var finished := if s.outstanding != [] then s.finished + [s.outstanding[0].source] else s.finished;
    NextConserves(s.(outstanding := [], progress := false, finished := finished));
  }

  /** A step keeps the requests in order and complete exactly unless it is a timeout that names another source. */
  lemma StepConservesExactly(s: Sync, e: Event)
    requires Flagged(s) && Conserved(s)
    ensures Conserved(Step(s, e)) <==> !Misnamed(s, e)
  {
    hide Step, Flagged, Conserved;
    match e
    case Requested(r, buffer) => RequestConserves(s, r, buffer);
    case Established(status, source, interval) =>
      if status == SYNCHRONIZATION_TIMEOUT {
        RetryConserves(s, source, interval);
      } else {
        EndConserves(s, e);
      }
  }

  /** No timeout of the run names another source than that of the command it answers. */
  predicate WellNamed(events: seq<Event>) {
    events == []
    || (WellNamed(events[..|events| - 1]) && !Misnamed(Run(events[..|events| - 1]), events[|events| - 1]))
  }

  /** In every run at most one command is outstanding, the flag is set exactly then, and requests only wait while one
      is; and the accepted requests, in order, are those finished, then the one outstanding, then those queued, so that
      none is lost, repeated or overtaken, as long as timeouts name the source of the command they answer. */
  lemma {:induction false} EveryRun(events: seq<Event>)
    ensures var s := Run(events);
      && |s.outstanding| <= 1 && (s.progress <==> |s.outstanding| == 1)
      && (s.queue != [] ==> s.progress)
      && (WellNamed(events) ==> s.accepted == s.finished + Sources(s.outstanding) + Sources(s.queue))
  {
    RunInv(events);
  }

  lemma {:induction false} RunInv(events: seq<Event>)
    ensures Flagged(Run(events)) && (WellNamed(events) ==> Conserved(Run(events)))
  {
    hide Step, Misnamed;
    if events != [] {
      var n := |events| - 1;
      RunInv(events[..n]);
      FlaggedStep(Run(events[..n]), events[n]);
      if WellNamed(events[..n]) {
        StepConservesExactly(Run(events[..n]), events[n]);
      }
    }
  }

  /** The commands that came to an end other than by a timeout. */
  function Ends(events: seq<Event>): nat {
    if events == [] then 0
    else
      var rest, e := events[..|events| - 1], events[|events| - 1];
      Ends(rest)
      + if e.Established? && e.status != SYNCHRONIZATION_TIMEOUT && Run(rest).outstanding != [] then 1 else 0
  }

  lemma {:induction false} FinishedAreEnds(events: seq<Event>)
    ensures |Run(events).finished| == Ends(events)
  {
    if events != [] {
      FinishedAreEnds(events[..|events| - 1]);
    }
  }

  /** The k-th end is that of the k-th accepted request, however many timeouts came before. */
  lemma ServedInOrder(events: seq<Event>, k: nat)
    requires WellNamed(events) && k < Ends(events)
    ensures var s := Run(events); |s.finished| == Ends(events) <= |s.accepted| && s.finished[k] == s.accepted[k]
  {
    hide Run, Ends;
    EveryRun(events);
    FinishedAreEnds(events);
  }

  /** The source a timeout names, that of the request that timed out if it is well named, is tried again before any
      other; after any other end the oldest queued request is next. */
  lemma NextCommand(events: seq<Event>, status: byte, source: Source, interval: uint16)
    requires Run(events).outstanding != []
    ensures var s := Run(events);
      var t := Step(s, Established(status, source, interval));
      if status == SYNCHRONIZATION_TIMEOUT then
        t.outstanding == [Request(source, interval)] && t.queue == s.queue && t.finished == s.finished
      else
        && t.finished == s.finished + [s.outstanding[0].source]
        && if s.queue != [] then t.outstanding == [s.queue[0]] && t.queue == s.queue[1..]
           else !t.progress && t.outstanding == []
  {
    hide Run;
    RunInv(events);
  }
}
