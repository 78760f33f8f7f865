/**
 StopProcesses: signal each process, give it a minute, and escalate to SIGQUIT.  A failed
 expectation is recorded and the loop goes on; the recorded failures are checked at the end.
 */
module StopProcesses {

  datatype Signal = SIGTERM | SIGKILL | SIGQUIT

  /** A process of the argument list: nil, or one that exits (or is seen to exit) before the first
      deadline or not, and before the second one, after SIGQUIT, or not. */
  datatype Process = Nil | Process(exitsInTime: bool, exitsAfterQuit: bool)

  datatype Event = Sent(process: nat, signal: Signal)

  datatype Failure = NoExitAfterQuit | SigquitSent

  function FirstSignal(windows: bool): Signal { if windows then SIGKILL else SIGTERM }

  predicate Missed(p: Process) { p.Process? && !p.exitsInTime }

  /** What process p is sent. */
  function SignalsFor(p: Process, windows: bool): seq<Signal> {
    match p
    case Nil => []
    case Process(true, _) => [FirstSignal(windows)]
    case Process(false, _) => [FirstSignal(windows), SIGQUIT]
  }

  function SentTo(events: seq<Event>, i: nat): seq<Signal> {
    if events == [] then []
    else
      SentTo(events[..|events| - 1], i)
      + if events[|events| - 1].process == i then [events[|events| - 1].signal] else []
  }

  lemma {:induction false} SentToConcat(a: seq<Event>, b: seq<Event>, i: nat)
    ensures SentTo(a + b, i) == SentTo(a, i) + SentTo(b, i)
    decreases |b|
  {
    if b == [] {
      assert a + b == a;
    } else {
      var n := |b| - 1;
      assert (a + b)[..|a + b| - 1] == a + b[..n];
      SentToConcat(a, b[..n], i);
    }
  }

  lemma {:induction false} SentToNone(events: seq<Event>, i: nat)
    requires forall k :: 0 <= k < |events| ==> events[k].process != i
    ensures SentTo(events, i) == []
    decreases |events|
  {
    if events != [] {
      SentToNone(events[..|events| - 1], i);
    }
  }

  function EventsFor(i: nat, signals: seq<Signal>): seq<Event> {
    seq(|signals|, k requires 0 <= k < |signals| => Sent(i, signals[k]))
  }

  /** The signals that the first n processes are sent. */
  function Events(processes: seq<Process>, windows: bool, n: nat): seq<Event>
    requires n <= |processes|
  {
    if n == 0 then []
    else Events(processes, windows, n - 1) + EventsFor(n - 1, SignalsFor(processes[n - 1], windows))
  }

  /** The expectations that fail for process p, in order. */
  function FailuresOf(p: Process): seq<Failure> {
    if !Missed(p) then [] else if p.exitsAfterQuit then [SigquitSent] else [NoExitAfterQuit, SigquitSent]
  }

  function Failures(processes: seq<Process>, n: nat): seq<Failure>
    requires n <= |processes|
  {
    if n == 0 then [] else Failures(processes, n - 1) + FailuresOf(processes[n - 1])
  }

  /** What process n adds to the events and failures. */
  lemma NextProcess(processes: seq<Process>, windows: bool, n: nat)
    requires n < |processes|
    ensures Failures(processes, n + 1) == Failures(processes, n) + FailuresOf(processes[n])
    ensures Events(processes, windows, n + 1) == Events(processes, windows, n) +
            if processes[n].Nil? then []
            else [Sent(n, FirstSignal(windows))] + if Missed(processes[n]) then [Sent(n, SIGQUIT)] else []
  {
    assert EventsFor(n, []) == [];
    assert EventsFor(n, [FirstSignal(windows)]) == [Sent(n, FirstSignal(windows))];
    assert EventsFor(n, [FirstSignal(windows), SIGQUIT]) == [Sent(n, FirstSignal(windows)), Sent(n, SIGQUIT)];
  }

  lemma NothingYet(processes: seq<Process>, windows: bool)
    ensures Events(processes, windows, 0) == [] && Failures(processes, 0) == []
  {
  }

  // ---------- what each process gets ----------

  lemma {:induction false} SentToOwn(i: nat, signals: seq<Signal>)
    ensures SentTo(EventsFor(i, signals), i) == signals
    decreases |signals|
  {
    if signals != [] {
      var n := |signals| - 1;
      assert EventsFor(i, signals)[..n] == EventsFor(i, signals[..n]);
      SentToOwn(i, signals[..n]);
    }
  }

  /** Events of the processes below n, those of one process before those of the next. */
  ghost predicate InOrder(events: seq<Event>, n: nat) {
    && (forall k :: 0 <= k < |events| ==> events[k].process < n)
    && (forall k, m :: 0 <= k < m < |events| ==> events[k].process <= events[m].process)
  }

  lemma AppendOwn(before: seq<Event>, n: nat, signals: seq<Signal>, i: nat)
    requires InOrder(before, n) && i <= n
    ensures InOrder(before + EventsFor(n, signals), n + 1)
    ensures SentTo(before + EventsFor(n, signals), i) == if i == n then signals else SentTo(before, i)
  {
    hide SentTo;
    var own := EventsFor(n, signals);
    SentToConcat(before, own, i);
    if i == n {
      SentToNone(before, n);
      SentToOwn(n, signals);
    } else {
      SentToNone(own, i);
    }
  }

  /** Every process that is not nil gets its first signal, whatever failed before it; SIGQUIT goes
      to just those that missed the first deadline, and after the first signal; and the processes
      are dealt with one after another. */
  lemma {:induction false} EachProcessIsSignalled(processes: seq<Process>, windows: bool, n: nat, i: nat)
    requires i < n <= |processes|
    ensures InOrder(Events(processes, windows, n), n)
    ensures SentTo(Events(processes, windows, n), i) == SignalsFor(processes[i], windows)
    ensures SentTo(Events(processes, windows, n), i) ==
            if processes[i].Nil? then []
            else (if windows then [SIGKILL] else [SIGTERM]) + if processes[i].exitsInTime then [] else [SIGQUIT]
  {
    hide InOrder, SentTo, EventsFor;
    var before, signals := Events(processes, windows, n - 1), SignalsFor(processes[n - 1], windows);
    if n == 1 {
      NoEvents();
    } else {
      EachProcessIsSignalled(processes, windows, n - 1, if i < n - 1 then i else 0);
    }
    AppendOwn(before, n - 1, signals, i);
  }

  lemma NoEvents()
    ensures InOrder([], 0)
  {
  }

  /** In particular SIGQUIT is sent to process i exactly if it missed the first deadline. */
  lemma QuitIffMissed(processes: seq<Process>, windows: bool, i: nat)
    requires i < |processes|
    ensures Sent(i, SIGQUIT) in Events(processes, windows, |processes|) <==> Missed(processes[i])
  {
    EachProcessIsSignalled(processes, windows, |processes|, i);
    SentToIff(Events(processes, windows, |processes|), i, SIGQUIT);
  }

  lemma {:induction false} SentToIff(events: seq<Event>, i: nat, signal: Signal)
    ensures Sent(i, signal) in events <==> signal in SentTo(events, i)
    decreases |events|
  {
    if events != [] {
      var n := |events| - 1;
      assert events == events[..n] + [events[n]];
      SentToIff(events[..n], i, signal);
    }
  }

  /** No signal of the other platform, no process twice without SIGQUIT as the second, and the
      processes in order. */
  ghost predicate WellSent(events: seq<Event>, windows: bool, n: nat) {
    && (forall k :: 0 <= k < |events| ==>
          events[k].process < n && events[k].signal != if windows then SIGTERM else SIGKILL)
    && (forall k, m :: 0 <= k < m < |events| ==>
          || events[k].process < events[m].process
          || (events[k].process == events[m].process && events[k].signal != SIGQUIT && events[m].signal == SIGQUIT))
  }

  lemma {:induction false} EventsWellSent(processes: seq<Process>, windows: bool, n: nat)
    requires n <= |processes|
    ensures WellSent(Events(processes, windows, n), windows, n)
  {
    if n > 0 {
      EventsWellSent(processes, windows, n - 1);
    }
  }

  // ---------- the failures ----------

  /** The failures between two places are the record of process p: one SigquitSent if it missed its
      first deadline, right after a NoExitAfterQuit if it ignored SIGQUIT too, and otherwise none. */
  predicate RecordAt(p: Process, failures: seq<Failure>, from: nat, to: nat) {
    && from <= to <= |failures|
    && failures[from..to] ==
       if p.Nil? || p.exitsInTime then []
       else if p.exitsAfterQuit then [SigquitSent]
       else [NoExitAfterQuit, SigquitSent]
  }

  /** The failures are cut at the places `cut` into the records of the processes, in their order. */
  ghost predicate Recorded(processes: seq<Process>, failures: seq<Failure>, cut: seq<nat>) {
    && |cut| == |processes| + 1 && cut[0] == 0 && cut[|processes|] == |failures|
    && forall i :: 0 <= i < |processes| ==> RecordAt(processes[i], failures, cut[i], cut[i + 1])
  }

  lemma {:induction false} FailuresAreRecorded(processes: seq<Process>, n: nat) returns (cut: seq<nat>)
    requires n <= |processes|
    ensures Recorded(processes[..n], Failures(processes, n), cut)
  {
    hide Recorded, FailuresOf;
    if n == 0 {
      cut := [0];
      NothingRecorded();
    } else {
      cut := FailuresAreRecorded(processes, n - 1);
      RecordedNext(processes[..n - 1], Failures(processes, n - 1), cut, processes[n - 1]);
      assert processes[..n] == processes[..n - 1] + [processes[n - 1]];
      cut := cut + [|Failures(processes, n)|];
    }
  }

  lemma NothingRecorded()
    ensures Recorded([], [], [0])
  {
  }

  lemma RecordKept(p: Process, failures: seq<Failure>, more: seq<Failure>, from: nat, to: nat)
    requires RecordAt(p, failures, from, to)
    ensures RecordAt(p, failures + more, from, to)
  {
    assert (failures + more)[from..to] == failures[from..to];
  }

  lemma NewRecord(failures: seq<Failure>, next: Process)
    ensures var failures' := failures + FailuresOf(next); RecordAt(next, failures', |failures|, |failures'|)
  {
    var failures' := failures + FailuresOf(next);
    assert failures'[|failures|..|failures'|] == FailuresOf(next);
  }

  lemma RecordedNext(processes: seq<Process>, failures: seq<Failure>, cut: seq<nat>, next: Process)
    requires Recorded(processes, failures, cut)
    ensures var failures' := failures + FailuresOf(next);
            Recorded(processes + [next], failures', cut + [|failures'|])
  {
    hide RecordAt, FailuresOf;
    var all, failures' := processes + [next], failures + FailuresOf(next);
    var cut' := cut + [|failures'|];
    forall i | 0 <= i < |all| ensures RecordAt(all[i], failures', cut'[i], cut'[i + 1]) {
      if i < |processes| {
        RecordKept(processes[i], failures, FailuresOf(next), cut[i], cut[i + 1]);
      } else {
        NewRecord(failures, next);
      }
    }
  }

  // ---------- the loop ----------

  method StopProcesses(processes: seq<Process>, windows: bool)
    returns (events: seq<Event>, failures: seq<Failure>, passed: bool)
    ensures events == Events(processes, windows, |processes|)
    ensures failures == Failures(processes, |processes|)
    ensures passed <==> forall i :: 0 <= i < |processes| && processes[i].Process? ==> processes[i].exitsInTime
    ensures forall i :: 0 <= i < |processes| ==>
              SentTo(events, i) ==
              (if processes[i].Nil? then []
               else (if windows then [SIGKILL] else [SIGTERM]) + if processes[i].exitsInTime then [] else [SIGQUIT])
    ensures WellSent(events, windows, |processes|)
    ensures exists cut :: Recorded(processes, failures, cut)
  {
    hide Events, Failures;
    NothingYet(processes, windows);
    events, failures := [], [];
    for n := 0 to |processes|
      invariant events == Events(processes, windows, n)
      invariant failures == Failures(processes, n)
      invariant failures == [] <==> forall i :: 0 <= i < n ==> !Missed(processes[i])
    {
      NextProcess(processes, windows, n);
      var process := processes[n];
      if process.Nil? {
        continue;
      }
      if windows {
        events := events + [Sent(n, SIGKILL)];
      } else {
        events := events + [Sent(n, SIGTERM)];
      }
      if !process.exitsInTime {
        events := events + [Sent(n, SIGQUIT)];
        if !process.exitsAfterQuit {
          failures := failures + [NoExitAfterQuit];
        }
        failures := failures + [SigquitSent];
      }
    }
    passed := failures == [];
    assert processes[..|processes|] == processes;
    ghost var cut := FailuresAreRecorded(processes, |processes|);
    forall i | 0 <= i < |processes| ensures SentTo(events, i) == SignalsFor(processes[i], windows) {
      EachProcessIsSignalled(processes, windows, |processes|, i);
    }
    EventsWellSent(processes, windows, |processes|);
  }
}
