/**
 The announcement server: concurrent HTTP handlers over one slice behind a readers-writer lock.

 A writer first announces itself, which keeps new readers out, and then waits for the readers
 that are inside.  The append is split into its read and its write, and the encoder reads the
 shared slice again for every element, so nothing but the lock protects the log.
 */
module Announcements {
  import opened LockRegions

  datatype Request = Announce(text: string) | List | Other

  datatype Response = Accepted | Listing(entries: seq<string>) | NotFound

  datatype PC =
    | Start
    | WaitReaders                    // in Lock(), new readers are held back
    | Locked                         // about to read the slice
    | Appended(longer: seq<string>)  // the appended slice is computed but not stored
    | Stored                         // about to unlock
    | Encoding(out: seq<string>)     // holds a read lock
    | Done(response: Response)

  /** The lock and the slice that the handlers share. */
  datatype Shared = Shared(writer: bool, readers: nat, registered: seq<string>)

  /** `order` lists the handlers in the order in which they acquired the lock.  It is a history:
      no step reads it. */
  datatype State = State(shared: Shared, threads: seq<PC>, order: seq<nat>)

  // ---------- the atomic log ----------

  /** One request on an atomic append-only log. */
  function Apply(request: Request, log: seq<string>): (seq<string>, Response) {
    match request
    case Announce(text) => (log + [text], Accepted)
    case List => (log, Listing(log))
    case Other => (log, NotFound)
  }

  function JobOf(jobs: seq<Request>, t: nat): Request { if t < |jobs| then jobs[t] else Other }

  /** The log after the requests of `order`, one at a time. */
  function LogAfter(jobs: seq<Request>, order: seq<nat>): seq<string> {
    if order == [] then []
    else Apply(JobOf(jobs, order[|order| - 1]), LogAfter(jobs, order[..|order| - 1])).0
  }

  // ---------- steps ----------

  function Init(jobs: seq<Request>): State {
    State(Shared(false, 0, []), seq(|jobs|, _ => Start), [])
  }

  /** Lock() lets one writer at a time announce itself, and then waits for the readers inside;
      RLock() waits for an announced writer. */
  predicate Free(job: Request, pc: PC, s: Shared) {
    match pc
    case Start => job.Other? || !s.writer
    case WaitReaders => s.readers == 0
    case Done(_) => false
    case _ => true
  }

  /** One operation of a handler. */
  function Fire(job: Request, pc: PC, s: Shared): (PC, Shared) {
    match pc
    case Start => (
      match job
      case Announce(_) => (WaitReaders, s.(writer := true))
      case List => (Encoding([]), s.(readers := s.readers + 1))
      case Other => (Done(NotFound), s)
    )
    case WaitReaders => (Locked, s)
    case Locked => (Appended(s.registered + [if job.Announce? then job.text else ""]), s)
    case Appended(longer) => (Stored, s.(registered := longer))
    case Stored => (Done(Accepted), s.(writer := false))
    case Encoding(out) =>
      if |out| < |s.registered| then (Encoding(out + [s.registered[|out|]]), s)
      else (Done(Listing(out)), s.(readers := if s.readers == 0 then 0 else s.readers - 1))
    case Done(_) => (pc, s)
  }

  /** Has acquired the lock, whether or not it has released it. */
  predicate Entered(pc: PC) {
    Inside(pc) || pc.Encoding? || (pc.Done? && !pc.response.NotFound?)
  }

  predicate Enabled(jobs: seq<Request>, s: State, t: nat)
    requires |s.threads| == |jobs|
  {
    t < |jobs| && Free(jobs[t], s.threads[t], s.shared)
  }

  /** A handler that is scheduled and cannot run stays where it is. */
  function Step(jobs: seq<Request>, s: State, t: nat): (s': State)
    requires |s.threads| == |jobs|
    ensures |s'.threads| == |jobs|
  {
    if !Enabled(jobs, s, t) then s
    else
      var (pc, shared) := Fire(jobs[t], s.threads[t], s.shared);
      State(shared, s.threads[t := pc],
            if Entered(pc) && !Entered(s.threads[t]) then s.order + [t] else s.order)
  }

  function Exec(jobs: seq<Request>, s: State, run: seq<nat>): (s': State)
    requires |s.threads| == |jobs|
    ensures |s'.threads| == |jobs|
    decreases |run|
  {
    if run == [] then s else Exec(jobs, Step(jobs, s, run[0]), run[1..])
  }

  // ---------- the lock ----------

  predicate Writing(pc: PC) { pc.WaitReaders? || Inside(pc) }

  /** Holds the write lock. */
  predicate Inside(pc: PC) { pc.Locked? || pc.Appended? || pc.Stored? }

  predicate Fits(job: Request, pc: PC) {
    match job
    case Announce(_) => pc.Start? || Writing(pc) || pc == Done(Accepted)
    case List => pc.Start? || pc.Encoding? || (pc.Done? && pc.response.Listing?)
    case Other => pc.Start? || pc == Done(NotFound)
  }

  function Readers(threads: seq<PC>): nat {
    if threads == [] then 0
    else (if threads[0].Encoding? then 1 else 0) + Readers(threads[1..])
  }

  lemma {:induction false} ReadersUpdate(threads: seq<PC>, t: nat, q: PC)
    requires t < |threads|
    ensures Readers(threads[t := q]) ==
            Readers(threads) - (if threads[t].Encoding? then 1 else 0) + (if q.Encoding? then 1 else 0)
  {
    if t == 0 {
      assert threads[t := q][1..] == threads[1..];
    } else {
      assert threads[t := q][1..] == threads[1..][t - 1 := q];
      ReadersUpdate(threads[1..], t - 1, q);
    }
  }

  lemma {:induction false} NoReaders(threads: seq<PC>)
    ensures Readers(threads) == 0 <==> forall t :: 0 <= t < |threads| ==> !threads[t].Encoding?
  {
    if threads != [] {
      NoReaders(threads[1..]);
      forall t | 0 < t < |threads| ensures threads[t] == threads[1..][t - 1] {
      }
    }
  }

  ghost predicate LockInv(jobs: seq<Request>, s: State) {
    && |s.threads| == |jobs|
    && (forall t :: 0 <= t < |jobs| ==> Fits(jobs[t], s.threads[t]))
    && Guards(s.shared.writer, s.threads, Writing)
    && s.shared.readers == Readers(s.threads)
    && (s.shared.readers == 0 || forall t :: 0 <= t < |jobs| ==> !Inside(s.threads[t]))
  }

  /** The lock keeps writers apart from each other and from readers. */
  lemma LockStep(jobs: seq<Request>, s: State, t: nat)
    requires LockInv(jobs, s)
    ensures LockInv(jobs, Step(jobs, s, t))
  {
    if Enabled(jobs, s, t) {
      var (q, shared) := Fire(jobs[t], s.threads[t], s.shared);
      GuardsKept(s.shared.writer, shared.writer, s.threads, t, q, Writing);
      ReadersUpdate(s.threads, t, q);
      NoReaders(s.threads);
    }
  }

  // ---------- the order of acquisition ----------

  ghost predicate OrderInv(jobs: seq<Request>, s: State) {
    && |s.threads| == |jobs|
    && (forall i :: 0 <= i < |s.order| ==> s.order[i] < |jobs| && Entered(s.threads[s.order[i]]))
    && (forall t :: 0 <= t < |jobs| && Entered(s.threads[t]) ==> t in s.order)
    && (forall i, j :: 0 <= i < j < |s.order| ==> s.order[i] != s.order[j])
  }

  lemma OrderStep(jobs: seq<Request>, s: State, t: nat)
    requires LockInv(jobs, s) && OrderInv(jobs, s)
    ensures OrderInv(jobs, Step(jobs, s, t))
    ensures s.order <= Step(jobs, s, t).order
  {
  }

  // ---------- refinement of the atomic log ----------

  /** A handler that holds the write lock and has not stored yet; it is the last to enter. */
  predicate Unstored(pc: PC) { pc.Locked? || pc.Appended? }

  /** What a handler knows whose request found the log `before`, when the slice is `registered`:
      a reader has encoded a part of the log that it found, or all of it. */
  predicate Explained(job: Request, pc: PC, registered: seq<string>, before: seq<string>) {
    match pc
    case Encoding(out) => before == registered && out <= registered
    case Locked => before == registered
    case Appended(longer) => before == registered && longer == Apply(job, before).0
    case Done(response) => response == Apply(job, before).1
    case _ => true
  }

  ghost predicate AllExplained(jobs: seq<Request>, s: State)
    requires OrderInv(jobs, s)
  {
    forall i :: 0 <= i < |s.order| ==>
      Explained(jobs[s.order[i]], s.threads[s.order[i]], s.shared.registered, LogAfter(jobs, s.order[..i]))
  }

  ghost predicate NoAppendUnderWay(s: State) {
    forall t :: 0 <= t < |s.threads| ==> !Unstored(s.threads[t])
  }

  ghost predicate LogInv(jobs: seq<Request>, s: State) {
    && LockInv(jobs, s) && OrderInv(jobs, s) && AllExplained(jobs, s)
    && (forall i :: 0 <= i < |s.order| && Unstored(s.threads[s.order[i]]) ==> i == |s.order| - 1)
    && (NoAppendUnderWay(s) ==> s.shared.registered == LogAfter(jobs, s.order))
  }

  lemma FireExplained(job: Request, pc: PC, s: Shared, before: seq<string>)
    requires Fits(job, pc) && Free(job, pc, s) && Entered(pc) && Explained(job, pc, s.registered, before)
    ensures var (q, s') := Fire(job, pc, s);
            && Explained(job, q, s'.registered, before)
            && (pc.Appended? ==> s'.registered == Apply(job, before).0)
            && (!pc.Appended? ==> s'.registered == s.registered)
  {
  }

  lemma NothingUnstored(jobs: seq<Request>, s: State, t: nat)
    requires LockInv(jobs, s) && Enabled(jobs, s, t) && !Entered(s.threads[t]) && !jobs[t].Other?
    requires !(s.threads[t].Start? && jobs[t].Announce?)
    ensures forall u :: 0 <= u < |jobs| ==> !Inside(s.threads[u])
    ensures NoAppendUnderWay(s)
  {
    forall u | 0 <= u < |jobs| ensures !Inside(s.threads[u]) {
      if Inside(s.threads[u]) {
        assert Writing(s.threads[u]);
      }
    }
  }

  /** A handler that acquires the lock finds the log of all that entered before it. */
  lemma EnterFinds(jobs: seq<Request>, s: State, t: nat)
    requires LogInv(jobs, s) && Enabled(jobs, s, t)
    requires Entered(Fire(jobs[t], s.threads[t], s.shared).0) && !Entered(s.threads[t])
    ensures Fits(jobs[t], s.threads[t])
    ensures NoAppendUnderWay(s) && s.shared.registered == LogAfter(jobs, s.order)
    ensures Step(jobs, s, t).shared.registered == s.shared.registered
  {
    hide LogAfter, AllExplained;
    NothingUnstored(jobs, s, t);
  }

  lemma EnterExplained(jobs: seq<Request>, s: State, t: nat)
    requires LogInv(jobs, s) && Enabled(jobs, s, t)
    requires Entered(Fire(jobs[t], s.threads[t], s.shared).0) && !Entered(s.threads[t])
    requires OrderInv(jobs, Step(jobs, s, t))
    ensures AllExplained(jobs, Step(jobs, s, t))
  {
    hide LogAfter, LockInv, Guards, Readers;
    var s' := Step(jobs, s, t);
    EnterFinds(jobs, s, t);
    assert s'.order[..|s.order|] == s.order;
    forall i | 0 <= i < |s'.order|
      ensures Explained(jobs[s'.order[i]], s'.threads[s'.order[i]], s'.shared.registered, LogAfter(jobs, s'.order[..i]))
    {
      if i < |s.order| {
        assert s'.order[..i] == s.order[..i];
        assert s'.order[i] == s.order[i] && s.order[i] != t;
      }
    }
  }

  lemma EnterStep(jobs: seq<Request>, s: State, t: nat)
    requires LogInv(jobs, s) && Enabled(jobs, s, t)
    requires Entered(Fire(jobs[t], s.threads[t], s.shared).0) && !Entered(s.threads[t])
    ensures LogInv(jobs, Step(jobs, s, t))
  {
    hide AllExplained, LockInv, Guards, Readers;
    var s' := Step(jobs, s, t);
    LockStep(jobs, s, t);
    OrderStep(jobs, s, t);
    EnterExplained(jobs, s, t);
    EnterFinds(jobs, s, t);
    assert s'.order[..|s'.order| - 1] == s.order && s'.order[|s.order|] == t;
    assert !NoAppendUnderWay(s') || s'.threads[t].Encoding?;
  }

  /** The store of an append happens when no other handler is writing or reading. */
  lemma StoreIsAlone(jobs: seq<Request>, s: State, t: nat, u: nat)
    requires LockInv(jobs, s) && t < |jobs| && u < |jobs| && u != t && s.threads[t].Appended?
    ensures !Writing(s.threads[u]) && !s.threads[u].Encoding?
  {
    NoReaders(s.threads);
    assert Writing(s.threads[t]) && Inside(s.threads[t]);
  }

  /** A handler inside moves on: only the store of an append changes the slice. */
  lemma InsideExplained(jobs: seq<Request>, s: State, t: nat)
    requires LogInv(jobs, s) && Enabled(jobs, s, t) && Step(jobs, s, t).order == s.order
    requires OrderInv(jobs, Step(jobs, s, t)) && Fits(jobs[t], s.threads[t])
    ensures AllExplained(jobs, Step(jobs, s, t))
  {
    hide LogAfter, LockInv, Guards, Readers;
    var s', p := Step(jobs, s, t), s.threads[t];
    forall i | 0 <= i < |s.order|
      ensures Explained(jobs[s.order[i]], s'.threads[s.order[i]], s'.shared.registered, LogAfter(jobs, s.order[..i]))
    {
      var u, before := s.order[i], LogAfter(jobs, s.order[..i]);
      assert Explained(jobs[u], s.threads[u], s.shared.registered, before);
      if u == t {
        FireExplained(jobs[t], p, s.shared, before);
      } else if p.Appended? {
        StoreIsAlone(jobs, s, t, u);
      }
    }
  }

  /** When the last append is stored, the slice is the log again. */
  lemma InsideSettled(jobs: seq<Request>, s: State, t: nat)
    requires LogInv(jobs, s) && Enabled(jobs, s, t) && Step(jobs, s, t).order == s.order
    requires NoAppendUnderWay(Step(jobs, s, t)) && Fits(jobs[t], s.threads[t])
    ensures Step(jobs, s, t).shared.registered == LogAfter(jobs, s.order)
  {
    hide LockInv, Guards, Readers;
    var s', p := Step(jobs, s, t), s.threads[t];
    if Unstored(p) {
      assert t in s.order;
      var i :| 0 <= i < |s.order| && s.order[i] == t;
      assert Explained(jobs[s.order[i]], s.threads[s.order[i]], s.shared.registered, LogAfter(jobs, s.order[..i]));
      FireExplained(jobs[t], p, s.shared, LogAfter(jobs, s.order[..i]));
      assert i == |s.order| - 1 && !Unstored(s'.threads[t]);
    } else {
      assert forall u :: 0 <= u < |jobs| && u != t ==> s'.threads[u] == s.threads[u];
      assert NoAppendUnderWay(s);
    }
  }

  lemma InsideStep(jobs: seq<Request>, s: State, t: nat)
    requires LogInv(jobs, s) && Enabled(jobs, s, t) && Step(jobs, s, t).order == s.order
    requires Fits(jobs[t], s.threads[t])
    ensures LogInv(jobs, Step(jobs, s, t))
  {
    hide AllExplained, LockInv, Guards, Readers, LogAfter;
    LockStep(jobs, s, t);
    OrderStep(jobs, s, t);
    InsideExplained(jobs, s, t);
    if NoAppendUnderWay(Step(jobs, s, t)) {
      InsideSettled(jobs, s, t);
    }
  }

  lemma LogStep(jobs: seq<Request>, s: State, t: nat)
    requires LogInv(jobs, s)
    ensures LogInv(jobs, Step(jobs, s, t))
  {
    if Enabled(jobs, s, t) {
      if Entered(Fire(jobs[t], s.threads[t], s.shared).0) && !Entered(s.threads[t]) {
        EnterStep(jobs, s, t);
      } else {
        InsideStep(jobs, s, t);
      }
    }
  }

  lemma {:induction false} LogExec(jobs: seq<Request>, s: State, run: seq<nat>)
    requires LogInv(jobs, s)
    ensures LogInv(jobs, Exec(jobs, s, run)) && s.order <= Exec(jobs, s, run).order
    decreases |run|
  {
    if run != [] {
      LogStep(jobs, s, run[0]);
      OrderStep(jobs, s, run[0]);
      LogExec(jobs, Step(jobs, s, run[0]), run[1..]);
    }
  }

  lemma {:induction false} InitLog(jobs: seq<Request>)
    ensures LogInv(jobs, Init(jobs))
  {
    NoReaders(Init(jobs).threads);
  }

  // ---------- main results ----------

  ghost predicate Reachable(jobs: seq<Request>, s: State) {
    exists run :: s == Exec(jobs, Init(jobs), run)
  }

  lemma ReachableInv(jobs: seq<Request>, s: State)
    requires Reachable(jobs, s)
    ensures LogInv(jobs, s)
  {
    var run :| s == Exec(jobs, Init(jobs), run);
    InitLog(jobs);
    LogExec(jobs, Init(jobs), run);
  }

  /** The response that the atomic log gives to the request at position i of the order. */
  function AtomicResponse(jobs: seq<Request>, order: seq<nat>, i: nat): Response
    requires i < |order|
  {
    Apply(JobOf(jobs, order[i]), LogAfter(jobs, order[..i])).1
  }

  /** Handler t has returned what the atomic log answers at t's place in the order. */
  ghost predicate AnsweredAtomically(jobs: seq<Request>, s: State, t: nat)
    requires t < |s.threads| && s.threads[t].Done?
  {
    exists i :: 0 <= i < |s.order| && s.order[i] == t && s.threads[t].response == AtomicResponse(jobs, s.order, i)
  }

  lemma DoneIsAnswered(jobs: seq<Request>, s: State, t: nat)
    requires LogInv(jobs, s) && t < |jobs| && s.threads[t].Done? && !jobs[t].Other?
    ensures AnsweredAtomically(jobs, s, t)
  {
    hide Guards, Readers, LogAfter;
    assert Entered(s.threads[t]) && t in s.order;
    var i :| 0 <= i < |s.order| && s.order[i] == t;
    assert Explained(jobs[s.order[i]], s.threads[s.order[i]], s.shared.registered, LogAfter(jobs, s.order[..i]));
    assert s.threads[t].response == AtomicResponse(jobs, s.order, i);
  }

  /** Refinement: every handler that has returned got the answer of the atomic log, run in the
      order of lock acquisition; each has one place in that order; and whenever no append is
      under way the slice is the atomic log. */
  lemma RefinesAtomicLog(jobs: seq<Request>, s: State)
    requires Reachable(jobs, s)
    ensures |s.threads| == |jobs|
    ensures forall i, j :: 0 <= i < j < |s.order| ==> s.order[i] != s.order[j]
    ensures forall t :: 0 <= t < |jobs| && s.threads[t].Done? ==>
              if jobs[t].Other? then s.threads[t].response == NotFound else AnsweredAtomically(jobs, s, t)
    ensures forall t :: 0 <= t < |jobs| && s.threads[t].Done? ==>
              match jobs[t]
              case Announce(_) => s.threads[t].response == Accepted
              case List => s.threads[t].response.Listing?
              case Other => s.threads[t].response == NotFound
    ensures NoAppendUnderWay(s) ==> s.shared.registered == LogAfter(jobs, s.order)
  {
    hide AnsweredAtomically, AllExplained;
    ReachableInv(jobs, s);
    forall t | 0 <= t < |jobs| && s.threads[t].Done?
      ensures if jobs[t].Other? then s.threads[t].response == NotFound else AnsweredAtomically(jobs, s, t)
    {
      if !jobs[t].Other? {
        DoneIsAnswered(jobs, s, t);
      }
    }
  }

  /** Real time: a handler that returned before another one arrived comes first in the order. */
  lemma RealTimeOrder(jobs: seq<Request>, run: seq<nat>, later: seq<nat>, t: nat, u: nat)
    requires t < |jobs| && u < |jobs| && !jobs[t].Other?
    requires var s := Exec(jobs, Init(jobs), run); s.threads[t].Done? && s.threads[u].Start?
    ensures var s' := Exec(jobs, Init(jobs), run + later);
            exists i :: 0 <= i < |s'.order| && s'.order[i] == t
                        && forall j :: 0 <= j < |s'.order| && s'.order[j] == u ==> i < j
  {
    hide AllExplained, LogAfter, Guards, Readers;
    var s := Exec(jobs, Init(jobs), run);
    InitLog(jobs);
    LogExec(jobs, Init(jobs), run);
    ExecConcat(jobs, Init(jobs), run, later);
    LogExec(jobs, s, later);
    var i :| 0 <= i < |s.order| && s.order[i] == t;
    var s' := Exec(jobs, Init(jobs), run + later);
    assert s'.order[i] == t;
    assert u !in s.order;
    assert forall j :: 0 <= j < |s.order| ==> s'.order[j] == s.order[j];
  }

  lemma {:induction false} ExecConcat(jobs: seq<Request>, s: State, a: seq<nat>, b: seq<nat>)
    requires |s.threads| == |jobs|
    ensures Exec(jobs, s, a + b) == Exec(jobs, Exec(jobs, s, a), b)
    decreases |a|
  {
    if a == [] {
      assert a + b == b;
    } else {
      assert (a + b)[0] == a[0] && (a + b)[1..] == a[1..] + b;
      ExecConcat(jobs, Step(jobs, s, a[0]), a[1..], b);
    }
  }

  // ---------- what the tests rely on ----------

  lemma {:induction false} LogGrows(jobs: seq<Request>, order: seq<nat>, i: nat)
    requires i <= |order|
    ensures LogAfter(jobs, order[..i]) <= LogAfter(jobs, order)
    decreases |order|
  {
    if i == |order| {
      assert order[..i] == order;
    } else {
      var n := |order| - 1;
      assert order[..n][..i] == order[..i];
      LogGrows(jobs, order[..n], i);
    }
  }

  /** Any two listings returned in one run are prefixes of one another. */
  lemma ListingsArePrefixOrdered(jobs: seq<Request>, s: State, t: nat, u: nat)
    requires Reachable(jobs, s) && t < |jobs| && u < |jobs|
    requires |s.threads| == |jobs| && jobs[t].List? && jobs[u].List?
    requires s.threads[t].Done? && s.threads[u].Done?
    ensures s.threads[t].response.Listing? && s.threads[u].response.Listing?
    ensures var a, b := s.threads[t].response.entries, s.threads[u].response.entries; a <= b || b <= a
  {
    RefinesAtomicLog(jobs, s);
    assert AnsweredAtomically(jobs, s, t) && AnsweredAtomically(jobs, s, u);
    var i :| 0 <= i < |s.order| && s.order[i] == t && s.threads[t].response == AtomicResponse(jobs, s.order, i);
    var j :| 0 <= j < |s.order| && s.order[j] == u && s.threads[u].response == AtomicResponse(jobs, s.order, j);
    if i <= j {
      assert s.order[..j][..i] == s.order[..i];
      LogGrows(jobs, s.order[..j], i);
    } else {
      assert s.order[..i][..j] == s.order[..j];
      LogGrows(jobs, s.order[..i], j);
    }
  }

  lemma EntryInLog(jobs: seq<Request>, order: seq<nat>, i: nat, j: nat)
    requires i < j <= |order| && order[i] < |jobs| && jobs[order[i]].Announce?
    ensures jobs[order[i]].text in LogAfter(jobs, order[..j])
  {
    var log := LogAfter(jobs, order[..i + 1]);
    assert log[|log| - 1] == jobs[order[i]].text;
    assert order[..j][..i + 1] == order[..i + 1];
    LogGrows(jobs, order[..j], i + 1);
  }

  /** A listing that was asked for after an announcement was accepted contains it. */
  lemma AcceptedIsListed(jobs: seq<Request>, run: seq<nat>, later: seq<nat>, t: nat, u: nat)
    requires t < |jobs| && u < |jobs| && jobs[t].Announce? && jobs[u].List?
    requires var s := Exec(jobs, Init(jobs), run); s.threads[t].Done? && s.threads[u].Start?
    requires Exec(jobs, Init(jobs), run + later).threads[u].Done?
    ensures var r := Exec(jobs, Init(jobs), run + later).threads[u].response;
            r.Listing? && jobs[t].text in r.entries
  {
    hide Exec, LogAfter, Step;
    var s := Exec(jobs, Init(jobs), run + later);
    RealTimeOrder(jobs, run, later, t, u);
    assert Reachable(jobs, s);
    RefinesAtomicLog(jobs, s);
    assert AnsweredAtomically(jobs, s, u);
    var j :| 0 <= j < |s.order| && s.order[j] == u && s.threads[u].response == AtomicResponse(jobs, s.order, j);
    var i :| 0 <= i < |s.order| && s.order[i] == t && i < j;
    EntryInLog(jobs, s.order, i, j);
  }

  // ---------- nothing lost, nothing twice ----------

  /** The announcements of all requests. */
  function Announced(jobs: seq<Request>): multiset<string> {
    if jobs == [] then multiset{}
    else Announced(jobs[..|jobs| - 1]) + EntryOf(jobs[|jobs| - 1])
  }

  function EntryOf(job: Request): multiset<string> {
    if job.Announce? then multiset{job.text} else multiset{}
  }

  lemma {:induction false} LogConcat(jobs: seq<Request>, a: seq<nat>, b: seq<nat>)
    ensures multiset(LogAfter(jobs, a + b)) == multiset(LogAfter(jobs, a)) + multiset(LogAfter(jobs, b))
    decreases |b|
  {
    if b == [] {
      assert a + b == a;
    } else {
      var n := |b| - 1;
      assert (a + b)[..|a + b| - 1] == a + b[..n];
      LogConcat(jobs, a, b[..n]);
    }
  }

  /** An order without repetitions, of handlers below n, among them all that announce. */
  ghost predicate Covers(jobs: seq<Request>, order: seq<nat>, n: nat) {
    && n <= |jobs|
    && (forall i :: 0 <= i < |order| ==> order[i] < n)
    && (forall i, j :: 0 <= i < j < |order| ==> order[i] != order[j])
    && (forall t :: 0 <= t < n && jobs[t].Announce? ==> t in order)
  }

  lemma FirstIsBelow(order: seq<nat>, n: nat)
    requires order != [] && forall i :: 0 <= i < |order| ==> order[i] < n
    ensures 0 < n
  {
    assert order[0] < n;
  }

  lemma {:induction false} OrderKeepsAnnouncements(jobs: seq<Request>, order: seq<nat>, n: nat)
    requires Covers(jobs, order, n)
    ensures multiset(LogAfter(jobs, order)) == Announced(jobs[..n])
    decreases n
  {
    if n == 0 {
      if order != [] {
        FirstIsBelow(order, n);
      }
    } else {
      hide LogAfter;
      assert jobs[..n][..n - 1] == jobs[..n - 1] && jobs[..n][n - 1] == jobs[n - 1];
      if n - 1 in order {
        var k :| 0 <= k < |order| && order[k] == n - 1;
        TakeOut(jobs, order, k);
        CoversRest(jobs, order, n, k);
        OrderKeepsAnnouncements(jobs, order[..k] + order[k + 1..], n - 1);
      } else {
        OrderKeepsAnnouncements(jobs, order, n - 1);
      }
    }
  }

  lemma SingleEntry(jobs: seq<Request>, t: nat)
    requires t < |jobs|
    ensures multiset(LogAfter(jobs, [t])) == EntryOf(jobs[t])
  {
    assert [t][..0] == [];
    assert LogAfter(jobs, []) == [];
    if jobs[t].Announce? {
      assert LogAfter(jobs, [t]) == [jobs[t].text];
    }
  }

  /** Without the request at position k, the log lacks just its announcement. */
  lemma TakeOut(jobs: seq<Request>, order: seq<nat>, k: nat)
    requires k < |order| && order[k] < |jobs|
    ensures multiset(LogAfter(jobs, order)) ==
            multiset(LogAfter(jobs, order[..k] + order[k + 1..])) + EntryOf(jobs[order[k]])
  {
    hide LogAfter;
    var a, b := order[..k], order[k + 1..];
    assert order == (a + [order[k]]) + b;
    LogConcat(jobs, a + [order[k]], b);
    LogConcat(jobs, a, [order[k]]);
    LogConcat(jobs, a, b);
    SingleEntry(jobs, order[k]);
  }

  lemma CoversRest(jobs: seq<Request>, order: seq<nat>, n: nat, k: nat)
    requires 0 < n && Covers(jobs, order, n) && k < |order| && order[k] == n - 1
    ensures Covers(jobs, order[..k] + order[k + 1..], n - 1)
  {
    var rest := order[..k] + order[k + 1..];
    forall t | 0 <= t < n - 1 && jobs[t].Announce? ensures t in rest {
      var i :| 0 <= i < |order| && order[i] == t;
      assert rest[if i < k then i else i - 1] == t;
    }
  }

  lemma OrderCovers(jobs: seq<Request>, s: State)
    requires LockInv(jobs, s) && OrderInv(jobs, s)
    requires forall t :: 0 <= t < |s.threads| ==> s.threads[t].Done?
    ensures Covers(jobs, s.order, |jobs|) && NoAppendUnderWay(s)
  {
    hide Guards, Readers;
    forall t | 0 <= t < |jobs| && jobs[t].Announce? ensures t in s.order {
      assert Fits(jobs[t], s.threads[t]) && Entered(s.threads[t]);
    }
  }

  /** The handlers that announce x. */
  function Announcers(jobs: seq<Request>, x: string): set<nat> {
    set t: nat | t < |jobs| && jobs[t] == Announce(x)
  }

  lemma {:induction false} AnnouncedCounts(jobs: seq<Request>, x: string)
    ensures Announced(jobs)[x] == |Announcers(jobs, x)|
    decreases |jobs|
  {
    if jobs == [] {
      assert Announcers(jobs, x) == {};
    } else {
      var n := |jobs| - 1;
      AnnouncedCounts(jobs[..n], x);
      OneMoreAnnouncer(jobs, x);
      hide Announcers;
    }
  }

  lemma OneMoreAnnouncer(jobs: seq<Request>, x: string)
    requires jobs != []
    ensures var n := |jobs| - 1;
            |Announcers(jobs, x)| == |Announcers(jobs[..n], x)| + if jobs[n] == Announce(x) then 1 else 0
  {
    var n := |jobs| - 1;
    var before := Announcers(jobs[..n], x);
    if jobs[n] == Announce(x) {
      assert Announcers(jobs, x) == before + {n};
    } else {
      assert Announcers(jobs, x) == before;
    }
  }

  /** Conservation: when every handler has returned, the log is exactly the announcements made,
      each as often as it was made. */
  lemma NothingLostOrDuplicated(jobs: seq<Request>, s: State)
    requires Reachable(jobs, s)
    requires forall t :: 0 <= t < |s.threads| ==> s.threads[t].Done?
    ensures multiset(s.shared.registered) == Announced(jobs)
    ensures forall x :: multiset(s.shared.registered)[x] == |Announcers(jobs, x)|
  {
    hide LockInv, OrderInv, AllExplained, LogAfter, Covers, NoAppendUnderWay, Announced, Announcers, Reachable;
    ReachableInv(jobs, s);
    OrderCovers(jobs, s);
    OrderKeepsAnnouncements(jobs, s.order, |jobs|);
    assert jobs[..|jobs|] == jobs;
    forall x ensures Announced(jobs)[x] == |Announcers(jobs, x)| {
      AnnouncedCounts(jobs, x);
    }
  }

  // ---------- progress ----------

  /** The number of operations handler t has left at most, when the log can grow to n entries. */
  function Rank(pc: PC, n: nat): int {
    match pc
    case Start => n + 7
    case WaitReaders => 4
    case Locked => 3
    case Appended(_) => 2
    case Stored => 1
    case Encoding(out) => n - |out| + 1
    case Done(_) => 0
  }

  /** No deadlock: while some handler has not returned, some handler can run. */
  lemma Progress(jobs: seq<Request>, s: State) returns (t: nat)
    requires LockInv(jobs, s) && exists u :: 0 <= u < |jobs| && !s.threads[u].Done?
    ensures Enabled(jobs, s, t)
  {
    NoReaders(s.threads);
    if u :| 0 <= u < |jobs| && s.threads[u].Encoding? {
      t := u;
    } else if u :| 0 <= u < |jobs| && Writing(s.threads[u]) {
      t := u;
    } else {
      t :| 0 <= t < |jobs| && !s.threads[t].Done?;
    }
  }

  lemma {:induction false} LogLength(jobs: seq<Request>, order: seq<nat>)
    ensures |LogAfter(jobs, order)| <= |order|
    decreases |order|
  {
    if order != [] {
      LogLength(jobs, order[..|order| - 1]);
    }
  }

  /** A sequence of distinct numbers below n is no longer than n. */
  lemma {:induction false} DistinctBelow(order: seq<nat>, n: nat)
    requires forall i :: 0 <= i < |order| ==> order[i] < n
    requires forall i, j :: 0 <= i < j < |order| ==> order[i] != order[j]
    ensures |order| <= n
    decreases n
  {
    if n > 0 {
      if k :| 0 <= k < |order| && order[k] == n - 1 {
        DistinctBelow(order[..k] + order[k + 1..], n - 1);
      } else {
        DistinctBelow(order, n - 1);
      }
    } else if order != [] {
      FirstIsBelow(order, n);
    }
  }

  /** The slice never holds more than one entry per handler. */
  lemma LogBounded(jobs: seq<Request>, s: State)
    requires LogInv(jobs, s)
    ensures |s.shared.registered| <= |jobs|
  {
    hide LockInv, LogAfter;
    DistinctBelow(s.order, |jobs|);
    if NoAppendUnderWay(s) {
      LogLength(jobs, s.order);
    } else {
      var t :| 0 <= t < |jobs| && Unstored(s.threads[t]);
      var i :| 0 <= i < |s.order| && s.order[i] == t;
      assert Explained(jobs[s.order[i]], s.threads[s.order[i]], s.shared.registered, LogAfter(jobs, s.order[..i]));
      LogLength(jobs, s.order[..i]);
    }
  }

  lemma EncodedIsBounded(jobs: seq<Request>, s: State, t: nat)
    requires LogInv(jobs, s) && t < |jobs| && s.threads[t].Encoding?
    ensures |s.threads[t].out| <= |s.shared.registered|
  {
    hide LockInv, LogAfter;
    var i :| 0 <= i < |s.order| && s.order[i] == t;
    assert Explained(jobs[s.order[i]], s.threads[s.order[i]], s.shared.registered, LogAfter(jobs, s.order[..i]));
  }

  lemma RankFire(job: Request, pc: PC, s: Shared, n: nat)
    requires Free(job, pc, s) && |s.registered| <= n && (pc.Encoding? ==> |pc.out| <= |s.registered|)
    ensures 0 <= Rank(Fire(job, pc, s).0, n) < Rank(pc, n)
  {
  }

  lemma RankDrops(jobs: seq<Request>, s: State, t: nat)
    requires LogInv(jobs, s) && Enabled(jobs, s, t)
    ensures var q := Fire(jobs[t], s.threads[t], s.shared).0;
            0 <= Rank(q, |jobs|) < Rank(s.threads[t], |jobs|)
  {
    hide LogAfter, LockInv, AllExplained, OrderInv;
    LogShape(jobs, s);
    LogBounded(jobs, s);
    if s.threads[t].Encoding? {
      EncodedIsBounded(jobs, s, t);
    }
    RankFire(jobs[t], s.threads[t], s.shared, |jobs|);
  }

  function Measure(threads: seq<PC>, n: nat): int {
    if threads == [] then 0 else Rank(threads[0], n) + Measure(threads[1..], n)
  }

  lemma {:induction false} MeasureUpdate(threads: seq<PC>, t: nat, q: PC, n: nat)
    requires t < |threads|
    ensures Measure(threads[t := q], n) == Measure(threads, n) - Rank(threads[t], n) + Rank(q, n)
  {
    if t == 0 {
      assert threads[t := q][1..] == threads[1..];
    } else {
      assert threads[t := q][1..] == threads[1..][t - 1 := q];
      MeasureUpdate(threads[1..], t - 1, q, n);
    }
  }

  lemma {:induction false} MeasureBounds(threads: seq<PC>, n: nat)
    requires forall t :: 0 <= t < |threads| ==> 0 <= Rank(threads[t], n) <= n + 7
    ensures 0 <= Measure(threads, n) <= |threads| * (n + 7)
  {
    if threads != [] {
      MeasureBounds(threads[1..], n);
      var m := |threads| - 1;
      assert |threads| * (n + 7) == m * (n + 7) + (n + 7);
    }
  }

  /** The number of times that a run schedules a handler that can run. */
  function Work(jobs: seq<Request>, s: State, run: seq<nat>): nat
    requires |s.threads| == |jobs|
    decreases |run|
  {
    if run == [] then 0
    else (if Enabled(jobs, s, run[0]) then 1 else 0) + Work(jobs, Step(jobs, s, run[0]), run[1..])
  }

  lemma {:induction false} WorkIsPaidFor(jobs: seq<Request>, s: State, run: seq<nat>)
    requires LogInv(jobs, s)
    ensures Work(jobs, s, run) <= Measure(s.threads, |jobs|)
    decreases |run|
  {
    if run == [] {
      RanksInRange(jobs, s);
      MeasureBounds(s.threads, |jobs|);
    } else {
      LogStep(jobs, s, run[0]);
      WorkIsPaidFor(jobs, Step(jobs, s, run[0]), run[1..]);
      if Enabled(jobs, s, run[0]) {
        RankDrops(jobs, s, run[0]);
        MeasureUpdate(s.threads, run[0], Fire(jobs[run[0]], s.threads[run[0]], s.shared).0, |jobs|);
      }
    }
  }

  lemma RanksInRange(jobs: seq<Request>, s: State)
    requires LogInv(jobs, s)
    ensures forall t :: 0 <= t < |jobs| ==> 0 <= Rank(s.threads[t], |jobs|) <= |jobs| + 7
  {
    hide AllExplained, LockInv, OrderInv;
    LogBounded(jobs, s);
    LogShape(jobs, s);
    forall t | 0 <= t < |jobs| ensures 0 <= Rank(s.threads[t], |jobs|) <= |jobs| + 7 {
      if s.threads[t].Encoding? {
        EncodedIsBounded(jobs, s, t);
      }
    }
  }

  lemma LogShape(jobs: seq<Request>, s: State)
    requires LockInv(jobs, s)
    ensures |s.threads| == |jobs|
  {
  }

  /** Termination: whatever the schedule, n handlers do at most n * (n + 7) operations, and by
      `Progress` some handler can run as long as not all have returned. */
  lemma WorkIsBounded(jobs: seq<Request>, run: seq<nat>)
    ensures Work(jobs, Init(jobs), run) <= |jobs| * (|jobs| + 7)
  {
    InitLog(jobs);
    RanksInRange(jobs, Init(jobs));
    MeasureBounds(Init(jobs).threads, |jobs|);
    WorkIsPaidFor(jobs, Init(jobs), run);
  }

  // ---------- the handler in its own form ----------

  /** The server of Start, called by one handler at a time. */
  class Server {
    var writer: bool
    var readers: nat
    var registered: seq<string>

    constructor ()
      ensures registered == [] && !writer && readers == 0
    {
      writer, readers, registered := false, 0, [];
    }

    /** Alone, a handler does one request of the atomic log and leaves the lock free. */
    method Handle(request: Request) returns (response: Response)
      requires !writer && readers == 0
      modifies this
      ensures (registered, response) == Apply(request, old(registered))
      ensures request.Announce? ==> registered == old(registered) + [request.text] && response == Accepted
      ensures request.List? ==> registered == old(registered) && response == Listing(old(registered))
      ensures request.Other? ==> registered == old(registered) && response == NotFound
      ensures !writer && readers == 0
    {
      match request
      case Announce(text) =>
        writer := true;
        registered := registered + [text];
        writer := false;
        response := Accepted;
      case List =>
        readers := readers + 1;
        var out := [];
        while |out| < |registered|
          invariant out <= registered == old(registered)
          invariant !writer && readers == 1
        {
          out := out + [registered[|out|]];
        }
        assert out == registered;
        readers := readers - 1;
        response := Listing(out);
      case Other =>
        response := NotFound;
    }
  }
}
