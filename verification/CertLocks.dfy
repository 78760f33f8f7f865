/**
 The locking discipline of the certificate helper: exclusion, release on every exit,
 progress, and termination of every fair run.
 */
module CertLocks {
  import opened CertProtocol
  import opened DepotPaths
  import opened LockRegions

  /** Between caLock.Lock() and the caLock.Unlock() of the same path. */
  predicate InCa(pc: PC) {
    pc.CaSelfSign? || pc.CaNewCrtKey? || pc.CaCsr? || pc.CaSign? || pc.CaUnlock?
    || pc.GenSign? || pc.GenCaUnlock? || pc.FailCaUnlock?
  }

  /** Between csrLock.Lock() and the csrLock.Unlock() of the same path. */
  predicate InCsr(pc: PC) {
    pc.GenCsr? || pc.GenCsrUnlock? || pc.FailCsrUnlock?
  }

  ghost predicate LockInv(jobs: seq<Job>, s: State) {
    && AllFit(jobs, s)
    && Guards(s.shared.caLock, s.threads, InCa)
    && Guards(s.shared.csrLock, s.threads, InCsr)
  }

  /** What one operation may do: stay in the procedure, come closer to its end, and take or
      release a lock only in order. */
  ghost predicate Moves(job: Job, p: PC, s: Shared, q: PC, s': Shared) {
    && Fits(job, q)
    && Rank(q) < Rank(p)
    && LockMove(s.caLock, s'.caLock, InCa(p), InCa(q))
    && LockMove(s.csrLock, s'.csrLock, InCsr(p), InCsr(q))
  }

  lemma CAMoves(job: Job, p: PC, s: Shared, a: Action)
    requires job.CreateCA? && Fits(job, p) && !Finished(p) && (p.CaLock? ==> !s.caLock)
    ensures var (q, s') := FireCA(job, p, s, a); Moves(job, p, s, q, s')
  {
    if InCa(p) {
      CAMovesInside(job, p, s, a);
    } else {
      CAMovesOutside(job, p, s, a);
    }
  }

  lemma CAMovesInside(job: Job, p: PC, s: Shared, a: Action)
    requires job.CreateCA? && Fits(job, p) && InCa(p)
    ensures var (q, s') := FireCA(job, p, s, a); Moves(job, p, s, q, s')
  {
  }

  lemma CAMovesOutside(job: Job, p: PC, s: Shared, a: Action)
    requires job.CreateCA? && Fits(job, p) && !Finished(p) && !InCa(p) && (p.CaLock? ==> !s.caLock)
    ensures var (q, s') := FireCA(job, p, s, a); Moves(job, p, s, q, s')
  {
    hide KeyPath, CrtPath;
  }

  lemma RequestMoves(job: Job, owner: PC, p: PC, s: Shared, a: Action)
    requires job.Generate? && Requesting(p) && (p.GenCsrLock? ==> !s.csrLock)
    ensures var (q, s') := FireRequest(job, owner, p, s, a); Moves(job, p, s, q, s')
  {
  }

  lemma SignMoves(job: Job, owner: PC, p: PC, s: Shared, a: Action)
    requires job.Generate? && Fits(job, p) && !Finished(p) && !Requesting(p) && !Storing(p)
    requires p.GenCaLock? ==> !s.caLock
    ensures var (q, s') := FireSign(job, owner, p, s, a); Moves(job, p, s, q, s')
  {
  }

  lemma StoreMoves(job: Job, depot: string, p: PC, s: Shared, a: Action)
    requires job.Generate? && Storing(p)
    ensures var (q, s') := FireStore(job, depot, p, s, a); Moves(job, p, s, q, s')
  {
    hide TempPath;
  }

  lemma GenerateMoves(job: Job, depot: string, owner: PC, p: PC, s: Shared, a: Action)
    requires job.Generate? && Fits(job, p) && !Finished(p)
    requires (p.GenCsrLock? ==> !s.csrLock) && (p.GenCaLock? ==> !s.caLock)
    ensures var (q, s') := FireGenerate(job, depot, owner, p, s, a); Moves(job, p, s, q, s')
  {
    if Storing(p) {
      StoreMoves(job, depot, p, s, a);
    } else if Requesting(p) {
      RequestMoves(job, owner, p, s, a);
    } else {
      SignMoves(job, owner, p, s, a);
    }
  }

  lemma StepMoves(jobs: seq<Job>, s: State, a: Action)
    requires WellFormed(jobs) && AllFit(jobs, s) && Enabled(jobs, s, a.tid)
    ensures var (q, shared) := Fire(jobs, s, a); Moves(jobs[a.tid], s.threads[a.tid], s.shared, q, shared)
  {
    var job, p := jobs[a.tid], s.threads[a.tid];
    if job.CreateCA? {
      CAMoves(job, p, s.shared, a);
    } else {
      GenerateMoves(job, jobs[job.owner].depot, s.threads[job.owner], p, s.shared, a);
    }
  }

  lemma LocksStep(jobs: seq<Job>, s: State, a: Action)
    requires WellFormed(jobs) && LockInv(jobs, s)
    ensures LockInv(jobs, Step(jobs, s, a))
  {
    if Enabled(jobs, s, a.tid) {
      var s' := Step(jobs, s, a);
      StepMoves(jobs, s, a);
      GuardsKept(s.shared.caLock, s'.shared.caLock, s.threads, a.tid, s'.threads[a.tid], InCa);
      GuardsKept(s.shared.csrLock, s'.shared.csrLock, s.threads, a.tid, s'.threads[a.tid], InCsr);
    }
  }

  lemma {:induction false} LocksExec(jobs: seq<Job>, s: State, run: seq<Action>)
    requires WellFormed(jobs) && LockInv(jobs, s)
    ensures LockInv(jobs, Exec(jobs, s, run))
    decreases |run|
  {
    if run != [] {
      LocksStep(jobs, s, run[0]);
      LocksExec(jobs, Step(jobs, s, run[0]), run[1..]);
    }
  }

  lemma InitLocks(jobs: seq<Job>, disk: map<Path, Contents>)
    requires WellFormed(jobs)
    ensures LockInv(jobs, Init(jobs, disk))
  {
  }

  /** Mutual exclusion: in every reachable state each lock is held exactly when a thread is in
      its region, at most one thread is, and no thread holds both. */
  lemma MutualExclusion(jobs: seq<Job>, s: State)
    requires WellFormed(jobs) && Reachable(jobs, s)
    ensures AllFit(jobs, s)
    ensures Guards(s.shared.caLock, s.threads, InCa) && Guards(s.shared.csrLock, s.threads, InCsr)
    ensures forall t :: 0 <= t < |jobs| ==> !(InCa(s.threads[t]) && InCsr(s.threads[t]))
  {
    var disk, run :| s == Exec(jobs, Init(jobs, disk), run);
    InitLocks(jobs, disk);
    LocksExec(jobs, Init(jobs, disk), run);
  }

  // ---------- progress and termination ----------

  /** The number of operations a thread has left at most. */
  function Rank(pc: PC): nat {
    match pc
    case CaNewKey => 11
    case CaLock(_) => 10
    case CaSelfSign(_) => 9
    case CaNewCrtKey(_, _) => 8
    case CaCsr(_, _, _) => 7
    case CaSign(_, _, _, _) => 6
    case CaUnlock(_, _) => 5
    case CaExportCrt(_, _) => 4
    case CaExportKey(_, _) => 3
    case CaWriteKey(_, _) => 2
    case CaWriteCrt(_, _) => 1
    case GenWait => 18
    case GenNewKey => 17
    case GenExportKey(_) => 16
    case GenCsrLock(_) => 15
    case GenCsr(_) => 14
    case GenCsrUnlock(_, _) => 13
    case GenReadCrt(_, _) => 12
    case GenParseCrt(_, _, _) => 11
    case GenReadKey(_, _, _) => 10
    case GenParseKey(_, _, _, _) => 9
    case GenCaLock(_, _, _, _) => 8
    case GenSign(_, _, _, _) => 7
    case GenCaUnlock(_, _) => 6
    case GenExportCrt(_, _) => 5
    case GenTempKey(_, _) => 4
    case GenWriteKey(_, _, _) => 3
    case GenTempCrt(_, _, _) => 2
    case GenWriteCrt(_, _, _, _) => 1
    case FailCaUnlock => 1
    case FailCsrUnlock => 1
    case Failed => 0
    case Done(_, _) => 0
  }

  function Measure(threads: seq<PC>): nat {
    if threads == [] then 0 else Rank(threads[0]) + Measure(threads[1..])
  }

  lemma {:induction false} MeasureUpdate(threads: seq<PC>, t: nat, q: PC)
    requires t < |threads|
    ensures Measure(threads[t := q]) == Measure(threads) - Rank(threads[t]) + Rank(q)
  {
    if t == 0 {
      assert threads[t := q][1..] == threads[1..];
    } else {
      assert threads[t := q][1..] == threads[1..][t - 1 := q];
      MeasureUpdate(threads[1..], t - 1, q);
    }
  }

  lemma {:induction false} MeasureBound(threads: seq<PC>)
    ensures Measure(threads) <= 18 * |threads|
  {
    if threads != [] {
      MeasureBound(threads[1..]);
    }
  }

  ghost predicate AllFinished(s: State) {
    forall t :: 0 <= t < |s.threads| ==> Finished(s.threads[t])
  }

  /** The global measure drops by at least one whenever a thread that can run is scheduled. */
  lemma StepDecreases(jobs: seq<Job>, s: State, a: Action)
    requires WellFormed(jobs) && LockInv(jobs, s) && Enabled(jobs, s, a.tid)
    ensures Measure(Step(jobs, s, a).threads) < Measure(s.threads)
  {
    StepMoves(jobs, s, a);
    MeasureUpdate(s.threads, a.tid, Step(jobs, s, a).threads[a.tid]);
  }

  /** No deadlock: while a thread has not returned, some thread can run. */
  lemma Progress(jobs: seq<Job>, s: State) returns (t: nat)
    requires WellFormed(jobs) && LockInv(jobs, s) && !AllFinished(s)
    ensures Enabled(jobs, s, t)
  {
    if s.shared.caLock {
      t :| 0 <= t < |s.threads| && InCa(s.threads[t]);
    } else if s.shared.csrLock {
      t :| 0 <= t < |s.threads| && InCsr(s.threads[t]);
    } else {
      t :| 0 <= t < |s.threads| && !Finished(s.threads[t]);
      if !Enabled(jobs, s, t) {
        t := jobs[t].owner;
      }
    }
  }

  /** Once every call has returned, both locks are free again. */
  lemma FinishedIsUnlocked(jobs: seq<Job>, s: State)
    requires LockInv(jobs, s) && AllFinished(s)
    ensures !s.shared.caLock && !s.shared.csrLock
  {
  }

  ghost predicate Schedules(run: seq<Action>, t: nat) {
    exists i :: 0 <= i < |run| && run[i].tid == t
  }

  /** A round schedules every thread at least once, in any order and any number of times. */
  ghost predicate Round(n: nat, run: seq<Action>) {
    forall t :: 0 <= t < n ==> Schedules(run, t)
  }

  function ExecRounds(jobs: seq<Job>, s: State, rounds: seq<seq<Action>>): (s': State)
    requires WellFormed(jobs) && |s.threads| == |jobs|
    ensures |s'.threads| == |jobs|
    decreases |rounds|
  {
    if rounds == [] then s else ExecRounds(jobs, Exec(jobs, s, rounds[0]), rounds[1..])
  }

  lemma {:induction false} ExecNeverIncreases(jobs: seq<Job>, s: State, run: seq<Action>)
    requires WellFormed(jobs) && LockInv(jobs, s)
    ensures Measure(Exec(jobs, s, run).threads) <= Measure(s.threads)
    decreases |run|
  {
    if run != [] {
      if Enabled(jobs, s, run[0].tid) {
        StepDecreases(jobs, s, run[0]);
      }
      LocksStep(jobs, s, run[0]);
      ExecNeverIncreases(jobs, Step(jobs, s, run[0]), run[1..]);
    }
  }

  /** A run that schedules, at any point, a thread that could run at the start does some work:
      either it is still able to run when its turn comes, or another thread ran before it. */
  lemma {:induction false} ExecWorks(jobs: seq<Job>, s: State, run: seq<Action>, t: nat)
    requires WellFormed(jobs) && LockInv(jobs, s) && Enabled(jobs, s, t)
    requires Schedules(run, t)
    ensures Measure(Exec(jobs, s, run).threads) < Measure(s.threads)
    decreases |run|
  {
    LocksStep(jobs, s, run[0]);
    if Enabled(jobs, s, run[0].tid) {
      StepDecreases(jobs, s, run[0]);
      ExecNeverIncreases(jobs, Step(jobs, s, run[0]), run[1..]);
    } else {
      var i :| 0 <= i < |run| && run[i].tid == t;
      assert run[1..][i - 1].tid == t;
      ExecWorks(jobs, s, run[1..], t);
    }
  }

  lemma FinishedStays(jobs: seq<Job>, s: State, run: seq<Action>)
    requires WellFormed(jobs) && |s.threads| == |jobs| && AllFinished(s)
    ensures Exec(jobs, s, run) == s
    decreases |run|
  {
    if run != [] {
      assert !Enabled(jobs, s, run[0].tid);
      FinishedStays(jobs, s, run[1..]);
    }
  }

  lemma {:induction false} RoundsFinish(jobs: seq<Job>, s: State, rounds: seq<seq<Action>>)
    requires WellFormed(jobs) && LockInv(jobs, s)
    requires forall i :: 0 <= i < |rounds| ==> Round(|jobs|, rounds[i])
    requires |rounds| >= Measure(s.threads)
    ensures LockInv(jobs, ExecRounds(jobs, s, rounds)) && AllFinished(ExecRounds(jobs, s, rounds))
    decreases |rounds|
  {
    if rounds == [] {
      if !AllFinished(s) {
        var t := Progress(jobs, s);
        StepDecreases(jobs, s, Action(t, true, 0));
      }
    } else {
      var s' := Exec(jobs, s, rounds[0]);
      LocksExec(jobs, s, rounds[0]);
      if AllFinished(s) {
        FinishedStays(jobs, s, rounds[0]);
        MeasureZero(s.threads);
      } else {
        var t := Progress(jobs, s);
        assert Round(|jobs|, rounds[0]);
        ExecWorks(jobs, s, rounds[0], t);
      }
      RoundsFinish(jobs, s', rounds[1..]);
    }
  }

  lemma {:induction false} MeasureZero(threads: seq<PC>)
    requires forall t :: 0 <= t < |threads| ==> Finished(threads[t])
    ensures Measure(threads) == 0
  {
    if threads != [] {
      MeasureZero(threads[1..]);
    }
  }

  /** Termination: 18 rounds per thread are enough for every call to return, whatever the order
      within the rounds and whichever library calls fail, and then both locks are free. */
  lemma FairRunsTerminate(jobs: seq<Job>, disk: map<Path, Contents>, rounds: seq<seq<Action>>)
    requires WellFormed(jobs)
    requires forall i :: 0 <= i < |rounds| ==> Round(|jobs|, rounds[i])
    requires |rounds| >= 18 * |jobs|
    ensures var s := ExecRounds(jobs, Init(jobs, disk), rounds);
            AllFinished(s) && !s.shared.caLock && !s.shared.csrLock
  {
    InitLocks(jobs, disk);
    MeasureBound(Init(jobs, disk).threads);
    RoundsFinish(jobs, Init(jobs, disk), rounds);
    FinishedIsUnlocked(jobs, ExecRounds(jobs, Init(jobs, disk), rounds));
  }
}
