/**
 Signing requests are made under two different locks: csrLock in a generate call, caLock while
 an authority is created.  So two requests can be made at the same time, and this module says
 exactly for which sets of jobs.
 */
module CertCsr {
  import opened CertExact
  import opened CertLocks
  import opened CertProtocol
  import opened DepotPaths

  /** About to run, or running, CreateCertificateSigningRequest. */
  predicate AtCsr(pc: PC) { pc.CaCsr? || pc.GenCsr? }

  ghost predicate CsrExclusive(s: State) {
    forall t, u | 0 <= t < |s.threads| && 0 <= u < |s.threads| ::
      AtCsr(s.threads[t]) && AtCsr(s.threads[u]) ==> t == u
  }

  ghost predicate AlwaysCsrExclusive(jobs: seq<Job>)
    requires WellFormed(jobs)
  {
    forall disk: map<Path, Contents>, run: seq<Action> :: CsrExclusive(Exec(jobs, Init(jobs, disk), run))
  }

  /** Nobody generates while some authority other than the one in use is created. */
  ghost predicate OneAuthority(jobs: seq<Job>)
    requires WellFormed(jobs)
  {
    forall g, c | 0 <= g < |jobs| && 0 <= c < |jobs| && jobs[g].Generate? && jobs[c].CreateCA? :: jobs[g].owner == c
  }

  predicate BeforeStart(pc: PC) { pc.GenWait? || pc.Failed? }

  /** A generate call runs only on an authority that has been returned to its caller. */
  ghost predicate StartedAfterOwner(jobs: seq<Job>, s: State)
    requires WellFormed(jobs)
  {
    && AllFit(jobs, s)
    && forall t :: 0 <= t < |jobs| && jobs[t].Generate? && !BeforeStart(s.threads[t]) ==>
         s.threads[jobs[t].owner].Done?
  }

  lemma StartedStep(jobs: seq<Job>, s: State, a: Action)
    requires WellFormed(jobs) && StartedAfterOwner(jobs, s)
    ensures StartedAfterOwner(jobs, Step(jobs, s, a))
  {
    if Enabled(jobs, s, a.tid) {
      StepMoves(jobs, s, a);
    }
  }

  lemma {:induction false} StartedExec(jobs: seq<Job>, s: State, run: seq<Action>)
    requires WellFormed(jobs) && StartedAfterOwner(jobs, s)
    ensures StartedAfterOwner(jobs, Exec(jobs, s, run))
    decreases |run|
  {
    if run != [] {
      StartedStep(jobs, s, run[0]);
      StartedExec(jobs, Step(jobs, s, run[0]), run[1..]);
    }
  }

  lemma OneAuthorityExclusive(jobs: seq<Job>, s: State)
    requires WellFormed(jobs) && OneAuthority(jobs) && LockInv(jobs, s) && StartedAfterOwner(jobs, s)
    ensures CsrExclusive(s)
  {
    forall t, u | 0 <= t < |jobs| && 0 <= u < |jobs| && AtCsr(s.threads[t]) && AtCsr(s.threads[u])
      ensures t == u
    {
      if s.threads[t].CaCsr? && s.threads[u].CaCsr? {
        assert InCa(s.threads[t]) && InCa(s.threads[u]);
      } else if s.threads[t].GenCsr? && s.threads[u].GenCsr? {
        assert InCsr(s.threads[t]) && InCsr(s.threads[u]);
      }
    }
  }

  /** A second authority stops at its request, under caLock, then a generate call on the first one
      does, under csrLock. */
  lemma TwoAuthoritiesOverlap(jobs: seq<Job>, g: nat, c: nat) returns (run: seq<Action>)
    requires WellFormed(jobs) && g < |jobs| && c < |jobs| && jobs[g].Generate? && jobs[c].CreateCA? && jobs[g].owner != c
    ensures var s := Exec(jobs, Init(jobs, map[]), run);
            && s.threads[c].CaCsr? && s.shared.caLock
            && s.threads[g].GenCsr? && s.shared.csrLock
    ensures !AlwaysCsrExclusive(jobs)
  {
    hide KeyPath, CrtPath;
    var s0, o := Init(jobs, map[]), jobs[g].owner;
    run := CAToDone(jobs, s0, [], s0, o);
    run := CAToCsr(jobs, s0, run, Exec(jobs, s0, run), c);
    run := GenerateToCsr(jobs, s0, run, Exec(jobs, s0, run), g);
    var s := Exec(jobs, s0, run);
    assert AtCsr(s.threads[g]) && AtCsr(s.threads[c]);
    assert !CsrExclusive(Exec(jobs, Init(jobs, map[]), run));
  }

  /** Signing requests are mutually exclusive in every run exactly when no authority is created
      besides the one that every generate call uses. */
  lemma CsrExclusiveIffOneAuthority(jobs: seq<Job>)
    requires WellFormed(jobs)
    ensures AlwaysCsrExclusive(jobs) <==> OneAuthority(jobs)
  {
    if OneAuthority(jobs) {
      forall disk: map<Path, Contents>, run: seq<Action>
        ensures CsrExclusive(Exec(jobs, Init(jobs, disk), run))
      {
        InitLocks(jobs, disk);
        LocksExec(jobs, Init(jobs, disk), run);
        StartedExec(jobs, Init(jobs, disk), run);
        OneAuthorityExclusive(jobs, Exec(jobs, Init(jobs, disk), run));
      }
    } else {
      var g, c :| 0 <= g < |jobs| && 0 <= c < |jobs| && jobs[g].Generate? && jobs[c].CreateCA? && jobs[g].owner != c;
      var run := TwoAuthoritiesOverlap(jobs, g, c);
    }
  }
}
