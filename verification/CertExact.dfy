/**
 The conditions under which the certificate helper keeps its promises are exact: for every set
 of jobs that breaks one of them, a run of the protocol is built that breaks the promise.
 */
module CertExact {
  import opened CertIssuance
  import opened CertLocks
  import opened CertProtocol
  import opened DepotPaths

  // ---------- runs of one thread ----------

  function Go(t: nat): Action { Action(t, true, 0) }

  /** The run leads from s to the program counters `threads`, but with thread t at pc. */
  ghost predicate At(jobs: seq<Job>, s: State, run: seq<Action>, threads: seq<PC>, t: nat, pc: PC, shared: Shared)
    requires WellFormed(jobs) && |s.threads| == |jobs|
  {
    t < |threads| == |jobs| && Exec(jobs, s, run) == State(shared, threads[t := pc])
  }

  /** A thread that waits for no one goes on. */
  ghost predicate Free(pc: PC, shared: Shared) {
    && !Finished(pc) && !pc.GenWait?
    && (pc.CaLock? || pc.GenCaLock? ==> !shared.caLock)
    && (pc.GenCsrLock? ==> !shared.csrLock)
  }

  /** Extends the run by one action of thread t. */
  lemma Then(jobs: seq<Job>, s: State, run: seq<Action>, threads: seq<PC>, a: Action, pc: PC, shared: Shared)
    returns (run': seq<Action>)
    requires WellFormed(jobs) && |s.threads| == |jobs| && At(jobs, s, run, threads, a.tid, pc, shared)
    requires Free(pc, shared)
    ensures var (q, shared') := Fire(jobs, State(shared, threads[a.tid := pc]), a);
            At(jobs, s, run', threads, a.tid, q, shared')
  {
    run' := run + [a];
    var cur := State(shared, threads[a.tid := pc]);
    ExecConcat(jobs, s, run, [a]);
    assert Exec(jobs, s, run') == Step(jobs, cur, a);
    var (q, shared') := Fire(jobs, cur, a);
    assert threads[a.tid := pc][a.tid := q] == threads[a.tid := q];
  }

  lemma ThenCA(jobs: seq<Job>, s: State, run: seq<Action>, threads: seq<PC>, t: nat, pc: PC, shared: Shared)
    returns (run': seq<Action>)
    requires WellFormed(jobs) && |s.threads| == |jobs| && At(jobs, s, run, threads, t, pc, shared)
    requires Free(pc, shared) && jobs[t].CreateCA?
    ensures var (q, shared') := FireCA(jobs[t], pc, shared, Go(t));
            At(jobs, s, run', threads, t, q, shared')
  {
    run' := Then(jobs, s, run, threads, Go(t), pc, shared);
  }

  lemma ThenGenerate(jobs: seq<Job>, s: State, run: seq<Action>, threads: seq<PC>, a: Action, pc: PC, shared: Shared)
    returns (run': seq<Action>)
    requires WellFormed(jobs) && |s.threads| == |jobs| && At(jobs, s, run, threads, a.tid, pc, shared)
    requires Free(pc, shared) && jobs[a.tid].Generate? && jobs[a.tid].owner != a.tid
    ensures var o := jobs[a.tid].owner;
            var (q, shared') := FireGenerate(jobs[a.tid], jobs[o].depot, threads[o], pc, shared, a);
            At(jobs, s, run', threads, a.tid, q, shared')
  {
    run' := Then(jobs, s, run, threads, a, pc, shared);
  }

  function SignedRoot(name: string, k: KeyId): Cert { Cert(name, k, name, k, true) }

  function AuthorityCert(name: string, k: KeyId): Cert { Cert(name, k + 1, name, k, true) }

  /** A new authority runs alone up to its signing request, where it holds caLock. */
  lemma CAToCsr(jobs: seq<Job>, s: State, run0: seq<Action>, cur: State, t: nat) returns (run: seq<Action>)
    requires WellFormed(jobs) && |s.threads| == |jobs| && cur == Exec(jobs, s, run0)
    requires t < |jobs| && jobs[t].CreateCA? && cur.threads[t] == CaNewKey && !cur.shared.caLock
    ensures var k := cur.shared.nextKey;
            At(jobs, s, run, cur.threads, t, CaCsr(k, SignedRoot(jobs[t].name, k), k + 1),
               cur.shared.(caLock := true, nextKey := k + 2))
  {
    hide At, KeyPath, CrtPath;
    var k, sh := cur.shared.nextKey, cur.shared;
    assert cur.threads[t := CaNewKey] == cur.threads;
    run := ThenCA(jobs, s, run0, cur.threads, t, CaNewKey, sh);
    run := ThenCA(jobs, s, run, cur.threads, t, CaLock(k), sh.(nextKey := k + 1));
    sh := sh.(nextKey := k + 1, caLock := true);
    run := ThenCA(jobs, s, run, cur.threads, t, CaSelfSign(k), sh);
    run := ThenCA(jobs, s, run, cur.threads, t, CaNewCrtKey(k, SignedRoot(jobs[t].name, k)), sh);
  }

  /** It goes on alone until its certificate is signed and caLock is free again. */
  lemma CAToExport(jobs: seq<Job>, s: State, run0: seq<Action>, cur: State, t: nat) returns (run: seq<Action>)
    requires WellFormed(jobs) && |s.threads| == |jobs| && cur == Exec(jobs, s, run0)
    requires t < |jobs| && jobs[t].CreateCA? && cur.threads[t] == CaNewKey && !cur.shared.caLock
    ensures var k := cur.shared.nextKey;
            At(jobs, s, run, cur.threads, t, CaExportCrt(k + 1, AuthorityCert(jobs[t].name, k)),
               cur.shared.(caLock := false, nextKey := k + 2))
  {
    hide At, KeyPath, CrtPath;
    var k, name := cur.shared.nextKey, jobs[t].name;
    var root, sh := SignedRoot(name, k), cur.shared.(caLock := true, nextKey := k + 2);
    run := CAToCsr(jobs, s, run0, cur, t);
    run := ThenCA(jobs, s, run, cur.threads, t, CaCsr(k, root, k + 1), sh);
    run := ThenCA(jobs, s, run, cur.threads, t, CaSign(k, root, k + 1, Csr(name, k + 1)), sh);
    run := ThenCA(jobs, s, run, cur.threads, t, CaUnlock(k + 1, AuthorityCert(name, k)), sh);
  }

  /** It goes on alone until its key is written and its certificate is not. */
  lemma CAToWriteCrt(jobs: seq<Job>, s: State, run0: seq<Action>, cur: State, t: nat) returns (run: seq<Action>)
    requires WellFormed(jobs) && |s.threads| == |jobs| && cur == Exec(jobs, s, run0)
    requires t < |jobs| && jobs[t].CreateCA? && cur.threads[t] == CaNewKey && !cur.shared.caLock
    ensures var k := cur.shared.nextKey;
            At(jobs, s, run, cur.threads, t, CaWriteCrt(k + 1, AuthorityCert(jobs[t].name, k)),
               Shared(false, cur.shared.csrLock, k + 2, cur.shared.files[KeyOf(jobs[t]) := KeyPem(k + 1)]))
  {
    hide At, KeyPath, CrtPath;
    var k := cur.shared.nextKey;
    var crt, sh := AuthorityCert(jobs[t].name, k), cur.shared.(caLock := false, nextKey := k + 2);
    run := CAToExport(jobs, s, run0, cur, t);
    run := ThenCA(jobs, s, run, cur.threads, t, CaExportCrt(k + 1, crt), sh);
    run := ThenCA(jobs, s, run, cur.threads, t, CaExportKey(k + 1, crt), sh);
    run := ThenCA(jobs, s, run, cur.threads, t, CaWriteKey(k + 1, crt), sh);
  }

  lemma CAToDone(jobs: seq<Job>, s: State, run0: seq<Action>, cur: State, t: nat) returns (run: seq<Action>)
    requires WellFormed(jobs) && |s.threads| == |jobs| && cur == Exec(jobs, s, run0)
    requires t < |jobs| && jobs[t].CreateCA? && cur.threads[t] == CaNewKey && !cur.shared.caLock
    ensures var k, job := cur.shared.nextKey, jobs[t];
            At(jobs, s, run, cur.threads, t, Done(KeyOf(job), CrtOf(job)),
               Shared(false, cur.shared.csrLock, k + 2,
                      cur.shared.files[KeyOf(job) := KeyPem(k + 1)][CrtOf(job) := CertPem(AuthorityCert(job.name, k))]))
  {
    hide At, KeyPath, CrtPath;
    var k := cur.shared.nextKey;
    run := CAToWriteCrt(jobs, s, run0, cur, t);
    run := ThenCA(jobs, s, run, cur.threads, t, CaWriteCrt(k + 1, AuthorityCert(jobs[t].name, k)),
                  Shared(false, cur.shared.csrLock, k + 2, cur.shared.files[KeyOf(jobs[t]) := KeyPem(k + 1)]));
  }

  /** The wait for the authority ends. */
  lemma GenerateStarts(jobs: seq<Job>, s: State, run0: seq<Action>, cur: State, t: nat) returns (run: seq<Action>)
    requires WellFormed(jobs) && |s.threads| == |jobs| && cur == Exec(jobs, s, run0)
    requires t < |jobs| && jobs[t].Generate? && cur.threads[t] == GenWait && cur.threads[jobs[t].owner].Done?
    ensures At(jobs, s, run, cur.threads, t, GenNewKey, cur.shared)
  {
    run := run0 + [Go(t)];
    ExecConcat(jobs, s, run0, [Go(t)]);
    assert Exec(jobs, s, run) == Step(jobs, cur, Go(t));
  }

  /** A generate call whose authority is ready runs alone up to its signing request, where it
      holds csrLock. */
  lemma GenerateToCsr(jobs: seq<Job>, s: State, run0: seq<Action>, cur: State, t: nat) returns (run: seq<Action>)
    requires WellFormed(jobs) && |s.threads| == |jobs| && cur == Exec(jobs, s, run0)
    requires t < |jobs| && jobs[t].Generate? && cur.threads[t] == GenWait && cur.threads[jobs[t].owner].Done?
    requires !cur.shared.csrLock
    ensures var k := cur.shared.nextKey;
            At(jobs, s, run, cur.threads, t, GenCsr(k), cur.shared.(csrLock := true, nextKey := k + 1))
  {
    hide At, TempPath;
    var k, sh := cur.shared.nextKey, cur.shared;
    run := GenerateStarts(jobs, s, run0, cur, t);
    run := ThenGenerate(jobs, s, run, cur.threads, Go(t), GenNewKey, sh);
    sh := sh.(nextKey := k + 1);
    run := ThenGenerate(jobs, s, run, cur.threads, Go(t), GenExportKey(k), sh);
    run := ThenGenerate(jobs, s, run, cur.threads, Go(t), GenCsrLock(k), sh);
  }

  /** The certificate that the authority with files `o` issues for key k. */
  function IssuedCert(job: Job, files: map<Path, Contents>, o: PC, k: KeyId): Cert
    requires job.Generate? && o.Done? && o.keyFile in files && o.crtFile in files
    requires files[o.keyFile].KeyPem? && files[o.crtFile].CertPem?
  {
    Cert(job.name, k, files[o.crtFile].cert.subject, files[o.keyFile].key, job.intermediateCA)
  }

  /** It goes on alone until csrLock is free again. */
  lemma GenerateToRead(jobs: seq<Job>, s: State, run0: seq<Action>, cur: State, t: nat) returns (run: seq<Action>)
    requires WellFormed(jobs) && |s.threads| == |jobs| && cur == Exec(jobs, s, run0)
    requires t < |jobs| && jobs[t].Generate? && cur.threads[t] == GenWait && cur.threads[jobs[t].owner].Done?
    requires !cur.shared.csrLock
    ensures var k := cur.shared.nextKey;
            At(jobs, s, run, cur.threads, t, GenReadCrt(k, Csr(jobs[t].name, k)), cur.shared.(nextKey := k + 1))
  {
    hide At, TempPath;
    var k := cur.shared.nextKey;
    var sh := cur.shared.(csrLock := true, nextKey := k + 1);
    run := GenerateToCsr(jobs, s, run0, cur, t);
    run := ThenGenerate(jobs, s, run, cur.threads, Go(t), GenCsr(k), sh);
    run := ThenGenerate(jobs, s, run, cur.threads, Go(t), GenCsrUnlock(k, Csr(jobs[t].name, k)), sh);
    assert sh.(csrLock := false) == cur.shared.(nextKey := k + 1);
  }

  /** It goes on alone until it has read its authority's files. */
  lemma GenerateToSign(jobs: seq<Job>, s: State, run0: seq<Action>, cur: State, t: nat) returns (run: seq<Action>)
    requires WellFormed(jobs) && |s.threads| == |jobs| && cur == Exec(jobs, s, run0)
    requires t < |jobs| && jobs[t].Generate? && cur.threads[t] == GenWait && cur.threads[jobs[t].owner].Done?
    requires !cur.shared.csrLock
    requires MatchedFiles(cur.shared.files, cur.threads[jobs[t].owner].keyFile, cur.threads[jobs[t].owner].crtFile)
    ensures var k, o, files := cur.shared.nextKey, cur.threads[jobs[t].owner], cur.shared.files;
            At(jobs, s, run, cur.threads, t,
               GenCaLock(k, Csr(jobs[t].name, k), files[o.crtFile].cert, files[o.keyFile].key),
               cur.shared.(nextKey := k + 1))
  {
    hide At, FireRequest, FireStore;
    var k, o, threads := cur.shared.nextKey, cur.threads[jobs[t].owner], cur.threads;
    var csr, bytes, keyBytes := Csr(jobs[t].name, k), cur.shared.files[o.crtFile], cur.shared.files[o.keyFile];
    var sh := cur.shared.(nextKey := k + 1);
    run := GenerateToRead(jobs, s, run0, cur, t);
    run := ThenGenerate(jobs, s, run, threads, Go(t), GenReadCrt(k, csr), sh);
    run := ThenGenerate(jobs, s, run, threads, Go(t), GenParseCrt(k, csr, bytes), sh);
    run := ThenGenerate(jobs, s, run, threads, Go(t), GenReadKey(k, csr, bytes.cert), sh);
    run := ThenGenerate(jobs, s, run, threads, Go(t), GenParseKey(k, csr, bytes.cert, keyBytes), sh);
  }

  /** It goes on alone until the certificate is signed and nothing is stored. */
  lemma GenerateToStore(jobs: seq<Job>, s: State, run0: seq<Action>, cur: State, t: nat) returns (run: seq<Action>)
    requires WellFormed(jobs) && |s.threads| == |jobs| && cur == Exec(jobs, s, run0)
    requires t < |jobs| && jobs[t].Generate? && cur.threads[t] == GenWait && cur.threads[jobs[t].owner].Done?
    requires !cur.shared.csrLock && !cur.shared.caLock
    requires MatchedFiles(cur.shared.files, cur.threads[jobs[t].owner].keyFile, cur.threads[jobs[t].owner].crtFile)
    ensures var k := cur.shared.nextKey;
            At(jobs, s, run, cur.threads, t,
               GenTempKey(k, IssuedCert(jobs[t], cur.shared.files, cur.threads[jobs[t].owner], k)),
               cur.shared.(nextKey := k + 1))
  {
    hide At, TempPath;
    var k, o, threads := cur.shared.nextKey, cur.threads[jobs[t].owner], cur.threads;
    var csr, ca, caKey := Csr(jobs[t].name, k), cur.shared.files[o.crtFile].cert, cur.shared.files[o.keyFile].key;
    var crt, sh := IssuedCert(jobs[t], cur.shared.files, o, k), cur.shared.(nextKey := k + 1);
    run := GenerateToSign(jobs, s, run0, cur, t);
    run := ThenGenerate(jobs, s, run, threads, Go(t), GenCaLock(k, csr, ca, caKey), sh);
    run := ThenGenerate(jobs, s, run, threads, Go(t), GenSign(k, csr, ca, caKey), sh.(caLock := true));
    run := ThenGenerate(jobs, s, run, threads, Go(t), GenCaUnlock(k, crt), sh.(caLock := true));
    run := ThenGenerate(jobs, s, run, threads, Go(t), GenExportCrt(k, crt), sh);
  }

  /** It draws a temporary file and stores its key there. */
  lemma StoreKey(jobs: seq<Job>, s: State, run0: seq<Action>, threads: seq<PC>, t: nat, key: KeyId, crt: Cert, sh: Shared,
                 r: uint32)
    returns (run: seq<Action>)
    requires WellFormed(jobs) && |s.threads| == |jobs| && At(jobs, s, run0, threads, t, GenTempKey(key, crt), sh)
    requires t < |jobs| && jobs[t].Generate? && '/' !in jobs[t].name
    requires TempPath(jobs[jobs[t].owner].depot, jobs[t].name, r) !in sh.files
    ensures var p := TempPath(jobs[jobs[t].owner].depot, jobs[t].name, r);
            At(jobs, s, run, threads, t, GenTempCrt(key, crt, p), sh.(files := sh.files[p := KeyPem(key)]))
  {
    hide At, TempPath;
    var p := TempPath(jobs[jobs[t].owner].depot, jobs[t].name, r);
    run := ThenGenerate(jobs, s, run0, threads, Action(t, true, r), GenTempKey(key, crt), sh);
    assert sh.files[p := Blank][p := KeyPem(key)] == sh.files[p := KeyPem(key)];
    run := ThenGenerate(jobs, s, run, threads, Go(t), GenWriteKey(key, crt, p), sh.(files := sh.files[p := Blank]));
  }

  /** It draws another temporary file, stores its certificate there, and returns. */
  lemma StoreCrt(jobs: seq<Job>, s: State, run0: seq<Action>, threads: seq<PC>, t: nat, key: KeyId, crt: Cert, keyFile: Path,
                 sh: Shared, r: uint32)
    returns (run: seq<Action>)
    requires WellFormed(jobs) && |s.threads| == |jobs| && At(jobs, s, run0, threads, t, GenTempCrt(key, crt, keyFile), sh)
    requires t < |jobs| && jobs[t].Generate? && '/' !in jobs[t].name
    requires TempPath(jobs[jobs[t].owner].depot, jobs[t].name, r) !in sh.files
    ensures var p := TempPath(jobs[jobs[t].owner].depot, jobs[t].name, r);
            At(jobs, s, run, threads, t, Done(keyFile, p), sh.(files := sh.files[p := CertPem(crt)]))
  {
    hide At, TempPath;
    var p := TempPath(jobs[jobs[t].owner].depot, jobs[t].name, r);
    run := ThenGenerate(jobs, s, run0, threads, Action(t, true, r), GenTempCrt(key, crt, keyFile), sh);
    assert sh.files[p := Blank][p := CertPem(crt)] == sh.files[p := CertPem(crt)];
    run := ThenGenerate(jobs, s, run, threads, Go(t), GenWriteCrt(key, crt, keyFile, p), sh.(files := sh.files[p := Blank]));
  }

  // ---------- two authorities on the same files ----------

  /** If the first authority is interrupted between its two writes by the second one, both return
      the same two files, with the key of the second and the certificate of the first. */
  lemma SharedFilesUnsound(jobs: seq<Job>, c: nat, d: nat) returns (run: seq<Action>)
    requires WellFormed(jobs) && c < |jobs| && d < |jobs| && c != d
    requires jobs[c].CreateCA? && jobs[d].CreateCA? && KeyOf(jobs[c]) == KeyOf(jobs[d])
    ensures var s := Exec(jobs, Init(jobs, map[]), run);
            var keyFile, crtFile := KeyOf(jobs[c]), CrtOf(jobs[c]);
            && s.threads[c] == Done(keyFile, crtFile) && s.threads[d] == Done(keyFile, crtFile)
            && keyFile in s.shared.files && s.shared.files[keyFile].KeyPem?
            && crtFile in s.shared.files && s.shared.files[crtFile].CertPem?
            && s.shared.files[crtFile].cert.pub != s.shared.files[keyFile].key
    ensures !AlwaysSound(jobs)
  {
    hide KeyPath, CrtPath;
    var s0 := Init(jobs, map[]);
    run := CAToWriteCrt(jobs, s0, [], s0, c);
    var s1 := Exec(jobs, s0, run);
    run := CAToDone(jobs, s0, run, s1, d);
    var s2 := Exec(jobs, s0, run);
    assert s2.threads[c := s2.threads[c]] == s2.threads;
    run := ThenCA(jobs, s0, run, s2.threads, c, s2.threads[c], s2.shared);
    var s := Exec(jobs, s0, run);
    AuthorityPaths(jobs[c], jobs[d]);
    assert s.shared.files[KeyOf(jobs[c])] == KeyPem(3);
    assert s.shared.files[CrtOf(jobs[c])] == CertPem(AuthorityCert(jobs[c].name, 0));
    assert !SoundThread(jobs, s, c);
    assert !Sound(jobs, Exec(jobs, Init(jobs, map[]), run));
  }

  // ---------- a temporary name that is the file of a later authority ----------

  /** One authority is created and a generate call on it returns.  The keys are numbered in the
      order in which they are drawn. */
  lemma TwoCalls(jobs: seq<Job>, o: nat, g: nat, r1: uint32, r2: uint32) returns (run: seq<Action>)
    requires WellFormed(jobs) && o < |jobs| && g < |jobs|
    requires jobs[g].Generate? && jobs[g].owner == o && '/' !in jobs[g].name
    requires var p1, p2 := TempPath(jobs[o].depot, jobs[g].name, r1), TempPath(jobs[o].depot, jobs[g].name, r2);
             p1 != p2 && p1 !in {KeyOf(jobs[o]), CrtOf(jobs[o])} && p2 !in {KeyOf(jobs[o]), CrtOf(jobs[o])}
    ensures var p1, p2 := TempPath(jobs[o].depot, jobs[g].name, r1), TempPath(jobs[o].depot, jobs[g].name, r2);
            var files := map[KeyOf(jobs[o]) := KeyPem(1)][CrtOf(jobs[o]) := CertPem(AuthorityCert(jobs[o].name, 0))]
                         [p1 := KeyPem(2)][p2 := CertPem(Cert(jobs[g].name, 2, jobs[o].name, 1, jobs[g].intermediateCA))];
            Exec(jobs, Init(jobs, map[]), run) ==
            State(Shared(false, false, 3, files),
                  Init(jobs, map[]).threads[o := Done(KeyOf(jobs[o]), CrtOf(jobs[o]))][g := Done(p1, p2)])
  {
    hide TempPath, KeyPath, CrtPath;
    var s0 := Init(jobs, map[]);
    AuthorityPaths(jobs[o], jobs[o]);
    run := CAToDone(jobs, s0, [], s0, o);
    var s1 := Exec(jobs, s0, run);
    var crt := Cert(jobs[g].name, 2, jobs[o].name, 1, jobs[g].intermediateCA);
    run := GenerateToStore(jobs, s0, run, s1, g);
    assert IssuedCert(jobs[g], s1.shared.files, s1.threads[o], 2) == crt;
    run := StoreKey(jobs, s0, run, s1.threads, g, 2, crt, s1.shared.(nextKey := 3), r1);
    var p1 := TempPath(jobs[o].depot, jobs[g].name, r1);
    run := StoreCrt(jobs, s0, run, s1.threads, g, 2, crt, p1,
                    s1.shared.(nextKey := 3, files := s1.shared.files[p1 := KeyPem(2)]), r2);
  }

  /** Two numbers for the files of a generate call, the first of which is an authority's file. */
  lemma Draws(depot: string, pattern: string, o: Job, c: Job) returns (r1: uint32, r2: uint32)
    requires o.CreateCA? && c.CreateCA? && CanDrawFileOf(depot, pattern, c) && KeyOf(c) != KeyOf(o)
    ensures '/' !in pattern
    ensures var p1, p2 := TempPath(depot, pattern, r1), TempPath(depot, pattern, r2);
            && p1 in {KeyOf(c), CrtOf(c)} && p1 !in {KeyOf(o), CrtOf(o)}
            && p2 !in {KeyOf(c), CrtOf(c), KeyOf(o), CrtOf(o)}
  {
    hide TempPath, KeyOf, CrtOf;
    AuthorityPaths(c, o);
    AuthorityPaths(o, c);
    if CanDraw(depot, pattern, KeyOf(c)) {
      r1 :| TempPath(depot, pattern, r1) == KeyOf(c);
    } else {
      r1 :| TempPath(depot, pattern, r1) == CrtOf(c);
    }
    r2 := AnotherDraw(depot, pattern, KeyOf(c), CrtOf(c), KeyOf(o), CrtOf(o));
  }

  /** The later authority overwrites the key that the generate call returned: the pair matches
      before it, and does not match after it. */
  lemma DrawnFileUnsound(jobs: seq<Job>, g: nat, c: nat) returns (run: seq<Action>, later: seq<Action>)
    requires WellFormed(jobs) && g < |jobs| && c < |jobs| && jobs[g].Generate? && jobs[c].CreateCA? && c != jobs[g].owner
    requires CanDrawFileOf(jobs[jobs[g].owner].depot, jobs[g].name, jobs[c])
    requires KeyOf(jobs[c]) != KeyOf(jobs[jobs[g].owner])
    ensures var s := Exec(jobs, Init(jobs, map[]), run);
            var s' := Exec(jobs, Init(jobs, map[]), run + later);
            && s.threads[g].Done? && s'.threads[g] == s.threads[g]
            && var Done(keyFile, crtFile) := s.threads[g];
               && keyFile in {KeyOf(jobs[c]), CrtOf(jobs[c])}
               && MatchedFiles(s.shared.files, keyFile, crtFile)
               && !MatchedFiles(s'.shared.files, keyFile, crtFile)
               && SameFile(s.shared.files, s'.shared.files, crtFile)
    ensures !AlwaysSound(jobs)
  {
    hide Exec, Step, TempPath, KeyPath, CrtPath;
    var o := jobs[g].owner;
    AuthorityPaths(jobs[c], jobs[c]);
    var r1, r2 := Draws(jobs[o].depot, jobs[g].name, jobs[o], jobs[c]);
    run := TwoCalls(jobs, o, g, r1, r2);
    var s0 := Init(jobs, map[]);
    var s := Exec(jobs, s0, run);
    ExecNothing(jobs, s);
    later := CAToDone(jobs, s, [], s, c);
    ExecConcat(jobs, s0, run, later);
    var s' := Exec(jobs, s0, run + later);
    var p1 := s.threads[g].keyFile;
    assert s'.shared.files[p1] == KeyPem(4) || s'.shared.files[p1].CertPem?;
    assert !SoundThread(jobs, s', g);
    assert !Sound(jobs, Exec(jobs, Init(jobs, map[]), run + later));
  }

  lemma ExecNothing(jobs: seq<Job>, s: State)
    requires WellFormed(jobs) && |s.threads| == |jobs|
    ensures Exec(jobs, s, []) == s
  {
  }


  /** The files are always sound exactly when the paths are kept apart. */
  lemma SoundIffSeparate(jobs: seq<Job>)
    requires WellFormed(jobs)
    ensures AlwaysSound(jobs) <==> Separate(jobs)
  {
    if Separate(jobs) {
      SeparateIsSound(jobs);
    } else if c, d :| 0 <= c < |jobs| && 0 <= d < |jobs| && c != d && jobs[c].CreateCA? && jobs[d].CreateCA?
                      && KeyOf(jobs[c]) == KeyOf(jobs[d]) {
      var run := SharedFilesUnsound(jobs, c, d);
    } else {
      var g, c :| 0 <= g < |jobs| && 0 <= c < |jobs| && jobs[g].Generate? && jobs[c].CreateCA? && c != jobs[g].owner
                  && CanDrawFileOf(jobs[jobs[g].owner].depot, jobs[g].name, jobs[c]);
      var run, later := DrawnFileUnsound(jobs, g, c);
    }
  }

  /** Without a '*' in the name, a temporary file ends in a digit and is never an authority's. */
  lemma PlainNamesCannotCollide(depot: string, pattern: string, authority: Job)
    requires '*' !in pattern && authority.CreateCA?
    ensures !CanDrawFileOf(depot, pattern, authority)
  {
    hide TempPath, KeyOf, CrtOf;
    OnStem(authority);
    if '/' !in pattern {
      forall random: uint32
        ensures TempPath(depot, pattern, random) != KeyOf(authority) && TempPath(depot, pattern, random) != CrtOf(authority)
      {
        EndsInDigit(depot, pattern, random);
      }
    }
  }

  /** So for plain names, which is what every caller in the repository uses, the condition is
      that no two authorities are created on the same key file. */
  lemma PlainNamesSound(jobs: seq<Job>)
    requires WellFormed(jobs)
    requires forall t :: 0 <= t < |jobs| && jobs[t].Generate? ==> '*' !in jobs[t].name
    ensures AlwaysSound(jobs) <==>
            forall c, d | 0 <= c < |jobs| && 0 <= d < |jobs| && c != d && jobs[c].CreateCA? && jobs[d].CreateCA? ::
              KeyOf(jobs[c]) != KeyOf(jobs[d])
  {
    SoundIffSeparate(jobs);
    forall g, c | 0 <= g < |jobs| && 0 <= c < |jobs| && jobs[g].Generate? && jobs[c].CreateCA? && c != jobs[g].owner
      ensures !CanDrawFileOf(jobs[jobs[g].owner].depot, jobs[g].name, jobs[c])
    {
      PlainNamesCannotCollide(jobs[jobs[g].owner].depot, jobs[g].name, jobs[c]);
    }
  }
}
