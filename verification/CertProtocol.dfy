/**
 The certificate helper as a protocol of threads.

 Each thread runs one of the two straight-line procedures of certauthority.go, one
 operation a step, and carries the local variables that are in scope at its program
 counter.  Locks are the plain booleans that a Go mutex is: nothing records an owner.
 Keys and certificates are symbolic, and the depot is a map from paths to contents.
 */
module CertProtocol {
  import opened DepotPaths

  /** Identity of an RSA key pair. */
  type KeyId = nat

  datatype Csr = Csr(subject: string, pub: KeyId)

  /** A certificate for `pub`, signed with the private half of `issuer`. */
  datatype Cert = Cert(subject: string, pub: KeyId, issuerName: string, issuer: KeyId, isCA: bool)

  /** What a file holds. `Blank` is a temporary file that has been created but not yet written. */
  datatype Contents = Blank | KeyPem(key: KeyId) | CertPem(cert: Cert)

  /** `Generate.owner` is the thread whose NewCertAuthority call made the authority in use. */
  datatype Job =
    | CreateCA(depot: string, name: string)
    | Generate(owner: nat, name: string, intermediateCA: bool)

  datatype PC =
    // generateCAAndKey
    | CaNewKey
    | CaLock(caKey: KeyId)
    | CaSelfSign(caKey: KeyId)
    | CaNewCrtKey(caKey: KeyId, root: Cert)
    | CaCsr(caKey: KeyId, root: Cert, key: KeyId)
    | CaSign(caKey: KeyId, root: Cert, key: KeyId, csr: Csr)
    | CaUnlock(key: KeyId, crt: Cert)
    | CaExportCrt(key: KeyId, crt: Cert)
    | CaExportKey(key: KeyId, crt: Cert)
    | CaWriteKey(key: KeyId, crt: Cert)
    | CaWriteCrt(key: KeyId, crt: Cert)
    // GenerateSelfSignedCertAndKey, preceded by the wait for its authority
    | GenWait
    | GenNewKey
    | GenExportKey(key: KeyId)
    | GenCsrLock(key: KeyId)
    | GenCsr(key: KeyId)
    | GenCsrUnlock(key: KeyId, csr: Csr)
    | GenReadCrt(key: KeyId, csr: Csr)
    | GenParseCrt(key: KeyId, csr: Csr, bytes: Contents)
    | GenReadKey(key: KeyId, csr: Csr, ca: Cert)
    | GenParseKey(key: KeyId, csr: Csr, ca: Cert, bytes: Contents)
    | GenCaLock(key: KeyId, csr: Csr, ca: Cert, caKey: KeyId)
    | GenSign(key: KeyId, csr: Csr, ca: Cert, caKey: KeyId)
    | GenCaUnlock(key: KeyId, crt: Cert)
    | GenExportCrt(key: KeyId, crt: Cert)
    | GenTempKey(key: KeyId, crt: Cert)
    | GenWriteKey(key: KeyId, crt: Cert, keyFile: Path)
    | GenTempCrt(key: KeyId, crt: Cert, keyFile: Path)
    | GenWriteCrt(key: KeyId, crt: Cert, keyFile: Path, crtFile: Path)
    // error exits that still have a lock to release
    | FailCaUnlock
    | FailCsrUnlock
    // returned to the caller
    | Failed
    | Done(keyFile: Path, crtFile: Path)

  /** The two mutexes, the source of new keys, and the depot. */
  datatype Shared = Shared(caLock: bool, csrLock: bool, nextKey: KeyId, files: map<Path, Contents>)

  datatype State = State(shared: Shared, threads: seq<PC>)

  /** The scheduler runs thread `tid`; `ok` says whether a fallible call succeeds and `random`
      is the number that os.CreateTemp puts into a temporary file name. */
  datatype Action = Action(tid: nat, ok: bool, random: uint32)

  predicate WellFormed(jobs: seq<Job>) {
    forall t :: 0 <= t < |jobs| && jobs[t].Generate? ==>
      jobs[t].owner < |jobs| && jobs[jobs[t].owner].CreateCA?
  }

  function KeyPath(depot: string, name: string): Path { Join(depot, name + ".key") }

  function CrtPath(depot: string, name: string): Path { Join(depot, name + ".crt") }

  // ---------- steps ----------

  function Start(job: Job): PC { if job.CreateCA? then CaNewKey else GenWait }

  function Init(jobs: seq<Job>, disk: map<Path, Contents>): State {
    State(Shared(false, false, 0, disk), seq(|jobs|, i requires 0 <= i < |jobs| => Start(jobs[i])))
  }

  predicate Finished(pc: PC) { pc.Done? || pc.Failed? }

  /** Whether thread t can run: it has not returned, and it waits neither for a lock nor for
      the call that creates its authority. */
  predicate Enabled(jobs: seq<Job>, s: State, t: nat)
    requires WellFormed(jobs) && |s.threads| == |jobs|
  {
    t < |jobs| &&
    match s.threads[t]
    case Failed => false
    case Done(_, _) => false
    case CaLock(_) => !s.shared.caLock
    case GenCaLock(_, _, _, _) => !s.shared.caLock
    case GenCsrLock(_) => !s.shared.csrLock
    case GenWait =>
      jobs[t].Generate? && Finished(s.threads[jobs[t].owner])
    case _ => true
  }

  /** One operation of generateCAAndKey. */
  function FireCA(job: Job, pc: PC, s: Shared, a: Action): (PC, Shared)
    requires job.CreateCA?
  {
    match pc
    case CaNewKey =>
      if a.ok then (CaLock(s.nextKey), s.(nextKey := s.nextKey + 1))
      else (Failed, s)
    case CaLock(caKey) => (CaSelfSign(caKey), s.(caLock := true))
    case CaSelfSign(caKey) =>
      (if a.ok then CaNewCrtKey(caKey, Cert(job.name, caKey, job.name, caKey, true))
       else FailCaUnlock, s)
    case CaNewCrtKey(caKey, root) =>
      if a.ok then (CaCsr(caKey, root, s.nextKey), s.(nextKey := s.nextKey + 1))
      else (FailCaUnlock, s)
    case CaCsr(caKey, root, key) =>
      (if a.ok then CaSign(caKey, root, key, Csr(job.name, key)) else FailCaUnlock, s)
    case CaSign(caKey, root, key, csr) =>
      (if a.ok then CaUnlock(key, Cert(csr.subject, csr.pub, root.subject, caKey, true))
       else FailCaUnlock, s)
    case CaUnlock(key, crt) => (CaExportCrt(key, crt), s.(caLock := false))
    case CaExportCrt(key, crt) => (if a.ok then CaExportKey(key, crt) else Failed, s)
    case CaExportKey(key, crt) => (if a.ok then CaWriteKey(key, crt) else Failed, s)
    case CaWriteKey(key, crt) =>
      if a.ok
      then (CaWriteCrt(key, crt), s.(files := s.files[KeyPath(job.depot, job.name) := KeyPem(key)]))
      else (Failed, s)
    case CaWriteCrt(key, crt) =>
      if a.ok
      then (Done(KeyPath(job.depot, job.name), CrtPath(job.depot, job.name)),
            s.(files := s.files[CrtPath(job.depot, job.name) := CertPem(crt)]))
      else (Failed, s)
    case FailCaUnlock => (Failed, s.(caLock := false))
    case _ => (pc, s)
  }

  /** One operation of the first part of GenerateSelfSignedCertAndKey: the key and the signing
      request. `owner` is the program counter of the thread that created the authority. */
  function FireRequest(job: Job, owner: PC, pc: PC, s: Shared, a: Action): (PC, Shared)
    requires job.Generate?
  {
    match pc
    case GenWait => (if owner.Done? then GenNewKey else Failed, s)
    case GenNewKey =>
      if a.ok then (GenExportKey(s.nextKey), s.(nextKey := s.nextKey + 1))
      else (Failed, s)
    case GenExportKey(key) => (if a.ok then GenCsrLock(key) else Failed, s)
    case GenCsrLock(key) => (GenCsr(key), s.(csrLock := true))
    case GenCsr(key) =>
      (if a.ok then GenCsrUnlock(key, Csr(job.name, key)) else FailCsrUnlock, s)
    case GenCsrUnlock(key, csr) => (GenReadCrt(key, csr), s.(csrLock := false))
    case FailCsrUnlock => (Failed, s.(csrLock := false))
    case _ => (pc, s)
  }

  /** One operation of the second part of GenerateSelfSignedCertAndKey: the certificate. */
  function FireSign(job: Job, owner: PC, pc: PC, s: Shared, a: Action): (PC, Shared)
    requires job.Generate?
  {
    match pc
    case GenReadCrt(key, csr) =>
      (if a.ok && owner.Done? && owner.crtFile in s.files
       then GenParseCrt(key, csr, s.files[owner.crtFile])
       else Failed, s)
    case GenParseCrt(key, csr, bytes) =>
      (if a.ok && bytes.CertPem? then GenReadKey(key, csr, bytes.cert) else Failed, s)
    case GenReadKey(key, csr, ca) =>
      (if a.ok && owner.Done? && owner.keyFile in s.files
       then GenParseKey(key, csr, ca, s.files[owner.keyFile])
       else Failed, s)
    case GenParseKey(key, csr, ca, bytes) =>
      (if a.ok && bytes.KeyPem? then GenCaLock(key, csr, ca, bytes.key) else Failed, s)
    case GenCaLock(key, csr, ca, caKey) =>
      (GenSign(key, csr, ca, caKey), s.(caLock := true))
    case GenSign(key, csr, ca, caKey) =>
      (if a.ok then GenCaUnlock(key, Cert(csr.subject, csr.pub, ca.subject, caKey, job.intermediateCA))
       else FailCaUnlock, s)
    case GenCaUnlock(key, crt) => (GenExportCrt(key, crt), s.(caLock := false))
    case FailCaUnlock => (Failed, s.(caLock := false))
    case _ => (pc, s)
  }

  /** One operation of the last part of GenerateSelfSignedCertAndKey: the files. os.CreateTemp
      refuses a name with a separator, and it opens exclusively, so it succeeds only with a name
      that is not taken. */
  function FireStore(job: Job, depot: string, pc: PC, s: Shared, a: Action): (PC, Shared)
    requires job.Generate?
  {
    var p := TempPath(depot, job.name, a.random);
    var drawn := a.ok && '/' !in job.name && p !in s.files;
    match pc
    case GenExportCrt(key, crt) => (if a.ok then GenTempKey(key, crt) else Failed, s)
    case GenTempKey(key, crt) =>
      if drawn then (GenWriteKey(key, crt, p), s.(files := s.files[p := Blank]))
      else (Failed, s)
    case GenWriteKey(key, crt, keyFile) =>
      if a.ok then (GenTempCrt(key, crt, keyFile), s.(files := s.files[keyFile := KeyPem(key)]))
      else (Failed, s)
    case GenTempCrt(key, crt, keyFile) =>
      if drawn then (GenWriteCrt(key, crt, keyFile, p), s.(files := s.files[p := Blank]))
      else (Failed, s)
    case GenWriteCrt(key, crt, keyFile, crtFile) =>
      if a.ok then (Done(keyFile, crtFile), s.(files := s.files[crtFile := CertPem(crt)]))
      else (Failed, s)
    case _ => (pc, s)
  }

  predicate Storing(pc: PC) {
    pc.GenExportCrt? || pc.GenTempKey? || pc.GenWriteKey? || pc.GenTempCrt? || pc.GenWriteCrt?
  }

  predicate Requesting(pc: PC) {
    pc.GenWait? || pc.GenNewKey? || pc.GenExportKey? || pc.GenCsrLock? || pc.GenCsr?
    || pc.GenCsrUnlock? || pc.FailCsrUnlock?
  }

  /** One operation of GenerateSelfSignedCertAndKey. */
  function FireGenerate(job: Job, depot: string, owner: PC, pc: PC, s: Shared, a: Action): (PC, Shared)
    requires job.Generate?
  {
    if Storing(pc) then FireStore(job, depot, pc, s, a)
    else if Requesting(pc) then FireRequest(job, owner, pc, s, a)
    else FireSign(job, owner, pc, s, a)
  }

  /** One operation of the thread of `a`, given the program counters of all. */
  function Fire(jobs: seq<Job>, s: State, a: Action): (PC, Shared)
    requires WellFormed(jobs) && |s.threads| == |jobs| && a.tid < |jobs|
  {
    var job, pc := jobs[a.tid], s.threads[a.tid];
    if job.CreateCA? then FireCA(job, pc, s.shared, a)
    else FireGenerate(job, jobs[job.owner].depot, s.threads[job.owner], pc, s.shared, a)
  }

  /** A scheduled thread that cannot run stays where it is. */
  function Step(jobs: seq<Job>, s: State, a: Action): (s': State)
    requires WellFormed(jobs) && |s.threads| == |jobs|
    ensures |s'.threads| == |jobs|
  {
    if !Enabled(jobs, s, a.tid) then s
    else
      var (pc, shared) := Fire(jobs, s, a);
      State(shared, s.threads[a.tid := pc])
  }

  function Exec(jobs: seq<Job>, s: State, run: seq<Action>): (s': State)
    requires WellFormed(jobs) && |s.threads| == |jobs|
    ensures |s'.threads| == |jobs|
    decreases |run|
  {
    if run == [] then s else Exec(jobs, Step(jobs, s, run[0]), run[1..])
  }

  lemma {:induction false} ExecConcat(jobs: seq<Job>, s: State, a: seq<Action>, b: seq<Action>)
    requires WellFormed(jobs) && |s.threads| == |jobs|
    ensures Exec(jobs, s, a + b) == Exec(jobs, Exec(jobs, s, a), b)
    decreases |a|
  {
    if a == [] {
      assert a + b == b;
    } else {
      assert (a + b)[0] == a[0] && (a + b)[1..] == a[1..] + b;
      ExecConcat(jobs, Step(jobs, s, a[0]), a[1..], b);
    }
  }

  /** A state that some interleaving, with some choice of failing calls, leads to. */
  ghost predicate Reachable(jobs: seq<Job>, s: State)
    requires WellFormed(jobs)
  {
    exists disk: map<Path, Contents>, run: seq<Action> :: s == Exec(jobs, Init(jobs, disk), run)
  }

  /** Program counters that belong to the thread's procedure. */
  predicate Fits(job: Job, pc: PC) {
    Finished(pc) || pc.FailCaUnlock? ||
    (job.CreateCA? <==> pc.CaNewKey? || pc.CaLock? || pc.CaSelfSign? || pc.CaNewCrtKey? || pc.CaCsr?
                        || pc.CaSign? || pc.CaUnlock? || pc.CaExportCrt? || pc.CaExportKey?
                        || pc.CaWriteKey? || pc.CaWriteCrt?)
  }

  ghost predicate AllFit(jobs: seq<Job>, s: State) {
    |s.threads| == |jobs| && forall t :: 0 <= t < |jobs| ==> Fits(jobs[t], s.threads[t])
  }
}
