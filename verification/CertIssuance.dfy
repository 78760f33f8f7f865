/**
 What the issued files say.  While the paths of the authorities are kept apart, every
 interleaving of the protocol returns matched key and certificate files, signed by the
 authority that was asked, and leaves them as they were returned.
 */
module CertIssuance {
  import opened CertLocks
  import opened CertProtocol
  import opened DepotPaths

  // ---------- the condition on a set of jobs ----------

  function KeyOf(job: Job): Path
    requires job.CreateCA?
  {
    KeyPath(job.depot, job.name)
  }

  function CrtOf(job: Job): Path
    requires job.CreateCA?
  {
    CrtPath(job.depot, job.name)
  }

  /** Whether os.CreateTemp may return the path p for this directory and pattern. */
  ghost predicate CanDraw(depot: string, pattern: string, p: Path) {
    '/' !in pattern && exists random :: TempPath(depot, pattern, random) == p
  }

  ghost predicate CanDrawFileOf(depot: string, pattern: string, authority: Job)
    requires authority.CreateCA?
  {
    CanDraw(depot, pattern, KeyOf(authority)) || CanDraw(depot, pattern, CrtOf(authority))
  }

  /** No two authorities share their files, and no temporary name can be a file of an authority
      other than the one in use. */
  ghost predicate Separate(jobs: seq<Job>)
    requires WellFormed(jobs)
  {
    && (forall c, d | 0 <= c < |jobs| && 0 <= d < |jobs| && c != d && jobs[c].CreateCA? && jobs[d].CreateCA? ::
          KeyOf(jobs[c]) != KeyOf(jobs[d]))
    && (forall g, c | 0 <= g < |jobs| && 0 <= c < |jobs| && jobs[g].Generate? && jobs[c].CreateCA? && c != jobs[g].owner ::
          !CanDrawFileOf(jobs[jobs[g].owner].depot, jobs[g].name, jobs[c]))
  }

  // ---------- the property ----------

  ghost predicate MatchedFiles(files: map<Path, Contents>, keyFile: Path, crtFile: Path) {
    && keyFile in files && crtFile in files
    && files[keyFile].KeyPem? && files[crtFile].CertPem?
    && files[crtFile].cert.pub == files[keyFile].key
  }

  /** The files of a call that returned successfully: a key, and a certificate for that key, for
      the requested name, that is not signed with that key. */
  ghost predicate SoundPair(job: Job, files: map<Path, Contents>, keyFile: Path, crtFile: Path) {
    && MatchedFiles(files, keyFile, crtFile)
    && files[crtFile].cert.subject == job.name
    && files[crtFile].cert.issuer != files[crtFile].cert.pub
    && files[crtFile].cert.isCA == (job.CreateCA? || job.intermediateCA)
  }

  /** One link of a chain (section 6.1.3 of RFC 5280): the certificate in `crtFile` is signed by
      the key, and names the subject, of the authority's certificate. */
  ghost predicate SignedBy(files: map<Path, Contents>, crtFile: Path, authority: PC)
    requires authority.Done? && crtFile in files && files[crtFile].CertPem?
  {
    && MatchedFiles(files, authority.keyFile, authority.crtFile)
    && files[crtFile].cert.issuer == files[authority.crtFile].cert.pub
    && files[crtFile].cert.issuerName == files[authority.crtFile].cert.subject
  }

  ghost predicate SoundThread(jobs: seq<Job>, s: State, t: nat)
    requires WellFormed(jobs) && t < |jobs| == |s.threads|
  {
    s.threads[t].Done? ==>
      var Done(keyFile, crtFile) := s.threads[t];
      && SoundPair(jobs[t], s.shared.files, keyFile, crtFile)
      && (jobs[t].CreateCA? ==> keyFile == KeyOf(jobs[t]) && crtFile == CrtOf(jobs[t]))
      && (jobs[t].Generate? ==>
            && s.threads[jobs[t].owner].Done?
            && SignedBy(s.shared.files, crtFile, s.threads[jobs[t].owner]))
  }

  ghost predicate Sound(jobs: seq<Job>, s: State)
    requires WellFormed(jobs) && |jobs| == |s.threads|
  {
    forall t :: 0 <= t < |jobs| ==> SoundThread(jobs, s, t)
  }

  ghost predicate SameFile(files: map<Path, Contents>, files': map<Path, Contents>, p: Path) {
    p in files && p in files' && files'[p] == files[p]
  }

  /** What a call returned in s it still has in s', and both of its files hold the same there. */
  ghost predicate Kept(s: State, s': State, t: nat)
    requires t < |s.threads| == |s'.threads|
  {
    s.threads[t].Done? ==>
      && s'.threads[t] == s.threads[t]
      && SameFile(s.shared.files, s'.shared.files, s.threads[t].keyFile)
      && SameFile(s.shared.files, s'.shared.files, s.threads[t].crtFile)
  }

  ghost predicate AllKept(s: State, s': State)
    requires |s.threads| == |s'.threads|
  {
    forall t :: 0 <= t < |s.threads| ==> Kept(s, s', t)
  }

  /** In every run the returned files are sound, and however it goes on they stay as they are. */
  ghost predicate AlwaysSound(jobs: seq<Job>)
    requires WellFormed(jobs)
  {
    && (forall disk: map<Path, Contents>, run: seq<Action> :: Sound(jobs, Exec(jobs, Init(jobs, disk), run)))
    && (forall disk: map<Path, Contents>, run: seq<Action>, later: seq<Action> ::
          AllKept(Exec(jobs, Init(jobs, disk), run), Exec(jobs, Init(jobs, disk), run + later)))
  }

  // ---------- the invariant ----------

  /** A certificate for `key`, named `name` on both sides, signed with an older key. */
  ghost predicate IsAuthority(name: string, key: KeyId, crt: Cert) {
    crt.pub == key && crt.subject == name && crt.issuerName == name && crt.issuer < key && crt.isCA
  }

  ghost predicate GoodCA(job: Job, pc: PC, s: Shared)
    requires job.CreateCA?
  {
    match pc
    case CaLock(caKey) => caKey < s.nextKey
    case CaSelfSign(caKey) => caKey < s.nextKey
    case CaNewCrtKey(caKey, root) => caKey < s.nextKey && root.subject == job.name
    case CaCsr(caKey, root, key) => caKey < key < s.nextKey && root.subject == job.name
    case CaSign(caKey, root, key, csr) =>
      caKey < key < s.nextKey && root.subject == job.name && csr == Csr(job.name, key)
    case CaUnlock(key, crt) => key < s.nextKey && IsAuthority(job.name, key, crt)
    case CaExportCrt(key, crt) => key < s.nextKey && IsAuthority(job.name, key, crt)
    case CaExportKey(key, crt) => key < s.nextKey && IsAuthority(job.name, key, crt)
    case CaWriteKey(key, crt) => key < s.nextKey && IsAuthority(job.name, key, crt)
    case CaWriteCrt(key, crt) =>
      && key < s.nextKey && IsAuthority(job.name, key, crt)
      && KeyOf(job) in s.files && s.files[KeyOf(job)] == KeyPem(key)
    case Done(keyFile, crtFile) =>
      && keyFile == KeyOf(job) && crtFile == CrtOf(job)
      && MatchedFiles(s.files, keyFile, crtFile)
      && s.files[keyFile].key < s.nextKey
      && IsAuthority(job.name, s.files[keyFile].key, s.files[crtFile].cert)
    case _ => true
  }

  /** The certificate that authority (x, y) issues to generate job `job` for `key`. */
  ghost predicate Issued(job: Job, key: KeyId, crt: Cert, x: KeyId, y: Cert)
    requires job.Generate?
  {
    x < key && crt == Cert(job.name, key, y.subject, x, job.intermediateCA)
  }

  ghost predicate GoodGenerate(job: Job, pc: PC, s: Shared, x: KeyId, y: Cert)
    requires job.Generate?
  {
    match pc
    case GenNewKey => x < s.nextKey
    case GenExportKey(key) => x < key < s.nextKey
    case GenCsrLock(key) => x < key < s.nextKey
    case GenCsr(key) => x < key < s.nextKey
    case GenCsrUnlock(key, csr) => x < key && csr == Csr(job.name, key)
    case GenReadCrt(key, csr) => x < key && csr == Csr(job.name, key)
    case GenParseCrt(key, csr, bytes) => x < key && csr == Csr(job.name, key) && bytes == CertPem(y)
    case GenReadKey(key, csr, ca) => x < key && csr == Csr(job.name, key) && ca == y
    case GenParseKey(key, csr, ca, bytes) =>
      x < key && csr == Csr(job.name, key) && ca == y && bytes == KeyPem(x)
    case GenCaLock(key, csr, ca, caKey) => x < key && csr == Csr(job.name, key) && ca == y && caKey == x
    case GenSign(key, csr, ca, caKey) => x < key && csr == Csr(job.name, key) && ca == y && caKey == x
    case GenCaUnlock(key, crt) => Issued(job, key, crt, x, y)
    case GenExportCrt(key, crt) => Issued(job, key, crt, x, y)
    case GenTempKey(key, crt) => Issued(job, key, crt, x, y)
    case GenWriteKey(key, crt, keyFile) => Issued(job, key, crt, x, y) && keyFile in s.files
    case GenTempCrt(key, crt, keyFile) =>
      Issued(job, key, crt, x, y) && keyFile in s.files && s.files[keyFile] == KeyPem(key)
    case GenWriteCrt(key, crt, keyFile, crtFile) =>
      && Issued(job, key, crt, x, y)
      && keyFile in s.files && s.files[keyFile] == KeyPem(key)
      && crtFile in s.files && crtFile != keyFile
    case Done(keyFile, crtFile) =>
      && keyFile in s.files && s.files[keyFile].KeyPem?
      && crtFile in s.files && s.files[crtFile].CertPem?
      && Issued(job, s.files[keyFile].key, s.files[crtFile].cert, x, y)
    case _ => true
  }

  /** The files that only this thread may write from now on. */
  function Owned(job: Job, pc: PC): set<Path> {
    if job.CreateCA? then {KeyOf(job), CrtOf(job)}
    else match pc
      case GenWriteKey(_, _, keyFile) => {keyFile}
      case GenTempCrt(_, _, keyFile) => {keyFile}
      case GenWriteCrt(_, _, keyFile, crtFile) => {keyFile, crtFile}
      case Done(keyFile, crtFile) => {keyFile, crtFile}
      case _ => {}
  }

  predicate Waiting(pc: PC) { pc.GenWait? || pc.Failed? }

  ghost predicate GoodThread(jobs: seq<Job>, s: State, t: nat)
    requires WellFormed(jobs) && t < |jobs| == |s.threads|
  {
    if jobs[t].CreateCA? then GoodCA(jobs[t], s.threads[t], s.shared)
    else Waiting(s.threads[t]) ||
         var o := s.threads[jobs[t].owner];
         && o.Done?
         && GoodCA(jobs[jobs[t].owner], o, s.shared)
         && GoodGenerate(jobs[t], s.threads[t], s.shared, s.shared.files[o.keyFile].key, s.shared.files[o.crtFile].cert)
  }

  ghost predicate FilesInv(jobs: seq<Job>, s: State)
    requires WellFormed(jobs)
  {
    && AllFit(jobs, s)
    && (forall t :: 0 <= t < |jobs| ==> GoodThread(jobs, s, t))
    && (forall t, u | 0 <= t < |jobs| && 0 <= u < |jobs| && t != u ::
          Owned(jobs[t], s.threads[t]) !! Owned(jobs[u], s.threads[u]))
  }

  /** s' differs from s in no file of `keep`, and only newer keys have been drawn. */
  ghost predicate Preserves(s: Shared, s': Shared, keep: set<Path>) {
    && s.nextKey <= s'.nextKey
    && forall p :: p in keep && p in s.files ==> p in s'.files && s'.files[p] == s.files[p]
  }

  lemma CAFrame(job: Job, pc: PC, s: Shared, s': Shared)
    requires job.CreateCA? && Fits(job, pc) && GoodCA(job, pc, s) && Preserves(s, s', Owned(job, pc))
    ensures GoodCA(job, pc, s')
  {
  }

  lemma GenerateFrame(job: Job, pc: PC, s: Shared, s': Shared, x: KeyId, y: Cert)
    requires job.Generate? && Fits(job, pc) && GoodGenerate(job, pc, s, x, y) && Preserves(s, s', Owned(job, pc))
    ensures GoodGenerate(job, pc, s', x, y)
  {
  }

  // ---------- one step ----------

  /** What an operation may do to the depot: write only files that it owns afterwards. */
  ghost predicate WritesOwn(job: Job, s: Shared, q: PC, s': Shared) {
    && s.nextKey <= s'.nextKey
    && s.files.Keys <= s'.files.Keys
    && forall p :: p in s'.files && p !in Owned(job, q) ==> p in s.files && s'.files[p] == s.files[p]
  }

  lemma CAStep(job: Job, p: PC, s: Shared, a: Action)
    requires job.CreateCA? && Fits(job, p) && !Finished(p) && GoodCA(job, p, s)
    requires KeyOf(job) != CrtOf(job)
    ensures var (q, s') := FireCA(job, p, s, a);
            GoodCA(job, q, s') && WritesOwn(job, s, q, s')
  {
    hide KeyPath, CrtPath;
  }

  lemma RequestStep(job: Job, owner: PC, p: PC, s: Shared, a: Action, x: KeyId, y: Cert)
    requires job.Generate? && Requesting(p) && x < s.nextKey
    requires !p.GenWait? ==> GoodGenerate(job, p, s, x, y)
    ensures var (q, s') := FireRequest(job, owner, p, s, a);
            && (Waiting(q) || GoodGenerate(job, q, s', x, y))
            && WritesOwn(job, s, q, s') && Owned(job, q) == {}
  {
  }

  lemma SignStep(job: Job, owner: PC, p: PC, s: Shared, a: Action)
    requires job.Generate? && Fits(job, p) && !Finished(p) && !Requesting(p) && !Storing(p)
    requires owner.Done? && MatchedFiles(s.files, owner.keyFile, owner.crtFile)
    requires GoodGenerate(job, p, s, s.files[owner.keyFile].key, s.files[owner.crtFile].cert)
    ensures var (q, s') := FireSign(job, owner, p, s, a);
            && GoodGenerate(job, q, s', s.files[owner.keyFile].key, s.files[owner.crtFile].cert)
            && WritesOwn(job, s, q, s') && Owned(job, q) == {}
  {
  }

  ghost predicate StoreMove(job: Job, depot: string, p: PC, s: Shared, a: Action, q: PC, s': Shared, x: KeyId, y: Cert)
    requires job.Generate?
  {
    && GoodGenerate(job, q, s', x, y) && WritesOwn(job, s, q, s')
    && forall f :: f in Owned(job, q) && f !in Owned(job, p) ==>
         f !in s.files && '/' !in job.name && f == TempPath(depot, job.name, a.random)
  }

  lemma StoreKeyStep(job: Job, depot: string, p: PC, s: Shared, a: Action, x: KeyId, y: Cert)
    requires job.Generate? && (p.GenExportCrt? || p.GenTempKey? || p.GenWriteKey?) && GoodGenerate(job, p, s, x, y)
    ensures var (q, s') := FireStore(job, depot, p, s, a); StoreMove(job, depot, p, s, a, q, s', x, y)
  {
    hide TempPath;
  }

  lemma StoreCrtStep(job: Job, depot: string, p: PC, s: Shared, a: Action, x: KeyId, y: Cert)
    requires job.Generate? && (p.GenTempCrt? || p.GenWriteCrt?) && GoodGenerate(job, p, s, x, y)
    ensures var (q, s') := FireStore(job, depot, p, s, a); StoreMove(job, depot, p, s, a, q, s', x, y)
  {
    hide TempPath;
  }

  // ---------- every step ----------

  /** The path of an authority's file without its extension. */
  function Stem(job: Job): string
    requires job.CreateCA?
  {
    if job.depot == "" then job.name else job.depot + "/" + job.name
  }

  lemma OnStem(job: Job)
    requires job.CreateCA?
    ensures KeyOf(job) == Clean(Stem(job) + ".key") && CrtOf(job) == Clean(Stem(job) + ".crt")
    ensures EndsIn(KeyOf(job), 'y') && EndsIn(CrtOf(job), 't')
  {
    hide Clean;
    var prefix := if job.depot == "" then "" else job.depot + "/";
    assert Stem(job) + ".key" == prefix + (job.name + ".key") && Stem(job) + ".crt" == prefix + (job.name + ".crt");
    EndsInExtension(Stem(job), ".key");
    EndsInExtension(Stem(job), ".crt");
  }

  /** The two files of an authority differ, and sharing one file is sharing both. */
  lemma AuthorityPaths(c: Job, d: Job)
    requires c.CreateCA? && d.CreateCA?
    ensures KeyOf(c) != CrtOf(d)
    ensures KeyOf(c) == KeyOf(d) <==> CrtOf(c) == CrtOf(d)
  {
    hide Clean, KeyOf, CrtOf, Stem;
    OnStem(c);
    OnStem(d);
    if KeyOf(c) == KeyOf(d) {
      ExtensionsAgree(Stem(c), Stem(d), ".key", ".crt");
    } else if CrtOf(c) == CrtOf(d) {
      ExtensionsAgree(Stem(c), Stem(d), ".crt", ".key");
    }
  }

  /** One operation of a generate call: it keeps the call's invariant and takes only fresh
      temporary files. */
  ghost predicate GenerateMove(job: Job, depot: string, o: PC, p: PC, s: Shared, q: PC, s': Shared)
    requires job.Generate?
  {
    && WritesOwn(job, s, q, s')
    && (forall f :: f in Owned(job, q) && f !in Owned(job, p) ==> f !in s.files && CanDraw(depot, job.name, f))
    && (!Waiting(q) ==>
        && o.Done? && MatchedFiles(s.files, o.keyFile, o.crtFile)
        && GoodGenerate(job, q, s', s.files[o.keyFile].key, s.files[o.crtFile].cert))
  }

  lemma GenerateStep(job: Job, depot: string, o: PC, p: PC, s: Shared, a: Action)
    requires job.Generate? && Fits(job, p) && !Finished(p) && (!o.Done? ==> p.GenWait?)
    requires o.Done? ==>
      && MatchedFiles(s.files, o.keyFile, o.crtFile) && s.files[o.keyFile].key < s.nextKey
      && (p.GenWait? || GoodGenerate(job, p, s, s.files[o.keyFile].key, s.files[o.crtFile].cert))
    ensures var (q, s') := FireGenerate(job, depot, o, p, s, a);
            GenerateMove(job, depot, o, p, s, q, s')
  {
    if o.Done? {
      var x, y := s.files[o.keyFile].key, s.files[o.crtFile].cert;
      if Storing(p) {
        if p.GenTempCrt? || p.GenWriteCrt? {
          StoreCrtStep(job, depot, p, s, a, x, y);
        } else {
          StoreKeyStep(job, depot, p, s, a, x, y);
        }
      } else if Requesting(p) {
        RequestStep(job, o, p, s, a, x, y);
      } else {
        SignStep(job, o, p, s, a);
      }
    }
  }

  /** The thread that is scheduled keeps its invariant. */
  lemma OwnStep(jobs: seq<Job>, s: State, a: Action)
    requires WellFormed(jobs) && FilesInv(jobs, s) && Enabled(jobs, s, a.tid)
    ensures var (q, s') := Fire(jobs, s, a);
            var job := jobs[a.tid];
            && WritesOwn(job, s.shared, q, s')
            && if job.CreateCA? then GoodCA(job, q, s')
               else GenerateMove(job, jobs[job.owner].depot, s.threads[job.owner], s.threads[a.tid], s.shared, q, s')
  {
    hide FireCA, FireGenerate, KeyPath, CrtPath, TempPath;
    var job, p := jobs[a.tid], s.threads[a.tid];
    assert GoodThread(jobs, s, a.tid);
    if job.CreateCA? {
      AuthorityPaths(job, job);
      CAStep(job, p, s.shared, a);
    } else {
      assert GoodThread(jobs, s, job.owner);
      GenerateStep(job, jobs[job.owner].depot, s.threads[job.owner], p, s.shared, a);
    }
  }

  lemma OwnedOnDisk(jobs: seq<Job>, s: State, u: nat)
    requires WellFormed(jobs) && FilesInv(jobs, s) && u < |jobs|
    requires jobs[u].Generate? || s.threads[u].Done?
    ensures Owned(jobs[u], s.threads[u]) <= s.shared.files.Keys
  {
    hide KeyPath, CrtPath;
    assert GoodThread(jobs, s, u);
  }

  /** No other thread owns a file that the scheduled thread owns after its step. */
  lemma StaysApart(jobs: seq<Job>, s: State, a: Action, u: nat)
    requires WellFormed(jobs) && Separate(jobs) && FilesInv(jobs, s) && Enabled(jobs, s, a.tid)
    requires u < |jobs| && u != a.tid
    ensures Owned(jobs[a.tid], Fire(jobs, s, a).0) !! Owned(jobs[u], s.threads[u])
  {
    hide Fire, KeyPath, CrtPath, TempPath, GoodCA, GoodGenerate;
    var t, q := a.tid, Fire(jobs, s, a).0;
    assert Owned(jobs[t], s.threads[t]) !! Owned(jobs[u], s.threads[u]);
    if jobs[t].Generate? {
      OwnStep(jobs, s, a);
      if jobs[u].Generate? || s.threads[u].Done? {
        OwnedOnDisk(jobs, s, u);
      } else if u != jobs[t].owner {
        assert !CanDrawFileOf(jobs[jobs[t].owner].depot, jobs[t].name, jobs[u]);
      }
    }
  }

  lemma OthersKept(jobs: seq<Job>, s: State, a: Action, u: nat)
    requires WellFormed(jobs) && Separate(jobs) && FilesInv(jobs, s) && Enabled(jobs, s, a.tid)
    requires u < |jobs| && u != a.tid
    ensures Preserves(s.shared, Fire(jobs, s, a).1, Owned(jobs[u], s.threads[u]))
    ensures GoodThread(jobs, Step(jobs, s, a), u)
  {
    hide Fire, KeyPath, CrtPath;
    OwnStep(jobs, s, a);
    StaysApart(jobs, s, a, u);
    assert GoodThread(jobs, s, u);
    var s' := Fire(jobs, s, a).1;
    if jobs[u].CreateCA? {
      CAFrame(jobs[u], s.threads[u], s.shared, s');
    } else if !Waiting(s.threads[u]) {
      var o := jobs[u].owner;
      StaysApart(jobs, s, a, o);
      CAFrame(jobs[o], s.threads[o], s.shared, s');
      GenerateFrame(jobs[u], s.threads[u], s.shared, s',
                    s.shared.files[s.threads[o].keyFile].key, s.shared.files[s.threads[o].crtFile].cert);
    }
  }

  lemma FilesStep(jobs: seq<Job>, s: State, a: Action)
    requires WellFormed(jobs) && Separate(jobs) && FilesInv(jobs, s)
    ensures FilesInv(jobs, Step(jobs, s, a))
  {
    hide Fire, KeyPath, CrtPath;
    if Enabled(jobs, s, a.tid) {
      var t, s' := a.tid, Step(jobs, s, a);
      StepMoves(jobs, s, a);
      OwnStep(jobs, s, a);
      forall u | 0 <= u < |jobs| && u != t
        ensures GoodThread(jobs, s', u)
        ensures Owned(jobs[t], s'.threads[t]) !! Owned(jobs[u], s'.threads[u])
      {
        OthersKept(jobs, s, a, u);
        StaysApart(jobs, s, a, u);
      }
      if jobs[t].Generate? && !Waiting(s'.threads[t]) {
        var o := jobs[t].owner;
        assert GoodThread(jobs, s, o);
        OthersKept(jobs, s, a, o);
        CAFrame(jobs[o], s.threads[o], s.shared, s'.shared);
      }
      assert GoodThread(jobs, s', t);
    }
  }

  lemma {:induction false} FilesExec(jobs: seq<Job>, s: State, run: seq<Action>)
    requires WellFormed(jobs) && Separate(jobs) && FilesInv(jobs, s)
    ensures FilesInv(jobs, Exec(jobs, s, run))
    decreases |run|
  {
    if run != [] {
      FilesStep(jobs, s, run[0]);
      FilesExec(jobs, Step(jobs, s, run[0]), run[1..]);
    }
  }

  lemma InitFiles(jobs: seq<Job>, disk: map<Path, Contents>)
    requires WellFormed(jobs) && Separate(jobs)
    ensures FilesInv(jobs, Init(jobs, disk))
  {
    hide KeyPath, CrtPath;
    var s := Init(jobs, disk);
    forall t, u | 0 <= t < |jobs| && 0 <= u < |jobs| && t != u
      ensures Owned(jobs[t], s.threads[t]) !! Owned(jobs[u], s.threads[u])
    {
      if jobs[t].CreateCA? && jobs[u].CreateCA? {
        AuthorityPaths(jobs[t], jobs[u]);
        AuthorityPaths(jobs[u], jobs[t]);
      }
    }
  }

  lemma InvIsSound(jobs: seq<Job>, s: State)
    requires WellFormed(jobs) && FilesInv(jobs, s)
    ensures Sound(jobs, s)
  {
    hide KeyPath, CrtPath;
    forall t | 0 <= t < |jobs| ensures SoundThread(jobs, s, t) {
      assert GoodThread(jobs, s, t);
    }
  }

  // ---------- returned files stay ----------

  lemma KeptNow(jobs: seq<Job>, s: State, t: nat)
    requires WellFormed(jobs) && FilesInv(jobs, s) && t < |jobs|
    ensures Kept(s, s, t)
  {
    hide KeyPath, CrtPath;
    if s.threads[t].Done? {
      assert GoodThread(jobs, s, t);
      OwnedOnDisk(jobs, s, t);
    }
  }

  lemma KeptStep(jobs: seq<Job>, s: State, a: Action, t: nat)
    requires WellFormed(jobs) && Separate(jobs) && FilesInv(jobs, s) && t < |jobs|
    ensures Kept(s, Step(jobs, s, a), t)
  {
    hide Fire, KeyPath, CrtPath, GoodGenerate;
    KeptNow(jobs, s, t);
    if s.threads[t].Done? && Enabled(jobs, s, a.tid) {
      assert GoodThread(jobs, s, t);
      OthersKept(jobs, s, a, t);
    }
  }

  lemma {:induction false} KeptExec(jobs: seq<Job>, s: State, later: seq<Action>, t: nat)
    requires WellFormed(jobs) && Separate(jobs) && FilesInv(jobs, s) && t < |jobs|
    ensures Kept(s, Exec(jobs, s, later), t)
    decreases |later|
  {
    KeptNow(jobs, s, t);
    if later != [] {
      KeptStep(jobs, s, later[0], t);
      FilesStep(jobs, s, later[0]);
      KeptExec(jobs, Step(jobs, s, later[0]), later[1..], t);
    }
  }

  /** Whatever happens after a call has returned, its result and the contents of its two files
      stay: no call overwrites what another one has returned. */
  lemma FinishedFilesKept(jobs: seq<Job>, disk: map<Path, Contents>, run: seq<Action>, later: seq<Action>, t: nat)
    requires WellFormed(jobs) && Separate(jobs) && t < |jobs|
    ensures Kept(Exec(jobs, Init(jobs, disk), run), Exec(jobs, Init(jobs, disk), run + later), t)
  {
    InitFiles(jobs, disk);
    FilesExec(jobs, Init(jobs, disk), run);
    ExecConcat(jobs, Init(jobs, disk), run, later);
    KeptExec(jobs, Exec(jobs, Init(jobs, disk), run), later, t);
  }

  /** Safety over all interleavings, failures and initial depots. */
  lemma SeparateIsSound(jobs: seq<Job>)
    requires WellFormed(jobs) && Separate(jobs)
    ensures AlwaysSound(jobs)
  {
    forall disk: map<Path, Contents>, run: seq<Action>
      ensures Sound(jobs, Exec(jobs, Init(jobs, disk), run))
    {
      InitFiles(jobs, disk);
      FilesExec(jobs, Init(jobs, disk), run);
      InvIsSound(jobs, Exec(jobs, Init(jobs, disk), run));
    }
    forall disk: map<Path, Contents>, run: seq<Action>, later: seq<Action>
      ensures AllKept(Exec(jobs, Init(jobs, disk), run), Exec(jobs, Init(jobs, disk), run + later))
    {
      forall t | 0 <= t < |jobs|
        ensures Kept(Exec(jobs, Init(jobs, disk), run), Exec(jobs, Init(jobs, disk), run + later), t)
      {
        FinishedFilesKept(jobs, disk, run, later, t);
      }
    }
  }
}
