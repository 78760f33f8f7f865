/**
 The two procedures of certauthority.go in their own form: straight-line code over the two
 global mutexes and the depot, with an unlock on every error exit.  Each is proved to do what
 its thread of the protocol does when no other thread interferes.
 */
module CertProcedures {
  import opened CertExact
  import opened CertIssuance
  import opened CertLocks
  import opened CertProtocol
  import opened DepotPaths

  datatype Result = Files(keyFile: Path, crtFile: Path) | Error

  /** Stands for the authority that is not there when an error is returned. */
  const NO_PATH := Path(false, [])

  datatype CertAuthority = CertAuthority(depotDir: string, caCert: Path, caKey: Path) {
    function CAAndKey(): (Path, Path) { (caKey, caCert) }
  }

  /** A thread with its procedure still to run from pc, alone; `env(n)` decides operation n. */
  ghost function AloneCA(job: Job, pc: PC, s: Shared, env: nat -> Action, n: nat): (PC, Shared)
    requires job.CreateCA? && Fits(job, pc)
    decreases Rank(pc)
  {
    if !Free(pc, s) then (pc, s)
    else
      CAMoves(job, pc, s, env(n));
      var (q, s') := FireCA(job, pc, s, env(n));
      AloneCA(job, q, s', env, n + 1)
  }

  ghost function AloneGenerate(job: Job, depot: string, owner: PC, pc: PC, s: Shared, env: nat -> Action, n: nat)
    : (PC, Shared)
    requires job.Generate? && Fits(job, pc)
    decreases Rank(pc)
  {
    if !Free(pc, s) then (pc, s)
    else
      GenerateMoves(job, depot, owner, pc, s, env(n));
      var (q, s') := FireGenerate(job, depot, owner, pc, s, env(n));
      AloneGenerate(job, depot, owner, q, s', env, n + 1)
  }

  lemma CAGoes(job: Job, pc: PC, s: Shared, env: nat -> Action, n: nat)
    requires job.CreateCA? && Fits(job, pc) && Free(pc, s)
    ensures var (q, s') := FireCA(job, pc, s, env(n));
            Fits(job, q) && AloneCA(job, pc, s, env, n) == AloneCA(job, q, s', env, n + 1)
  {
    CAMoves(job, pc, s, env(n));
  }

  /** The last steps: from an error exit, or already returned. */
  lemma CAReturns(job: Job, pc: PC, s: Shared, env: nat -> Action, n: nat)
    requires job.CreateCA? && (Finished(pc) || pc.FailCaUnlock?)
    ensures AloneCA(job, pc, s, env, n) ==
            if pc.FailCaUnlock? then (Failed, s.(caLock := false)) else (pc, s)
  {
  }

  lemma GenerateGoes(job: Job, depot: string, owner: PC, pc: PC, s: Shared, env: nat -> Action, n: nat)
    requires job.Generate? && Fits(job, pc) && Free(pc, s)
    ensures var (q, s') := FireGenerate(job, depot, owner, pc, s, env(n));
            && Fits(job, q)
            && AloneGenerate(job, depot, owner, pc, s, env, n) == AloneGenerate(job, depot, owner, q, s', env, n + 1)
  {
    GenerateMoves(job, depot, owner, pc, s, env(n));
  }

  lemma RequestGoes(job: Job, depot: string, owner: PC, pc: PC, s: Shared, env: nat -> Action, n: nat)
    requires job.Generate? && Requesting(pc) && Free(pc, s)
    ensures var (q, s') := FireRequest(job, owner, pc, s, env(n));
            && Fits(job, q)
            && AloneGenerate(job, depot, owner, pc, s, env, n) == AloneGenerate(job, depot, owner, q, s', env, n + 1)
  {
    hide AloneGenerate, FireRequest, FireSign, FireStore;
    GenerateGoes(job, depot, owner, pc, s, env, n);
  }

  lemma GenerateReturns(job: Job, depot: string, owner: PC, pc: PC, s: Shared, env: nat -> Action, n: nat)
    requires job.Generate? && Fits(job, pc) && (Finished(pc) || pc.FailCaUnlock? || pc.FailCsrUnlock?)
    ensures AloneGenerate(job, depot, owner, pc, s, env, n) ==
            if pc.FailCaUnlock? then (Failed, s.(caLock := false))
            else if pc.FailCsrUnlock? then (Failed, s.(csrLock := false))
            else (pc, s)
  {
  }

  /** What a finished thread hands to its caller. */
  function Outcome(pc: PC): Result {
    if pc.Done? then Files(pc.keyFile, pc.crtFile) else Error
  }

  ghost predicate Holds(files: map<Path, Contents>, p: Path, contents: Contents) {
    p in files && files[p] == contents
  }

  /** The calls of an authority from its request on succeed; the unlock between them cannot fail. */
  predicate SignedAndWritten(env: nat -> Action) {
    env(4).ok && env(5).ok && env(7).ok && env(8).ok && env(9).ok && env(10).ok
  }

  /** A key and a certificate are put into two new files, which are returned in this order. */
  ghost predicate Stored(before: map<Path, Contents>, files: map<Path, Contents>, dir: string, pattern: string,
                         r1: uint32, r2: uint32, r: Result, key: KeyId, crt: Cert)
    requires r.Files?
  {
    && r.keyFile == TempPath(dir, pattern, r1) && r.crtFile == TempPath(dir, pattern, r2)
    && r.keyFile !in before && r.crtFile !in before
    && Holds(files, r.keyFile, KeyPem(key)) && Holds(files, r.crtFile, CertPem(crt))
  }

  lemma WrittenPaths(depotDir: string, commonName: string)
    ensures KeyPath(depotDir, commonName) == Join(depotDir, commonName + ".key")
    ensures CrtPath(depotDir, commonName) == Join(depotDir, commonName + ".crt")
    ensures Join(depotDir, commonName + ".key") != Join(depotDir, commonName + ".crt")
  {
    var job := CreateCA(depotDir, commonName);
    AuthorityPaths(job, job);
  }

  class Host {
    var caLock: bool
    var csrLock: bool
    var nextKey: KeyId
    var files: map<Path, Contents>

    ghost function View(): Shared
      reads this
    {
      Shared(caLock, csrLock, nextKey, files)
    }

    constructor (disk: map<Path, Contents>)
      ensures View() == Shared(false, false, 0, disk)
    {
      caLock, csrLock, nextKey, files := false, false, 0, disk;
    }

    /** generateCAAndKey up to the signed certificate: every path that takes caLock releases it. */
    method GenerateCAAndKey(depotDir: string, commonName: string, env: nat -> Action) returns (r: Result)
      requires !caLock
      modifies this
      ensures !caLock && csrLock == old(csrLock)
      ensures var (pc, s) := AloneCA(CreateCA(depotDir, commonName), CaNewKey, old(View()), env, 0);
              View() == s && Finished(pc) && r == Outcome(pc)
      ensures r.Files? <==> env(0).ok && env(2).ok && env(3).ok && SignedAndWritten(env)
      ensures r.Files? ==>
                && r.keyFile == Join(depotDir, commonName + ".key") && r.crtFile == Join(depotDir, commonName + ".crt")
                && r.keyFile in files && files[r.keyFile].KeyPem?
                && r.crtFile in files && files[r.crtFile].CertPem?
                && files[r.crtFile].cert.pub == files[r.keyFile].key
                && files[r.crtFile].cert.subject == commonName
    {
      hide AloneCA, KeyPath, CrtPath, Rank;
      ghost var job, sh := CreateCA(depotDir, commonName), View();
      CAGoes(job, CaNewKey, sh, env, 0);
      if !env(0).ok {
        CAReturns(job, Failed, sh, env, 1);
        return Error;
      }
      var caKey := nextKey;
      nextKey := nextKey + 1;
      sh := View();

      CAGoes(job, CaLock(caKey), sh, env, 1);
      caLock := true;
      sh := View();

      CAGoes(job, CaSelfSign(caKey), sh, env, 2);
      if !env(2).ok {
        CAReturns(job, FailCaUnlock, sh, env, 3);
        caLock := false;
        return Error;
      }
      var ca := Cert(commonName, caKey, commonName, caKey, true);

      CAGoes(job, CaNewCrtKey(caKey, ca), sh, env, 3);
      if !env(3).ok {
        CAReturns(job, FailCaUnlock, sh, env, 4);
        caLock := false;
        return Error;
      }
      var crtKey := nextKey;
      nextKey := nextKey + 1;
      sh := View();

      r := IssueAuthority(depotDir, commonName, caKey, ca, crtKey, env);
    }

    /** Still under caLock: the request and the authority's certificate, signed by the root. */
    method IssueAuthority(depotDir: string, commonName: string, caKey: KeyId, ca: Cert, crtKey: KeyId, env: nat -> Action)
      returns (r: Result)
      requires caLock
      modifies this
      ensures !caLock && csrLock == old(csrLock)
      ensures var (pc, s) := AloneCA(CreateCA(depotDir, commonName), CaCsr(caKey, ca, crtKey), old(View()), env, 4);
              View() == s && Finished(pc) && r == Outcome(pc)
      ensures r.Files? <==> SignedAndWritten(env)
      ensures r.Files? ==>
                && r.keyFile == Join(depotDir, commonName + ".key") && r.crtFile == Join(depotDir, commonName + ".crt")
                && Holds(files, r.keyFile, KeyPem(crtKey))
                && Holds(files, r.crtFile, CertPem(Cert(commonName, crtKey, ca.subject, caKey, true)))
    {
      hide AloneCA, KeyPath, CrtPath, Rank;
      ghost var job, sh := CreateCA(depotDir, commonName), View();
      CAGoes(job, CaCsr(caKey, ca, crtKey), sh, env, 4);
      if !env(4).ok {
        CAReturns(job, FailCaUnlock, sh, env, 5);
        caLock := false;
        return Error;
      }
      var csr := Csr(commonName, crtKey);

      CAGoes(job, CaSign(caKey, ca, crtKey, csr), sh, env, 5);
      if !env(5).ok {
        CAReturns(job, FailCaUnlock, sh, env, 6);
        caLock := false;
        return Error;
      }
      var crt := Cert(csr.subject, csr.pub, ca.subject, caKey, true);

      CAGoes(job, CaUnlock(crtKey, crt), sh, env, 6);
      caLock := false;
      sh := View();

      r := WriteCAAndKey(depotDir, commonName, crtKey, crt, env);
    }

    /** The rest of generateCAAndKey, after caLock is released: export and write the key, then
        the certificate. */
    method WriteCAAndKey(depotDir: string, commonName: string, crtKey: KeyId, crt: Cert, env: nat -> Action)
      returns (r: Result)
      modifies `files
      ensures var (pc, s) := AloneCA(CreateCA(depotDir, commonName), CaExportCrt(crtKey, crt), old(View()), env, 7);
              View() == s && Finished(pc) && r == Outcome(pc)
      ensures r.Files? <==> env(7).ok && env(8).ok && env(9).ok && env(10).ok
      ensures r.Files? ==>
                && r.keyFile == Join(depotDir, commonName + ".key") && r.crtFile == Join(depotDir, commonName + ".crt")
                && Holds(files, r.keyFile, KeyPem(crtKey)) && Holds(files, r.crtFile, CertPem(crt))
      ensures files == (if !env(7).ok || !env(8).ok || !env(9).ok then old(files)
                        else if !env(10).ok then old(files)[Join(depotDir, commonName + ".key") := KeyPem(crtKey)]
                        else old(files)[Join(depotDir, commonName + ".key") := KeyPem(crtKey)]
                                       [Join(depotDir, commonName + ".crt") := CertPem(crt)])
    {
      hide AloneCA, KeyPath, CrtPath, Rank, Join;
      WrittenPaths(depotDir, commonName);
      ghost var job, sh := CreateCA(depotDir, commonName), View();
      CAGoes(job, CaExportCrt(crtKey, crt), sh, env, 7);
      if !env(7).ok {
        CAReturns(job, Failed, sh, env, 8);
        return Error;
      }

      CAGoes(job, CaExportKey(crtKey, crt), sh, env, 8);
      if !env(8).ok {
        CAReturns(job, Failed, sh, env, 9);
        return Error;
      }

      var keyFile := KeyPath(depotDir, commonName);
      CAGoes(job, CaWriteKey(crtKey, crt), sh, env, 9);
      if !env(9).ok {
        CAReturns(job, Failed, sh, env, 10);
        return Error;
      }
      files := files[keyFile := KeyPem(crtKey)];
      sh := View();

      var crtFile := CrtPath(depotDir, commonName);
      CAGoes(job, CaWriteCrt(crtKey, crt), sh, env, 10);
      if !env(10).ok {
        CAReturns(job, Failed, sh, env, 11);
        return Error;
      }
      files := files[crtFile := CertPem(crt)];
      sh := View();

      CAReturns(job, Done(keyFile, crtFile), sh, env, 11);
      return Files(keyFile, crtFile);
    }

    method NewCertAuthority(depotDir: string, commonName: string, env: nat -> Action)
      returns (authority: CertAuthority, ok: bool)
      requires !caLock
      modifies this
      ensures !caLock && csrLock == old(csrLock)
      ensures var (pc, s) := AloneCA(CreateCA(depotDir, commonName), CaNewKey, old(View()), env, 0);
              && View() == s
              && (ok <==> pc.Done?)
              && (ok ==> authority.CAAndKey() == (pc.keyFile, pc.crtFile))
              && (ok ==> authority == CertAuthority(depotDir, pc.crtFile, pc.keyFile))
      ensures ok <==> env(0).ok && env(2).ok && env(3).ok && SignedAndWritten(env)
      ensures ok ==>
                && authority.caKey == Join(depotDir, commonName + ".key")
                && authority.caCert == Join(depotDir, commonName + ".crt")
                && authority.caKey in files && files[authority.caKey].KeyPem?
                && authority.caCert in files && files[authority.caCert].CertPem?
                && files[authority.caCert].cert.pub == files[authority.caKey].key
    {
      var r := GenerateCAAndKey(depotDir, commonName, env);
      match r
      case Error => authority, ok := CertAuthority("", NO_PATH, NO_PATH), false;
      case Files(key, cert) => authority, ok := CertAuthority(depotDir, cert, key), true;
    }

    /** GenerateSelfSignedCertAndKey, whose first part makes the key and, under csrLock, the
        request.  `creator` is the thread that made the authority `c`. */
    method GenerateSelfSignedCertAndKey(c: CertAuthority, commonName: string, intermediateCA: bool,
                                        env: nat -> Action, ghost creator: nat)
      returns (r: Result)
      requires !caLock && !csrLock
      modifies this
      ensures !caLock && !csrLock
      ensures var (pc, s) := AloneGenerate(Generate(creator, commonName, intermediateCA), c.depotDir,
                                           Done(c.caKey, c.caCert), GenNewKey, old(View()), env, 0);
              View() == s && Finished(pc) && r == Outcome(pc)
      ensures r.Files? ==>
                && r.keyFile == TempPath(c.depotDir, commonName, env(13).random)
                && r.crtFile == TempPath(c.depotDir, commonName, env(15).random)
                && r.keyFile !in old(files) && r.crtFile !in old(files)
                && r.keyFile in files && files[r.keyFile].KeyPem?
                && r.crtFile in files && files[r.crtFile].CertPem?
                && files[r.crtFile].cert.pub == files[r.keyFile].key
                && files[r.crtFile].cert.subject == commonName
                && files[r.crtFile].cert.isCA == intermediateCA
                && c.caKey in old(files) && c.caCert in old(files)
                && old(files)[c.caKey] == KeyPem(files[r.crtFile].cert.issuer)
                && old(files)[c.caCert].CertPem?
                && files[r.crtFile].cert.issuerName == old(files)[c.caCert].cert.subject
    {
      hide AloneGenerate;
      ghost var job, owner, sh := Generate(creator, commonName, intermediateCA), Done(c.caKey, c.caCert), View();
      RequestGoes(job, c.depotDir, owner, GenNewKey, sh, env, 0);
      if !env(0).ok {
        GenerateReturns(job, c.depotDir, owner, Failed, sh, env, 1);
        return Error;
      }
      var key := nextKey;
      nextKey := nextKey + 1;
      sh := View();

      RequestGoes(job, c.depotDir, owner, GenExportKey(key), sh, env, 1);
      if !env(1).ok {
        GenerateReturns(job, c.depotDir, owner, Failed, sh, env, 2);
        return Error;
      }

      RequestGoes(job, c.depotDir, owner, GenCsrLock(key), sh, env, 2);
      csrLock := true;
      sh := View();

      RequestGoes(job, c.depotDir, owner, GenCsr(key), sh, env, 3);
      if !env(3).ok {
        GenerateReturns(job, c.depotDir, owner, FailCsrUnlock, sh, env, 4);
        csrLock := false;
        return Error;
      }
      var csr := Csr(commonName, key);

      RequestGoes(job, c.depotDir, owner, GenCsrUnlock(key, csr), sh, env, 4);
      csrLock := false;
      sh := View();

      r := ReadAuthority(c, commonName, intermediateCA, key, csr, env, creator);
    }

    /** The second part: read the authority's files. */
    method ReadAuthority(c: CertAuthority, commonName: string, intermediateCA: bool, key: KeyId, csr: Csr,
                    env: nat -> Action, ghost creator: nat)
      returns (r: Result)
      requires !caLock && !csrLock
      modifies this
      ensures !caLock && !csrLock
      ensures var (pc, s) := AloneGenerate(Generate(creator, commonName, intermediateCA), c.depotDir,
                                           Done(c.caKey, c.caCert), GenReadCrt(key, csr), old(View()), env, 5);
              View() == s && Finished(pc) && r == Outcome(pc)
      ensures r.Files? ==>
                && c.caKey in old(files) && old(files)[c.caKey].KeyPem?
                && c.caCert in old(files) && old(files)[c.caCert].CertPem?
                && var ca, caKey := old(files)[c.caCert].cert, old(files)[c.caKey].key;
                   Stored(old(files), files, c.depotDir, commonName, env(13).random, env(15).random, r, key,
                          Cert(csr.subject, csr.pub, ca.subject, caKey, intermediateCA))
    {
      hide AloneGenerate, Rank, FireRequest, FireStore;
      ghost var job, owner, sh := Generate(creator, commonName, intermediateCA), Done(c.caKey, c.caCert), View();
      GenerateGoes(job, c.depotDir, owner, GenReadCrt(key, csr), sh, env, 5);
      if !env(5).ok || c.caCert !in files {
        GenerateReturns(job, c.depotDir, owner, Failed, sh, env, 6);
        return Error;
      }
      var caBytes := files[c.caCert];

      GenerateGoes(job, c.depotDir, owner, GenParseCrt(key, csr, caBytes), sh, env, 6);
      if !env(6).ok || !caBytes.CertPem? {
        GenerateReturns(job, c.depotDir, owner, Failed, sh, env, 7);
        return Error;
      }
      var ca := caBytes.cert;

      GenerateGoes(job, c.depotDir, owner, GenReadKey(key, csr, ca), sh, env, 7);
      if !env(7).ok || c.caKey !in files {
        GenerateReturns(job, c.depotDir, owner, Failed, sh, env, 8);
        return Error;
      }
      var caKeyBytes := files[c.caKey];

      GenerateGoes(job, c.depotDir, owner, GenParseKey(key, csr, ca, caKeyBytes), sh, env, 8);
      if !env(8).ok || !caKeyBytes.KeyPem? {
        GenerateReturns(job, c.depotDir, owner, Failed, sh, env, 9);
        return Error;
      }
      var caKey := caKeyBytes.key;

      r := SignCert(c, commonName, intermediateCA, key, csr, ca, caKey, env, creator);
    }

    /** The third part: sign under caLock. */
    method SignCert(c: CertAuthority, commonName: string, intermediateCA: bool, key: KeyId, csr: Csr, ca: Cert, caKey: KeyId,
                    env: nat -> Action, ghost creator: nat)
      returns (r: Result)
      requires !caLock && !csrLock
      modifies this
      ensures !caLock && !csrLock
      ensures var (pc, s) := AloneGenerate(Generate(creator, commonName, intermediateCA), c.depotDir,
                                           Done(c.caKey, c.caCert), GenCaLock(key, csr, ca, caKey), old(View()), env, 9);
              View() == s && Finished(pc) && r == Outcome(pc)
      ensures r.Files? ==>
                Stored(old(files), files, c.depotDir, commonName, env(13).random, env(15).random, r, key,
                       Cert(csr.subject, csr.pub, ca.subject, caKey, intermediateCA))
    {
      hide AloneGenerate, Rank, FireRequest, FireStore;
      ghost var job, owner, sh := Generate(creator, commonName, intermediateCA), Done(c.caKey, c.caCert), View();
      GenerateGoes(job, c.depotDir, owner, GenCaLock(key, csr, ca, caKey), sh, env, 9);
      caLock := true;
      sh := View();

      GenerateGoes(job, c.depotDir, owner, GenSign(key, csr, ca, caKey), sh, env, 10);
      if !env(10).ok {
        GenerateReturns(job, c.depotDir, owner, FailCaUnlock, sh, env, 11);
        caLock := false;
        return Error;
      }
      var crt := Cert(csr.subject, csr.pub, ca.subject, caKey, intermediateCA);

      GenerateGoes(job, c.depotDir, owner, GenCaUnlock(key, crt), sh, env, 11);
      caLock := false;
      sh := View();

      r := StoreKey(c, commonName, intermediateCA, key, crt, env, creator);
    }

    /** The fourth part: export the certificate and store the key in a temporary file. */
    method StoreKey(c: CertAuthority, commonName: string, intermediateCA: bool, key: KeyId, crt: Cert,
                           env: nat -> Action, ghost creator: nat)
      returns (r: Result)
      modifies `files
      ensures var (pc, s) := AloneGenerate(Generate(creator, commonName, intermediateCA), c.depotDir,
                                           Done(c.caKey, c.caCert), GenExportCrt(key, crt), old(View()), env, 12);
              View() == s && Finished(pc) && r == Outcome(pc)
      ensures r.Files? ==>
                Stored(old(files), files, c.depotDir, commonName, env(13).random, env(15).random, r, key,
                       crt)
    {
      hide AloneGenerate, Rank, FireRequest, FireSign, TempPath;
      ghost var job, owner, sh := Generate(creator, commonName, intermediateCA), Done(c.caKey, c.caCert), View();
      GenerateGoes(job, c.depotDir, owner, GenExportCrt(key, crt), sh, env, 12);
      if !env(12).ok {
        GenerateReturns(job, c.depotDir, owner, Failed, sh, env, 13);
        return Error;
      }

      var keyFile := TempPath(c.depotDir, commonName, env(13).random);
      GenerateGoes(job, c.depotDir, owner, GenTempKey(key, crt), sh, env, 13);
      if !env(13).ok || '/' in commonName || keyFile in files {
        GenerateReturns(job, c.depotDir, owner, Failed, sh, env, 14);
        return Error;
      }
      files := files[keyFile := Blank];
      sh := View();

      GenerateGoes(job, c.depotDir, owner, GenWriteKey(key, crt, keyFile), sh, env, 14);
      if !env(14).ok {
        GenerateReturns(job, c.depotDir, owner, Failed, sh, env, 15);
        return Error;
      }
      files := files[keyFile := KeyPem(key)];
      sh := View();

      r := StoreCert(c, commonName, intermediateCA, key, crt, keyFile, env, creator);
    }

    /** The last part: store the certificate in another temporary file. */
    method StoreCert(c: CertAuthority, commonName: string, intermediateCA: bool, key: KeyId, crt: Cert, keyFile: Path,
                     env: nat -> Action, ghost creator: nat)
      returns (r: Result)
      modifies `files
      ensures var (pc, s) := AloneGenerate(Generate(creator, commonName, intermediateCA), c.depotDir,
                                           Done(c.caKey, c.caCert), GenTempCrt(key, crt, keyFile), old(View()), env, 15);
              View() == s && Finished(pc) && r == Outcome(pc)
      ensures r.Files? ==>
                && r.keyFile == keyFile && r.crtFile == TempPath(c.depotDir, commonName, env(15).random)
                && r.crtFile !in old(files) && files == old(files)[r.crtFile := CertPem(crt)]
    {
      hide AloneGenerate, Rank, FireRequest, FireSign, TempPath;
      ghost var job, owner, sh := Generate(creator, commonName, intermediateCA), Done(c.caKey, c.caCert), View();
      var crtFile := TempPath(c.depotDir, commonName, env(15).random);
      GenerateGoes(job, c.depotDir, owner, GenTempCrt(key, crt, keyFile), sh, env, 15);
      if !env(15).ok || '/' in commonName || crtFile in files {
        GenerateReturns(job, c.depotDir, owner, Failed, sh, env, 16);
        return Error;
      }
      files := files[crtFile := Blank];
      sh := View();

      GenerateGoes(job, c.depotDir, owner, GenWriteCrt(key, crt, keyFile, crtFile), sh, env, 16);
      if !env(16).ok {
        GenerateReturns(job, c.depotDir, owner, Failed, sh, env, 17);
        return Error;
      }
      files := files[crtFile := CertPem(crt)];
      sh := View();

      GenerateReturns(job, c.depotDir, owner, Done(keyFile, crtFile), sh, env, 17);
      return Files(keyFile, crtFile);
    }
  }

  // ---------- running alone is a run of the protocol ----------

  /** A procedure whose locks are free when it starts, run by thread t with no other thread
      scheduled, is a run of the protocol, and it leaves the other threads where they are. */
  lemma {:induction false} AloneCAIsRun(jobs: seq<Job>, s: State, t: nat, env: nat -> Action, n: nat)
    returns (run: seq<Action>)
    requires WellFormed(jobs) && AllFit(jobs, s) && t < |jobs| && jobs[t].CreateCA?
    requires forall i :: env(i).tid == t
    ensures var (pc, shared) := AloneCA(jobs[t], s.threads[t], s.shared, env, n);
            Exec(jobs, s, run) == State(shared, s.threads[t := pc])
    decreases Rank(s.threads[t])
  {
    var pc := s.threads[t];
    if !Free(pc, s.shared) {
      run := [];
      assert s.threads[t := pc] == s.threads;
    } else {
      CAMoves(jobs[t], pc, s.shared, env(n));
      var s' := Step(jobs, s, env(n));
      var rest := AloneCAIsRun(jobs, s', t, env, n + 1);
      run := [env(n)] + rest;
      ExecOne(jobs, s, env(n), rest);
    }
  }

  lemma {:induction false} AloneGenerateIsRun(jobs: seq<Job>, s: State, t: nat, env: nat -> Action, n: nat)
    returns (run: seq<Action>)
    requires WellFormed(jobs) && AllFit(jobs, s) && t < |jobs| && jobs[t].Generate?
    requires forall i :: env(i).tid == t
    ensures var o := jobs[t].owner;
            var (pc, shared) := AloneGenerate(jobs[t], jobs[o].depot, s.threads[o], s.threads[t], s.shared, env, n);
            Exec(jobs, s, run) == State(shared, s.threads[t := pc])
    decreases Rank(s.threads[t])
  {
    var pc, o := s.threads[t], jobs[t].owner;
    if !Free(pc, s.shared) {
      run := [];
      assert s.threads[t := pc] == s.threads;
    } else {
      GenerateMoves(jobs[t], jobs[o].depot, s.threads[o], pc, s.shared, env(n));
      var s' := Step(jobs, s, env(n));
      var rest := AloneGenerateIsRun(jobs, s', t, env, n + 1);
      run := [env(n)] + rest;
      ExecOne(jobs, s, env(n), rest);
    }
  }

  lemma ExecOne(jobs: seq<Job>, s: State, a: Action, rest: seq<Action>)
    requires WellFormed(jobs) && |s.threads| == |jobs|
    ensures Exec(jobs, s, [a] + rest) == Exec(jobs, Step(jobs, s, a), rest)
  {
    assert ([a] + rest)[1..] == rest;
  }
}
