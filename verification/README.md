# Proofs about inigo's own logic

inigo is the integration suite of Diego. Most of it drives other programs; a small part decides
something itself, and that part is modelled here in Dafny 4.11 and proved correct, or proved to be
correct exactly under a stated condition. `dafny verify dfyconfig.toml` checks everything.

## What is modelled

- **Certificates** (`Cert*.dfy`). `CertProtocol` is the certificate helper as a protocol: any number
  of threads, each in `generateCAAndKey` or `GenerateSelfSignedCertAndKey`, one operation a step,
  every library call free to fail, over two plain boolean mutexes and a depot of files. Keys and
  certificates are symbolic. `CertLocks` proves exclusion, release on every exit, absence of
  deadlock and termination; `CertIssuance` proves what the returned files say and that they stay so;
  `DepotPaths` holds `filepath.Join` with its cleaning and the names of `os.CreateTemp`; `CertExact` and
  `CertCsr` show that the conditions used are exact, by building a run that breaks the promise from
  any set of jobs that breaks the condition. `CertProcedures` holds the two procedures as
  straight-line code with their early returns, proved to be runs of the protocol. A generate call
  waits for the call that creates its authority, because that call returns the object it is made on.
- **Announcement server** (`Announcements.dfy`). Handlers over one slice and a readers-writer lock,
  with the two halves of the append and every element of the encoding as separate steps; refined to
  an atomic append-only log.
- **Ports** (`Port*.dfy`). The 16-bit bump allocator as a class and as a function, against the
  integer allocator its comments describe; the claims made by the component makers; the address
  layout of parallel nodes; and the ports that whole runs of the suite configure.
- **Garden cleanup, instance poller, process stopper** (`GardenCleanup.dfy`, `InstancePoller.dfy`,
  `StopProcesses.dfy`). The loops as methods, over arbitrary outcomes of the outside world.

`LockRegions.dfy` holds what both protocols say about a lock.

## What the proofs found

- Certificate files are sound in all interleavings, and unchanged once returned, exactly if no two
  authorities are created on the same key file (as a cleaned path) and no temporary name can be a
  file of another authority (`SoundIffSeparate`). Otherwise two authorities can both return the key
  of one with the certificate of the other (`SharedFilesUnsound`), or a later authority overwrites a
  key that was returned (`DrawnFileUnsound`). For names without `*` only the first half remains
  (`PlainNamesSound`).
- No returned certificate is self-signed, in spite of the name `GenerateSelfSignedCertAndKey`: it is
  signed by the authority. The authority's own certificate names itself as issuer but is signed with
  another, older key, that of the root (`SoundPair`, `IsAuthority`).
- Signing requests are made under `csrLock` on one path and under `caLock` on the other. They are
  mutually exclusive exactly if every generate call uses the only authority there is
  (`CsrExclusiveIffOneAuthority`).
- `ClaimPorts` keeps its promise in all runs exactly if no request can reach past port 65535 and a
  range without port numbers is empty after truncation too (`SafeIffNoWrap`); with ending port 65535
  it starts again at port 0 after the last port. `New` checks only that the ending port is not too
  large: a negative one is truncated, so that `New(0, -1)` has ending port 65535 (`NewKeepsRange`).
- `RoutingAPI` claims two ports and configures three; the third is the first port of the next claim
  (`MtlsPortIsTheNextClaim`). So all ports that a run configures are distinct exactly if on no node a
  call is granted after a `RoutingAPI` (`ConfiguredDistinctIff`, `SuiteDistinctIff`).
- The layout has no port with two uses exactly up to nine nodes with ten cells each
  (`ConflictFreeIff`), and `offsetPort` does not interfere with the node offset, as its comment says,
  exactly up to ten consecutive nodes (`OffsetsApartIffTenNodes`).

## Model

| member | source | states |
|---|---|---|
| CertLocks.MutualExclusion | helpers/certauthority/certauthority.go:60-159 | in every reachable state each of `caLock` and `csrLock` is held exactly when some thread is between its Lock and Unlock, error exits included, at most one thread is, and no thread is in both |
| CertLocks.LocksStep | helpers/certauthority/certauthority.go:60-159 | every operation of any thread keeps the locking invariant |
| CertLocks.Progress | helpers/certauthority/certauthority.go:50-184 | while some call has not returned, some thread can run |
| CertLocks.StepDecreases | helpers/certauthority/certauthority.go:50-184 | every operation lowers a global measure |
| CertLocks.FairRunsTerminate | helpers/certauthority/certauthority.go:50-184 | 18 scheduling rounds per thread bring every call to its return, whatever fails and in whatever order, and then both locks are free |
| DepotPaths.CleanRules | helpers/certauthority/certauthority.go:171 | the rules of `filepath.Clean`: a second slash, a `.`, a name with the `..` after it, a `..` at the root and a slash at the end make no difference |
| DepotPaths.JoinIsChild | helpers/certauthority/certauthority.go:171-177 | a plain file name is put after the components of the cleaned depot |
| DepotPaths.CleanIsIdempotent | helpers/certauthority/certauthority.go:171 | what `filepath.Join` returns is a clean path, and writing it out and cleaning it again gives it back |
| DepotPaths.SameDirectory | helpers/certauthority/certauthority.go:171-177 | two spellings of one depot, such as `d` and `d/`, give the same files |
| DepotPaths.TempIsChild | helpers/certauthority/certauthority.go:106-116 | a temporary file lies directly in the depot asked for, under the name made from pattern and number |
| DepotPaths.TempNameIs | helpers/certauthority/certauthority.go:106-116 | the number stands for the last `*` of the name, or at its end if there is none |
| DepotPaths.NumeralIsDigits | helpers/certauthority/certauthority.go:106-116 | and is written in decimal digits without leading zeros, which are read as the number |
| CertIssuance.AuthorityPaths | helpers/certauthority/certauthority.go:171-177 | cleaned key and certificate paths of authorities never coincide, and two authorities share one path just if they share both |
| CertIssuance.FilesStep | helpers/certauthority/certauthority.go:46-184 | every operation keeps the invariant on local variables, files and their owners |
| CertIssuance.SeparateIsSound | helpers/certauthority/certauthority.go:46-184 | with paths apart, in all interleavings, failures and initial depots: each returned certificate is for the returned key and the requested name, is not self-signed, is signed by the key and names the subject of its authority's certificate; and once a call has returned, its result and the contents of its two files stay the same however the run goes on |
| CertIssuance.FinishedFilesKept | helpers/certauthority/certauthority.go:106-126 | with paths apart, after any run and any continuation of it, every call that had returned, authority or generate, still has its result and both of its files hold what they held |
| CertExact.SharedFilesUnsound | helpers/certauthority/certauthority.go:171-181 | two authorities on the same files have a run, which is returned, after which both calls have returned the same two files, and the certificate is not for the key |
| CertExact.DrawnFileUnsound | helpers/certauthority/certauthority.go:106-124 | where a temporary name can be a file of another authority there is a run, which is returned with its continuation: the generate call returns a matched pair whose key file is that authority's file, and afterwards its key file is changed, its certificate is not, and the pair does not match |
| CertExact.SoundIffSeparate | helpers/certauthority/certauthority.go:46-184 | the files are sound, and stay as returned, in all runs if and only if the cleaned paths are apart: no two authorities on one key file, and no number below 2^32 and name without separator that make `os.CreateTemp` return a file of an authority other than the one in use |
| CertExact.PlainNamesSound | helpers/certauthority/certauthority.go:106-118 | for names without `*`, if and only if no two authorities are created on one key file, as cleaned paths |
| CertCsr.CsrExclusiveIffOneAuthority | helpers/certauthority/certauthority.go:60-66 | signing requests exclude each other in all runs if and only if no authority is created besides the one in use |
| CertCsr.TwoAuthoritiesOverlap | helpers/certauthority/certauthority.go:148 | otherwise there is a run, which is returned, that ends with the authority at its request and `caLock` held, and the generate call at its request and `csrLock` held |
| CertProcedures.Host.GenerateCAAndKey | helpers/certauthority/certauthority.go:129-184 | the procedure does what its protocol thread does alone, and frees `caLock` on every exit; it succeeds exactly if no call in it fails, and then returns first the path with `.key`, which holds a key, and then the path with `.crt`, which holds a certificate for that key and the requested name |
| CertProcedures.Host.IssueAuthority | helpers/certauthority/certauthority.go:148-159 | its second part: entered with `caLock` held, left with it free on every exit; the two returned files hold the key and its certificate signed by the root |
| CertProcedures.Host.WriteCAAndKey | helpers/certauthority/certauthority.go:161-183 | its part after the unlock: what the depot holds after each failure and after success, the key file being written before the certificate file |
| CertProcedures.Host.NewCertAuthority | helpers/certauthority/certauthority.go:32-48 | an authority is returned just on success; its key path ends in `.key` and holds a key, its certificate path ends in `.crt` and holds a certificate for it, and `CAAndKey` gives them in that order |
| CertProcedures.Host.GenerateSelfSignedCertAndKey | helpers/certauthority/certauthority.go:50-127 | the procedure does what its protocol thread does alone, and frees both locks on every exit; on success it returns two new temporary files, first one that holds a key and then one that holds a certificate for that key and the requested name, signed by the key in the authority's key file and naming the subject of its certificate |
| CertProcedures.Host.ReadAuthority | helpers/certauthority/certauthority.go:68-86 | its second part: the certificate that is returned is signed by the key and names the subject that the authority's files held, with both locks free on every exit |
| CertProcedures.Host.SignCert | helpers/certauthority/certauthority.go:88-99 | its third part: signing under `caLock`, which every exit frees; the returned files hold the key and the certificate for the request |
| CertProcedures.Host.StoreKey | helpers/certauthority/certauthority.go:101-114 | its fourth part: the key in a fresh temporary file, which is returned first |
| CertProcedures.Host.StoreCert | helpers/certauthority/certauthority.go:116-126 | its last part: the certificate in another one, which is returned second, and no other file changes |
| CertProcedures.AloneCAIsRun | helpers/certauthority/certauthority.go:129-184 | running `generateCAAndKey` alone is a run of the protocol that moves no other thread |
| CertProcedures.AloneGenerateIsRun | helpers/certauthority/certauthority.go:50-127 | the same for `GenerateSelfSignedCertAndKey` |
| Announcements.LockStep | inigo_announcement_server/inigo_announcement_server.go:25-33 | the lock keeps a writer apart from other writers and from readers |
| Announcements.RefinesAtomicLog | inigo_announcement_server/inigo_announcement_server.go:19-37 | every handler that has returned got the answer of an atomic log run in the order of lock acquisition, each handler once, the slice is that log whenever no append is under way, and an announcement is accepted, a listing lists, any other path is not found |
| Announcements.RealTimeOrder | inigo_announcement_server/inigo_announcement_server.go:23-37 | a handler that returned before another arrived comes first in that order |
| Announcements.ListingsArePrefixOrdered | inigo_announcement_server/inigo_announcement_server.go:29-33 | any two listings of one run are prefixes of one another |
| Announcements.AcceptedIsListed | inigo_announcement_server/inigo_announcement_server.go:25-33 | a listing asked for after an announcement was accepted contains it |
| Announcements.NothingLostOrDuplicated | inigo_announcement_server/inigo_announcement_server.go:21-28 | when all handlers have returned, each text is in the log as often as there are handlers that announce it |
| Announcements.Progress | inigo_announcement_server/inigo_announcement_server.go:23-37 | while some handler has not returned, some handler can run |
| Announcements.WorkIsBounded | inigo_announcement_server/inigo_announcement_server.go:23-37 | n handlers do at most n * (n + 7) operations under any schedule |
| Announcements.Server.Handle | inigo_announcement_server/inigo_announcement_server.go:23-37 | a handler alone does one request of the atomic log: an announcement is put at the end, a listing answers the whole log |
| PortAuthority.PortAllocator.New | helpers/portauthority/portauthority.go:19-27 | refuses an ending port above 65535, else keeps both ends modulo 65536 |
| PortAuthority.PortAllocator.ClaimPorts | helpers/portauthority/portauthority.go:42-50 | outcome and next port are those of the 16-bit specification, written out modulo 65536, and nothing else changes |
| PortAuthority.NewKeepsRange | helpers/portauthority/portauthority.go:14-27 | the range is kept exactly if both ends are port numbers |
| PortAuthority.DecisionRefinement | helpers/portauthority/portauthority.go:42-46 | for every integer request, the exact condition under which the decision differs from the documented one |
| PortAuthority.PositiveDecisionRefinement | helpers/portauthority/portauthority.go:42-46 | for requests of at least one port: exactly if the last port passes 65535 and wraps into the range |
| PortAuthority.StateRefinement | helpers/portauthority/portauthority.go:48-49 | after any grant both make, of whatever number of ports, the first port is the same, and the next ports differ exactly if port 65535 was granted or a negative request went below port 0 |
| PortAuthority.ZeroPorts | helpers/portauthority/portauthority.go:42-49 | a request for no ports is granted just if the port before the next is in range, and changes nothing |
| PortAuthority.ClaimInStep | helpers/portauthority/portauthority.go:29-50 | where nothing wraps, a claim fails just if fewer ports remain, takes the next ports, and changes nothing when it fails |
| PortAuthority.RunIsSafe | helpers/portauthority/portauthority.go:29-50 | over every run that cannot wrap: blocks in range, no port twice, and as many ports granted as the allocator moved |
| PortAuthority.RunInStep | helpers/portauthority/portauthority.go:42-50 | and the blocks are contiguous and increasing, whatever mix of grants and refusals |
| PortAuthority.SafeIffNoWrap | helpers/portauthority/portauthority.go:29-50 | for every pair that `New` accepts: all runs with requests up to a bound are safe if and only if no such request can pass 65535 and, where the range asked for has no port number in it, the truncated range is empty too |
| PortAuthority.SplittingLaw | helpers/portauthority/portauthority.go:42-50 | a list of claims succeeds throughout just if its sum does at once, with the same first port and final state |
| PortClaims.ComponentMaker.GardenPool | world/components.go:608-658 | ten ports for Garden's pool, and none on Windows; allocator and ports are those that `Configure` gives for the call |
| PortClaims.ComponentMaker.RoutingAPI | world/components.go:691-733 | two ports claimed, three configured; allocator and ports are those that `Configure` gives for the call |
| PortClaims.ComponentMaker.VolmanDriver | world/components.go:1117-1120 | one port for the debug server; allocator and port are those that `Configure` gives for the call |
| PortClaims.ComponentMaker.ClaimEvacuationCells | cell/evacuation_test.go:77-98 | four consecutive ports for two cells, those that `Configure` gives |
| PortClaims.ComponentMaker.ClaimRouteEmitterCells | cell/local_route_emitter_test.go:56-63 | two consecutive ports for two cells, those that `Configure` gives |
| PortClaims.MtlsPortIsTheNextClaim | world/components.go:691-733 | for every allocator: the block holds the listen and admin ports but not the mutual-TLS port, which is the first port of the next granted claim |
| PortClaims.RoutingAPIsCollide | world/components.go:691-733 | for every allocator: two routing APIs granted in a row are configured on a common port |
| PortClaims.MtlsPortInRangeIff | world/components.go:691-726 | for every allocator: the mutual-TLS port is not past the ending port exactly if three ports could have been claimed |
| PortConfigs.ConfiguredDistinctIff | world/components.go:654-733 | in any interleaving of all the calls that claim ports, on allocators that cannot wrap and whose ranges are apart, the configured ports are pairwise distinct if and only if on no node a call is granted after a granted `RoutingAPI` |
| PortConfigs.NextConfiguredIff | world/components.go:720-728 | the next port of a node is configured later if and only if a later call on that node is granted |
| PortConfigs.OneAllocatorDistinctIff | world/components.go:654-733 | the same for one allocator |
| PortConfigs.SuiteDistinctIff | cell/cell_suite_test.go:95-101 | the same for the allocators of every number of nodes that the suite can have |
| PortLayout.RepPortsCoincide | world/components.go:1538-1551 | when listen and securable ports of two cells coincide |
| PortLayout.OffsetsApartIffTenNodes | world/components.go:1735-1739 | cells of different nodes never share a listen port, for all cell numbers, if and only if at most ten consecutive nodes run |
| PortLayout.ConflictFreeIff | cell/cell_suite_test.go:76-98 | components, cells and claimed ports of all nodes are pairwise distinct if and only if there are at most nine nodes with at most ten cells |
| PortLayout.AllocatorPerNode | cell/cell_suite_test.go:95-101 | the allocator of a node is created just up to node 64, with the range asked for |
| PortLayout.Projection | cell/cell_suite_test.go:95-101 | in any interleaving a node is granted what it would be granted alone |
| PortLayout.NodesIsolated | cell/cell_suite_test.go:95-101 | in any interleaving the blocks of all nodes lie in their ranges and share no port |
| PortLayout.IsolatedIff | cell/cell_suite_test.go:95-101 | that holds of all interleavings if and only if no request of the last node can pass 65535 |
| GardenCleanup.CleanupGarden | helpers/cleanup_garden.go:13-52 | returns the specified errors, makes the specified Destroy calls, and leaves each listed handle gone, being destroyed, or reported; every returned error is the one that some call made in it was answered with, and has neither of the two benign phrases |
| GardenCleanup.BenignMeans | helpers/cleanup_garden.go:31-40 | a reply ends the attempts exactly if it is no error or one of the two phrases occurs in its text |
| GardenCleanup.TriesOnContainer | helpers/cleanup_garden.go:27-48 | each container is attempted one to three times, never after a benign reply, and is reported if none came |
| GardenCleanup.AttemptsOnContainer | helpers/cleanup_garden.go:22-30 | which Destroy calls are on which container |
| GardenCleanup.ErrorsAreThirdFailures | helpers/cleanup_garden.go:31-51 | the errors are, in container order, those with which the third call on just the containers that failed three times was answered, one each |
| GardenCleanup.CleanIffNoneReported | helpers/cleanup_garden.go:21-51 | no error is returned exactly if every container met a benign reply |
| InstancePoller.Poll | helpers/route_helpers.go:60-86 | aborts exactly on a 404 or 502 that is not the router's; else returns just the bodies of the other answers, each before all later ones in lexicographic order, for any order of the map's keys |
| InstancePoller.Sort | helpers/route_helpers.go:84 | the same strings, each before all later ones in lexicographic order |
| InstancePoller.LessIsBefore | helpers/route_helpers.go:84 | the order of strings is decided at the first place where they differ: the first string has ended there, or holds the smaller character |
| InstancePoller.SortedIsUnique | helpers/route_helpers.go:80-85 | there is one increasing list of given elements |
| InstancePoller.PollIsDetermined | helpers/route_helpers.go:60-86 | two polls that see the same bodies, and both or neither something unexpected, return the same |
| InstancePoller.OrderOfProbesIsIrrelevant | helpers/route_helpers.go:60-86 | the same twenty outcomes in any other order give the same result |
| StopProcesses.StopProcesses | helpers/stop_process.go:14-43 | each process that is not nil gets SIGKILL on Windows and SIGTERM elsewhere, then SIGQUIT if it missed its first deadline, and never another signal; for each missed process in order one SIGQUIT failure is recorded, after a failure to exit just if it ignored SIGQUIT; it passes just if no process missed its first deadline |
| StopProcesses.FailuresAreRecorded | helpers/stop_process.go:31-38 | the recorded failures are made up of one record for each process, in order |
| StopProcesses.EachProcessIsSignalled | helpers/stop_process.go:16-39 | each process gets SIGKILL on Windows and SIGTERM elsewhere, SIGQUIT after it just if it missed the deadline, nil gets nothing, and processes are handled in order |
| StopProcesses.QuitIffMissed | helpers/stop_process.go:29-38 | SIGQUIT goes to a process exactly if it missed its first deadline |

## Left out

- Cryptography, PEM and ASN.1: keys are numbers, a certificate names its subject, key, issuer and issuer key. Expiry, path length and subject alternative names are not in it, and a signing call does not compare the authority's certificate with its key.
- Files are written in one step. `os.CreateTemp` retries a name that is taken; here a taken name counts as a failed call.
- CertExact.SoundIffSeparate: does not model directories, because paths are lexically cleaned Unix paths and the depot is flat: whether a directory exists, symbolic links, a relative and an absolute spelling of one file, names that the operating system refuses, and a temporary directory other than `/tmp` for an empty depot are not in it.
- CertExact.PlainNamesSound: the same holds of it.
- The five parts of `GenerateSelfSignedCertAndKey` and the three of `generateCAAndKey` are methods that each end by calling the next, where the source has one function each.
- Protocols are state machines over values; the classes beside them hold the code of one thread.
- A response that cannot be written to the client is not modelled; the server ignores that error.
- Time: a deadline is met or missed by an arbitrary choice, and sleeping does nothing.
- Go's sort algorithm: any method with the same contract would do, and insertion is used.
- The text matching of the router's own 404 and 502 bodies is an input of the poller.
- A failing `Containers` call in `CleanupGarden`, and a failing `ClaimPorts` in a component maker, end the run in the source; the first is left out and the second is returned as an error.
- Hosts: ports are compared by number, although some listeners are on other interfaces.
- Building and running components, configuration files, the BBS requests, the event matchers, the other pollers, the fixtures and the copies of the layout in the executor and volman suites: easy or outside this repository.
