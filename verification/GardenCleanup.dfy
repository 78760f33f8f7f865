/**
 CleanupGarden: destroy every container, trying each up to three times, and collect the errors.
 */
module GardenCleanup {

  datatype Reply = Destroyed | Err(message: string)

  function Message(r: Reply): string { if r.Err? then r.message else "" }

  const UNKNOWN_HANDLE := "unknown handle"
  const ALREADY_DESTROYING := "container already being destroyed"
  const MAX_TRIES := 3

  /** strings.Contains. */
  predicate Contains(s: string, part: string)
    ensures Contains(s, part) <==> exists i :: 0 <= i <= |s| - |part| && s[i..][..|part|] == part
    decreases |s|
  {
    if |s| < |part| then false
    else if s[..|part|] == part then
      assert s[0..][..|part|] == part;
      true
    else if s == [] then false
    else
      assert forall i :: 0 < i <= |s| - |part| ==> s[i..] == s[1..][i - 1..];
      assert forall i :: 0 <= i <= |s[1..]| - |part| ==> s[1..][i..] == s[i + 1..];
      Contains(s[1..], part)
  }

  /** The container is gone: it was destroyed, or Garden does not know it. */
  predicate Gone(r: Reply) { r.Destroyed? || Contains(r.message, UNKNOWN_HANDLE) }

  predicate Going(r: Reply) { r.Err? && Contains(r.message, ALREADY_DESTROYING) }

  predicate Benign(r: Reply) { Gone(r) || Going(r) }

  /** A Garden server whose k-th Destroy call is answered by `replies(k)`.  A handle that is gone
      does not come back. */
  class GardenClient {
    const replies: nat -> Reply
    var calls: nat
    var attempts: seq<string>
    var present: set<string>
    var destroying: set<string>

    constructor (replies: nat -> Reply, handles: set<string>)
      ensures this.replies == replies && calls == 0 && attempts == [] && present == handles && destroying == {}
    {
      this.replies := replies;
      calls, attempts, present, destroying := 0, [], handles, {};
    }

    method Destroy(handle: string) returns (r: Reply)
      modifies this
      ensures r == replies(old(calls)) && calls == old(calls) + 1
      ensures attempts == old(attempts) + [handle]
      ensures present == if Gone(r) then old(present) - {handle} else old(present)
      ensures destroying == if Going(r) then old(destroying) + {handle} else old(destroying)
    {
      r := replies(calls);
      calls := calls + 1;
      attempts := attempts + [handle];
      if Gone(r) {
        present := present - {handle};
      }
      if Going(r) {
        destroying := destroying + {handle};
      }
    }
  }

  // ---------- the specification ----------

  predicate BenignAt(replies: nat -> Reply, c: nat) { Benign(replies(c)) }

  /** All three attempts, from call c on, fail with an error that matters. */
  predicate FailsThrice(replies: nat -> Reply, c: nat) {
    !BenignAt(replies, c) && !BenignAt(replies, c + 1) && !BenignAt(replies, c + 2)
  }

  /** The number of attempts on a container whose first attempt is call c: up to the first
      benign reply, and never more than three. */
  function Tries(replies: nat -> Reply, c: nat): (n: nat)
    ensures 1 <= n <= MAX_TRIES
    ensures forall m :: c <= m < c + n - 1 ==> !BenignAt(replies, m)
    ensures BenignAt(replies, c + n - 1) || (n == MAX_TRIES && FailsThrice(replies, c))
  {
    if BenignAt(replies, c) then 1 else if BenignAt(replies, c + 1) then 2 else 3
  }

  /** The call that is the first attempt on container n, when the first of all is call k. */
  function FirstCall(replies: nat -> Reply, k: nat, n: nat): (c: nat)
    ensures k + n <= c <= k + MAX_TRIES * n
  {
    if n == 0 then k else FirstCall(replies, k, n - 1) + Tries(replies, FirstCall(replies, k, n - 1))
  }

  /** Container n is reported: its three attempts failed. */
  predicate Reported(replies: nat -> Reply, k: nat, n: nat) {
    FailsThrice(replies, FirstCall(replies, k, n))
  }

  function ThirdError(replies: nat -> Reply, k: nat, n: nat): string {
    Message(replies(FirstCall(replies, k, n) + 2))
  }

  function Errors(replies: nat -> Reply, k: nat, n: nat): seq<string> {
    if n == 0 then []
    else Errors(replies, k, n - 1) + if Reported(replies, k, n - 1) then [ThirdError(replies, k, n - 1)] else []
  }

  /** The handles of all Destroy calls on the first n containers. */
  function Attempts(containers: seq<string>, replies: nat -> Reply, k: nat, n: nat): (s: seq<string>)
    requires n <= |containers|
    ensures |s| == FirstCall(replies, k, n) - k
  {
    if n == 0 then []
    else Attempts(containers, replies, k, n - 1)
         + seq(Tries(replies, FirstCall(replies, k, n - 1)), _ => containers[n - 1])
  }

  /** Every container among the first n is gone, is being destroyed, or is reported. */
  ghost predicate Accounted(containers: seq<string>, client: GardenClient, k: nat, n: nat)
    requires n <= |containers|
    reads client
  {
    forall j :: 0 <= j < n ==>
      containers[j] !in client.present || containers[j] in client.destroying || Reported(client.replies, k, j)
  }

  /** What the attempts on container n add, when call c is the first and i calls are made. */
  lemma OneContainer(containers: seq<string>, replies: nat -> Reply, k: nat, n: nat, c: nat, i: nat)
    requires n < |containers| && c == FirstCall(replies, k, n) && 1 <= i <= MAX_TRIES
    requires forall m :: c <= m < c + i - 1 ==> !BenignAt(replies, m)
    requires BenignAt(replies, c + i - 1) || i == MAX_TRIES
    ensures FirstCall(replies, k, n + 1) == c + i
    ensures Attempts(containers, replies, k, n + 1) == Attempts(containers, replies, k, n) + seq(i, _ => containers[n])
    ensures Reported(replies, k, n) <==> !BenignAt(replies, c + i - 1)
    ensures Reported(replies, k, n) ==> Errors(replies, k, n + 1) == Errors(replies, k, n) + [Message(replies(c + 2))]
    ensures !Reported(replies, k, n) ==> Errors(replies, k, n + 1) == Errors(replies, k, n)
  {
  }

  method CleanupGarden(containers: seq<string>, gardenClient: GardenClient) returns (errors: seq<string>)
    modifies gardenClient
    ensures var replies, k := gardenClient.replies, old(gardenClient.calls);
            && errors == Errors(replies, k, |containers|)
            && gardenClient.calls == FirstCall(replies, k, |containers|)
            && gardenClient.attempts == old(gardenClient.attempts) + Attempts(containers, replies, k, |containers|)
            && Accounted(containers, gardenClient, k, |containers|)
    ensures gardenClient.present <= old(gardenClient.present)
    ensures |errors| <= |containers| && forall e :: e in errors ==>
              && !Contains(e, "unknown handle") && !Contains(e, "container already being destroyed")
              && exists c :: old(gardenClient.calls) <= c < gardenClient.calls && gardenClient.replies(c) == Err(e)
  {
    hide Contains, Errors, Attempts, FirstCall, Tries, FailsThrice, Reported, Benign;
    ghost var replies, k := gardenClient.replies, gardenClient.calls;
    NoContainers(containers, replies, k);
    errors := [];
    for n := 0 to |containers|
      invariant errors == Errors(replies, k, n)
      invariant gardenClient.calls == FirstCall(replies, k, n)
      invariant gardenClient.attempts == old(gardenClient.attempts) + Attempts(containers, replies, k, n)
      invariant gardenClient.present <= old(gardenClient.present)
      invariant Accounted(containers, gardenClient, k, n)
    {
      ghost var c, i0, before := gardenClient.calls, gardenClient.attempts, errors;
      ghost var tries := 0;
      label RetryLoop:
      for i := 0 to MAX_TRIES
        invariant tries == i
        invariant gardenClient.calls == c + i
        invariant gardenClient.attempts == i0 + seq(i, _ => containers[n])
        invariant gardenClient.present <= old(gardenClient.present)
        invariant Accounted(containers, gardenClient, k, n)
        invariant forall m :: c <= m < c + i ==> !BenignAt(replies, m)
        invariant errors == before + if i == MAX_TRIES then [Message(replies(c + 2))] else []
      {
        var err := gardenClient.Destroy(containers[n]);
        assert seq(i, _ => containers[n]) + [containers[n]] == seq(i + 1, _ => containers[n]);
        tries := tries + 1;
        BenignCases(replies, c + i);
        if err.Destroyed? {
          break RetryLoop;
        } else if Contains(err.message, UNKNOWN_HANDLE) {
          break RetryLoop;
        } else if Contains(err.message, ALREADY_DESTROYING) {
          break RetryLoop;
        } else if i == 2 {
          errors := errors + [err.message];
        }
      }
      OneContainer(containers, replies, k, n, c, tries);
    }
    ErrorsAreReplies(replies, k, |containers|);
  }

  lemma NoContainers(containers: seq<string>, replies: nat -> Reply, k: nat)
    ensures Errors(replies, k, 0) == [] && FirstCall(replies, k, 0) == k && Attempts(containers, replies, k, 0) == []
  {
  }

  lemma BenignCases(replies: nat -> Reply, c: nat)
    ensures BenignAt(replies, c) <==>
            || replies(c).Destroyed?
            || Contains(replies(c).message, UNKNOWN_HANDLE)
            || Contains(replies(c).message, ALREADY_DESTROYING)
  {
  }

  // ---------- what the specification means ----------

  /** A reply ends the attempts exactly if it is no error, or its text has one of two phrases. */
  lemma BenignMeans(replies: nat -> Reply, c: nat)
    ensures BenignAt(replies, c) <==>
            replies(c).Destroyed? ||
            exists i :: 0 <= i <= |replies(c).message| &&
              ("unknown handle" <= replies(c).message[i..] || "container already being destroyed" <= replies(c).message[i..])
  {
    hide Contains;
    if replies(c).Err? {
      ContainsMeans(replies(c).message, "unknown handle");
      ContainsMeans(replies(c).message, "container already being destroyed");
    }
  }

  lemma ContainsMeans(s: string, part: string)
    ensures Contains(s, part) <==> exists i :: 0 <= i <= |s| && part <= s[i..]
  {
    if Contains(s, part) {
      var i :| 0 <= i <= |s| - |part| && s[i..][..|part|] == part;
      assert part <= s[i..];
    }
    if i :| 0 <= i <= |s| && part <= s[i..] {
      assert s[i..][..|part|] == part;
    }
  }

  /** The third reply to a container that is reported is an error with the text that is recorded. */
  lemma ThirdIsError(replies: nat -> Reply, k: nat, n: nat)
    requires Reported(replies, k, n)
    ensures replies(FirstCall(replies, k, n) + 2) == Err(ThirdError(replies, k, n))
  {
    hide FirstCall, Contains;
  }

  /** Every error is the text of a reply, which had neither of the two phrases. */
  lemma ErrorsAreReplies(replies: nat -> Reply, k: nat, n: nat)
    ensures |Errors(replies, k, n)| <= n
    ensures forall e :: e in Errors(replies, k, n) ==>
              && !Contains(e, "unknown handle") && !Contains(e, "container already being destroyed")
              && exists c :: k <= c < FirstCall(replies, k, n) && replies(c) == Err(e)
  {
    hide *;
    var failed := ErrorsAreThirdFailures(replies, k, n);
    DistinctPositions(failed, n);
    var errors := Errors(replies, k, n);
    forall e | e in errors
      ensures !Contains(e, "unknown handle") && !Contains(e, "container already being destroyed")
      ensures exists c :: k <= c < FirstCall(replies, k, n) && replies(c) == Err(e)
    {
      var i :| 0 <= i < |errors| && errors[i] == e;
      ReportedHasThree(replies, k, failed[i], e);
      FirstCallGrows(replies, k, failed[i] + 1, n);
      assert replies(FirstCall(replies, k, failed[i]) + 2) == Err(e);
    }
  }

  lemma ReportedHasThree(replies: nat -> Reply, k: nat, j: nat, e: string)
    requires Reported(replies, k, j) && replies(FirstCall(replies, k, j) + 2) == Err(e)
    ensures FirstCall(replies, k, j + 1) == FirstCall(replies, k, j) + 3
    ensures !Contains(e, "unknown handle") && !Contains(e, "container already being destroyed")
  {
    hide Contains;
  }

  lemma {:induction false} DistinctPositions(s: seq<nat>, n: nat)
    requires forall i, j :: 0 <= i < j < |s| ==> s[i] < s[j]
    requires forall i :: 0 <= i < |s| ==> s[i] < n
    ensures |s| <= n
    decreases |s|
  {
    if s != [] {
      DistinctPositions(s[..|s| - 1], s[|s| - 1]);
    }
  }

  lemma {:induction false} ThirdFailures(replies: nat -> Reply, k: nat, n: nat) returns (failed: seq<nat>)
    ensures |failed| == |Errors(replies, k, n)|
    ensures forall i, j :: 0 <= i < j < |failed| ==> failed[i] < failed[j]
    ensures forall i :: 0 <= i < |failed| ==>
              && failed[i] < n && Reported(replies, k, failed[i])
              && Errors(replies, k, n)[i] == ThirdError(replies, k, failed[i])
    ensures forall j :: 0 <= j < n && Reported(replies, k, j) ==> j in failed
  {
    hide Reported, ThirdError, FirstCall;
    if n == 0 {
      failed := [];
    } else {
      failed := ThirdFailures(replies, k, n - 1);
      if Reported(replies, k, n - 1) {
        failed := failed + [n - 1];
      }
    }
  }

  /** The errors are, in container order, the third error of each container that failed three
      times, and of no other: `failed` lists the positions of those containers. */
  lemma ErrorsAreThirdFailures(replies: nat -> Reply, k: nat, n: nat) returns (failed: seq<nat>)
    ensures |failed| == |Errors(replies, k, n)|
    ensures forall i, j :: 0 <= i < j < |failed| ==> failed[i] < failed[j]
    ensures forall i :: 0 <= i < |failed| ==>
              && failed[i] < n && Reported(replies, k, failed[i])
              && replies(FirstCall(replies, k, failed[i]) + 2) == Err(Errors(replies, k, n)[i])
    ensures forall j :: 0 <= j < n && Reported(replies, k, j) ==> j in failed
  {
    hide *;
    failed := ThirdFailures(replies, k, n);
    forall i | 0 <= i < |failed|
      ensures replies(FirstCall(replies, k, failed[i]) + 2) == Err(Errors(replies, k, n)[i])
    {
      ThirdIsError(replies, k, failed[i]);
    }
  }

  lemma {:induction false} FirstCallGrows(replies: nat -> Reply, k: nat, j: nat, n: nat)
    requires j <= n
    ensures FirstCall(replies, k, j) <= FirstCall(replies, k, n)
  {
    hide Tries;
    if j < n {
      FirstCallGrows(replies, k, j, n - 1);
    }
  }

  /** Container j is attempted at least once and at most three times, and never again after a
      benign reply. */
  lemma TriesOnContainer(replies: nat -> Reply, k: nat, j: nat)
    ensures 1 <= FirstCall(replies, k, j + 1) - FirstCall(replies, k, j) <= 3
    ensures forall c :: FirstCall(replies, k, j) <= c < FirstCall(replies, k, j + 1) - 1 ==> !BenignAt(replies, c)
    ensures BenignAt(replies, FirstCall(replies, k, j + 1) - 1) || Reported(replies, k, j)
  {
    hide Tries, BenignAt;
  }

  /** The calls FirstCall(j) .. FirstCall(j+1)-1, and no others, are attempts on container j. */
  lemma {:induction false} AttemptsOnContainer(containers: seq<string>, replies: nat -> Reply,
                                                   k: nat, n: nat, j: nat, c: nat)
    requires j < n <= |containers| && FirstCall(replies, k, j) <= c < FirstCall(replies, k, j + 1)
    ensures k <= c < FirstCall(replies, k, n) && Attempts(containers, replies, k, n)[c - k] == containers[j]
    decreases n
  {
    hide FirstCall, Tries;
    FirstCallGrows(replies, k, j + 1, n);
    if j < n - 1 {
      FirstCallGrows(replies, k, j + 1, n - 1);
      AttemptsOnContainer(containers, replies, k, n - 1, j, c);
    } else {
      LastTries(replies, k, j);
    }
  }

  lemma LastTries(replies: nat -> Reply, k: nat, j: nat)
    ensures FirstCall(replies, k, j + 1) == FirstCall(replies, k, j) + Tries(replies, FirstCall(replies, k, j))
  {
  }

  /** No error at all exactly if every container met a benign reply within its attempts. */
  lemma CleanIffNoneReported(replies: nat -> Reply, k: nat, n: nat)
    ensures Errors(replies, k, n) == [] <==> forall j :: 0 <= j < n ==> !Reported(replies, k, j)
  {
    hide Reported, ThirdError, Errors;
    var failed := ErrorsAreThirdFailures(replies, k, n);
    if Errors(replies, k, n) != [] {
      assert Reported(replies, k, failed[0]);
    }
  }
}
