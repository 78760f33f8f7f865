/**
 HelloWorldInstancePoller: probe an application twenty times and return, sorted, the bodies of
 the instances that answered.
 */
module InstancePoller {

  const PROBES := 20
  const STATUS_NOT_FOUND := 404
  const STATUS_BAD_GATEWAY := 502

  /** The outcome of one request; `routerBody` says whether the body is the one that the router
      itself sends with this status. */
  datatype Probe = TransportError | Response(status: int, body: string, routerBody: bool)

  /** `Aborted` is a failed expectation, which ends the poll. */
  datatype Result = Aborted | Instances(indices: seq<string>)

  predicate FromRouter(p: Probe) {
    p.Response? && (p.status == STATUS_NOT_FOUND || p.status == STATUS_BAD_GATEWAY)
  }

  /** A 404 or 502 that the router did not send. */
  predicate Unexpected(p: Probe) { FromRouter(p) && !p.routerBody }

  predicate Answered(p: Probe) { p.Response? && !FromRouter(p) }

  function Bodies(probe: nat -> Probe, n: nat): set<string> {
    set i | 0 <= i < n && Answered(probe(i)) :: probe(i).body
  }

  // ---------- the order of strings ----------

  /** The order of Go strings, with characters standing for bytes. */
  predicate Less(a: string, b: string) {
    if b == [] then false
    else if a == [] then true
    else a[0] < b[0] || (a[0] == b[0] && Less(a[1..], b[1..]))
  }

  /** Lexicographic order without recursion: at the first place where the strings differ, a has
      ended or holds the smaller character. */
  ghost predicate Before(a: string, b: string) {
    exists k :: 0 <= k <= |a| && k < |b| && a[..k] == b[..k] && (k == |a| || a[k] < b[k])
  }

  lemma {:induction false} LessIsBefore(a: string, b: string)
    ensures Less(a, b) <==> Before(a, b)
    decreases |a|
  {
    if a == [] || b == [] || a[0] != b[0] {
      if Less(a, b) {
        assert a[..0] == b[..0];
      }
      if Before(a, b) {
        FirstDiffers(a, b);
      }
    } else {
      LessIsBefore(a[1..], b[1..]);
      BeforeRest(a, b);
    }
  }

  lemma FirstDiffers(a: string, b: string)
    requires Before(a, b) && (a == [] || b == [] || a[0] != b[0])
    ensures b != [] && (a == [] || a[0] < b[0])
  {
    var k :| 0 <= k <= |a| && k < |b| && a[..k] == b[..k] && (k == |a| || a[k] < b[k]);
    SamePrefix(a, b, k);
  }

  lemma SamePrefix(a: string, b: string, k: nat)
    requires k <= |a| && k <= |b| && a[..k] == b[..k]
    ensures k > 0 ==> a[0] == b[0]
  {
    if k > 0 {
      assert a[..k][0] == b[..k][0];
    }
  }

  lemma BeforeRest(a: string, b: string)
    requires a != [] && b != [] && a[0] == b[0]
    ensures Before(a, b) <==> Before(a[1..], b[1..])
  {
    if Before(a, b) {
      var k :| 0 <= k <= |a| && k < |b| && a[..k] == b[..k] && (k == |a| || a[k] < b[k]);
      assert a[1..][..k - 1] == a[..k][1..] && b[1..][..k - 1] == b[..k][1..];
    }
    if Before(a[1..], b[1..]) {
      var k :| 0 <= k <= |a[1..]| && k < |b[1..]| && a[1..][..k] == b[1..][..k]
               && (k == |a[1..]| || a[1..][k] < b[1..][k]);
      assert a[..k + 1] == [a[0]] + a[1..][..k] && b[..k + 1] == [b[0]] + b[1..][..k];
    }
  }

  lemma {:induction false} LessTotal(a: string, b: string)
    ensures Less(a, b) || a == b || Less(b, a)
    decreases |a|
  {
    if a != [] && b != [] {
      LessTotal(a[1..], b[1..]);
      if a[0] == b[0] && a[1..] == b[1..] {
        assert a == [a[0]] + a[1..] && b == [b[0]] + b[1..];
      }
    }
  }

  lemma {:induction false} LessTransitive(a: string, b: string, c: string)
    requires Less(a, b) && Less(b, c)
    ensures Less(a, c)
    decreases |a|
  {
    if a != [] && a[0] == b[0] == c[0] {
      LessTransitive(a[1..], b[1..], c[1..]);
    }
  }

  lemma {:induction false} LessIrreflexive(a: string)
    ensures !Less(a, a)
    decreases |a|
  {
    if a != [] {
      LessIrreflexive(a[1..]);
    }
  }

  predicate StrictlyIncreasing(s: seq<string>) {
    forall i, j :: 0 <= i < j < |s| ==> Less(s[i], s[j])
  }

  // ---------- the poller ----------

  /** Puts x in its place among strings that are in order. */
  method Insert(s: seq<string>, x: string) returns (r: seq<string>)
    requires StrictlyIncreasing(s) && x !in s
    ensures StrictlyIncreasing(r)
    ensures forall y :: y in r <==> y in s || y == x
  {
    var i := 0;
    while i < |s| && Less(s[i], x)
      invariant 0 <= i <= |s|
      invariant forall k :: 0 <= k < i ==> Less(s[k], x)
    {
      i := i + 1;
    }
    r := s[..i] + [x] + s[i..];
    if i < |s| {
      LessTotal(s[i], x);
    }
    forall k | i <= k < |s| ensures Less(x, s[k]) {
      if k > i {
        LessTransitive(x, s[i], s[k]);
      }
    }
  }

  /** In an increasing list each string comes before all later ones. */
  lemma InOrder(s: seq<string>)
    ensures StrictlyIncreasing(s) <==> forall i, j :: 0 <= i < j < |s| ==> Before(s[i], s[j])
  {
    forall i, j | 0 <= i < j < |s| ensures Less(s[i], s[j]) <==> Before(s[i], s[j]) {
      LessIsBefore(s[i], s[j]);
    }
  }

  method Sort(s: seq<string>) returns (r: seq<string>)
    requires forall i, j :: 0 <= i < j < |s| ==> s[i] != s[j]
    ensures StrictlyIncreasing(r)
    ensures forall i, j :: 0 <= i < j < |r| ==> Before(r[i], r[j])
    ensures forall y :: y in r <==> y in s
  {
    r := [];
    for n := 0 to |s|
      invariant StrictlyIncreasing(r)
      invariant forall y :: y in r <==> y in s[..n]
    {
      r := Insert(r, s[n]);
    }
    assert s[..|s|] == s;
    InOrder(r);
  }

  /** What the poll returns: it is aborted by an unexpected answer and nothing else; otherwise the
      bodies of the answers, each once and in order. */
  ghost predicate Polled(probe: nat -> Probe, r: Result) {
    && (r.Aborted? <==> exists i :: 0 <= i < PROBES && Unexpected(probe(i)))
    && (r.Instances? ==>
          StrictlyIncreasing(r.indices) && forall b :: b in r.indices <==> b in Bodies(probe, PROBES))
  }

  method Poll(probe: nat -> Probe) returns (r: Result)
    ensures Polled(probe, r)
    ensures r.Aborted? <==>
            exists i :: 0 <= i < 20 && probe(i).Response? && probe(i).status in {404, 502} && !probe(i).routerBody
    ensures r.Instances? ==>
              && (forall b :: b in r.indices <==>
                    exists i :: 0 <= i < 20 && probe(i).Response? && probe(i).status !in {404, 502} && probe(i).body == b)
              && (forall i, j :: 0 <= i < j < |r.indices| ==> Before(r.indices[i], r.indices[j]))
  {
    var respondingIndicesHash: map<string, bool> := map[];
    for i := 0 to PROBES
      invariant respondingIndicesHash.Keys == Bodies(probe, i)
      invariant forall j :: 0 <= j < i ==> !Unexpected(probe(j))
    {
      var response := probe(i);
      if response.TransportError? {
        continue;
      }
      if response.status == STATUS_NOT_FOUND {
        if !response.routerBody {
          return Aborted;
        }
        continue;
      }
      if response.status == STATUS_BAD_GATEWAY {
        if !response.routerBody {
          return Aborted;
        }
        continue;
      }
      respondingIndicesHash := respondingIndicesHash[response.body := true];
    }
    var respondingIndices: seq<string> := [];
    // the keys come in any order
    var left := respondingIndicesHash.Keys;
    while left != {}
      invariant left <= respondingIndicesHash.Keys
      invariant forall y :: y in respondingIndices <==> y in respondingIndicesHash.Keys - left
      invariant forall i, j :: 0 <= i < j < |respondingIndices| ==> respondingIndices[i] != respondingIndices[j]
      decreases left
    {
      var key :| key in left;
      assert key !in respondingIndices;
      respondingIndices := respondingIndices + [key];
      left := left - {key};
    }
    respondingIndices := Sort(respondingIndices);
    return Instances(respondingIndices);
  }

  // ---------- the result is determined ----------

  /** There is one strictly increasing list of given elements. */
  lemma {:induction false} SortedIsUnique(a: seq<string>, b: seq<string>)
    requires StrictlyIncreasing(a) && StrictlyIncreasing(b)
    requires forall x :: x in a <==> x in b
    ensures a == b
    decreases |a|
  {
    if a == [] {
      if b != [] {
        HasElement(b);
      }
    } else {
      assert a[0] in b && b != [] && b[0] in a;
      LeastFirst(a, b);
      forall x ensures x in a[1..] <==> x in b[1..] {
        LessIrreflexive(x);
        if x in a[1..] {
          var i :| 0 <= i < |a[1..]| && a[1..][i] == x;
          assert Less(a[0], a[i + 1]) && x in a;
          var j :| 0 <= j < |b| && b[j] == x;
          assert x == b[1..][j - 1];
        }
        if x in b[1..] {
          var i :| 0 <= i < |b[1..]| && b[1..][i] == x;
          assert Less(b[0], b[i + 1]) && x in b;
          var j :| 0 <= j < |a| && a[j] == x;
          assert x == a[1..][j - 1];
        }
      }
      SortedIsUnique(a[1..], b[1..]);
      assert a == [a[0]] + a[1..] && b == [b[0]] + b[1..];
    }
  }

  lemma HasElement(s: seq<string>)
    requires s != []
    ensures exists x :: x in s
  {
    assert s[0] in s;
  }

  lemma LeastFirst(a: seq<string>, b: seq<string>)
    requires StrictlyIncreasing(a) && StrictlyIncreasing(b) && a != [] && b != []
    requires a[0] in b && b[0] in a
    ensures a[0] == b[0]
  {
    var i :| 0 <= i < |a| && a[i] == b[0];
    var j :| 0 <= j < |b| && b[j] == a[0];
    if i > 0 && j > 0 {
      LessTransitive(a[0], b[0], a[0]);
      LessIrreflexive(a[0]);
    }
  }

  /** The result depends only on which bodies were seen and on whether something unexpected was:
      not on the order of the map's keys or on how often an instance answered. */
  lemma PollIsDetermined(probe: nat -> Probe, other: nat -> Probe, a: Result, b: Result)
    requires Polled(probe, a) && Polled(other, b)
    requires Bodies(probe, PROBES) == Bodies(other, PROBES)
    requires (exists i :: 0 <= i < PROBES && Unexpected(probe(i))) <==> (exists i :: 0 <= i < PROBES && Unexpected(other(i)))
    ensures a == b
  {
    if a.Instances? {
      SortedIsUnique(a.indices, b.indices);
    }
  }

  /** The outcomes of the probes, in their order. */
  function Outcomes(probe: nat -> Probe): (s: seq<Probe>)
    ensures |s| == PROBES && forall i :: 0 <= i < PROBES ==> s[i] == probe(i)
  {
    seq(PROBES, i requires 0 <= i => probe(i))
  }

  lemma SameOutcome(probe: nat -> Probe, other: nat -> Probe, i: nat) returns (j: nat)
    requires i < PROBES && multiset(Outcomes(probe)) == multiset(Outcomes(other))
    ensures j < PROBES && other(j) == probe(i)
  {
    assert Outcomes(probe)[i] in multiset(Outcomes(probe));
    assert probe(i) in Outcomes(other);
    j :| 0 <= j < PROBES && Outcomes(other)[j] == probe(i);
  }

  lemma BodiesAmong(probe: nat -> Probe, other: nat -> Probe)
    requires multiset(Outcomes(probe)) == multiset(Outcomes(other))
    ensures Bodies(probe, PROBES) <= Bodies(other, PROBES)
    ensures (exists i :: 0 <= i < PROBES && Unexpected(probe(i))) ==> exists i :: 0 <= i < PROBES && Unexpected(other(i))
  {
    forall x | x in Bodies(probe, PROBES) ensures x in Bodies(other, PROBES) {
      var i: nat :| i < PROBES && Answered(probe(i)) && probe(i).body == x;
      var j := SameOutcome(probe, other, i);
    }
    if i: nat :| i < PROBES && Unexpected(probe(i)) {
      var j := SameOutcome(probe, other, i);
    }
  }

  /** The same twenty outcomes in any other order give the same result. */
  lemma OrderOfProbesIsIrrelevant(probe: nat -> Probe, other: nat -> Probe, a: Result, b: Result)
    requires multiset(Outcomes(probe)) == multiset(Outcomes(other))
    requires Polled(probe, a) && Polled(other, b)
    ensures Bodies(probe, PROBES) == Bodies(other, PROBES) && a == b
  {
    BodiesAmong(probe, other);
    BodiesAmong(other, probe);
    PollIsDetermined(probe, other, a, b);
  }
}
