/**
 The ports that are configured in a whole run of the suite.  Every claim in the repository is in
 it: those of the component makers, and those that two tests make for their cells.
 */
module PortConfigs {
  import opened PortAuthority
  import opened PortClaims
  import opened PortLayout

  datatype NodeCall = NodeCall(node: int, call: Call)

  predicate OnNodes(allocs: map<int, Alloc>, calls: seq<NodeCall>) {
    forall i :: 0 <= i < |calls| ==> calls[i].node in allocs
  }

  function AfterCall(allocs: map<int, Alloc>, c: NodeCall): map<int, Alloc>
    requires c.node in allocs
  {
    allocs[c.node := Configure(allocs[c.node], c.call).1]
  }

  /** All ports configured by an interleaving of calls on the nodes, one allocator each. */
  function Configured(allocs: map<int, Alloc>, calls: seq<NodeCall>): seq<int>
    requires OnNodes(allocs, calls)
    decreases |calls|
  {
    if calls == [] then []
    else Configure(allocs[calls[0].node], calls[0].call).0 + Configured(AfterCall(allocs, calls[0]), calls[1..])
  }

  /** Call j of the interleaving is granted ports. */
  predicate Granted(allocs: map<int, Alloc>, calls: seq<NodeCall>, j: nat)
    requires OnNodes(allocs, calls) && j < |calls|
    decreases |calls|
  {
    if j == 0 then Configure(allocs[calls[0].node], calls[0].call).0 != []
    else Granted(AfterCall(allocs, calls[0]), calls[1..], j - 1)
  }

  predicate Distinct(s: seq<int>) { forall i, j :: 0 <= i < j < |s| ==> s[i] != s[j] }

  /** On no node is a call granted after a RoutingAPI that was granted. */
  ghost predicate NothingAfterRoutingAPI(allocs: map<int, Alloc>, calls: seq<NodeCall>)
    requires OnNodes(allocs, calls)
  {
    forall i, j | 0 <= i < j < |calls| && calls[i].node == calls[j].node && calls[i].call.RoutingAPI? ::
      Granted(allocs, calls, i) ==> !Granted(allocs, calls, j)
  }

  // ---------- allocators that cannot wrap and whose ranges are apart ----------

  predicate NoWrap(p: Alloc) { Top(p.next as int, p.end as int) + GARDEN_POOL <= 65536 }

  /** x is in what is left of the range, or the port after it. */
  predicate Ahead(p: Alloc, x: int) { p.next as int <= x <= p.end as int + 1 }

  ghost predicate Apart(allocs: map<int, Alloc>) {
    && (forall a :: a in allocs ==> NoWrap(allocs[a]))
    && (forall a, b, x | a in allocs && b in allocs && Ahead(allocs[a], x) && Ahead(allocs[b], x) :: a == b)
  }

  /** One call: its ports start at the next one, and all but the mutual-TLS port are behind the
      allocator afterwards; that one is the next port. */
  lemma ConfigureNoWrap(p: Alloc, c: Call)
    requires NoWrap(p)
    ensures var (ports, p') := Configure(p, c);
            && NoWrap(p') && p'.end == p.end && p.next <= p'.next
            && Distinct(ports)
            && (ports == [] ==> p' == p)
            && (ports != [] ==> ports[0] == p.next as int && p'.next as int <= p.end as int + 1)
            && (forall x :: x in ports ==> Ahead(p, x) && (x < p'.next as int || (c.RoutingAPI? && x == p'.next as int)))
            && (c.RoutingAPI? && ports != [] ==> p'.next as int in ports)
  {
    if Claims(c) > 0 {
      ClaimInStep(p, p.end as int, Top(p.next as int, p.end as int), Claims(c));
      hide Claim, NoWrap;
      if Claim(p, Claims(c)).0.Ok? {
        NoPortWraps(p, c);
      }
    }
  }

  lemma NoPortWraps(p: Alloc, c: Call)
    requires NoWrap(p) && p.next <= p.end
    ensures ConfiguredPorts(c, p.next) == PortsFrom(p.next as int, if c.RoutingAPI? then 3 else if c.Garden? then 10 else Claims(c))
  {
    TruncateSmall(p.next as int + 1);
    TruncateSmall(p.next as int + 2);
    TruncateSmall(p.next as int + 3);
  }

  lemma StaysApart(allocs: map<int, Alloc>, c: NodeCall)
    requires Apart(allocs) && c.node in allocs
    ensures Apart(AfterCall(allocs, c))
  {
    hide Configure, NoWrap;
    ConfigureNoWrap(allocs[c.node], c.call);
  }

  /** A configured port is ahead of the allocator of some node. */
  lemma {:induction false} ConfiguredAhead(allocs: map<int, Alloc>, calls: seq<NodeCall>, x: int) returns (node: int)
    requires Apart(allocs) && OnNodes(allocs, calls) && x in Configured(allocs, calls)
    ensures node in allocs && Ahead(allocs[node], x)
    decreases |calls|
  {
    hide Configure, NoWrap;
    var c := calls[0];
    ConfigureNoWrap(allocs[c.node], c.call);
    if x in Configure(allocs[c.node], c.call).0 {
      node := c.node;
    } else {
      StaysApart(allocs, c);
      node := ConfiguredAhead(AfterCall(allocs, c), calls[1..], x);
    }
  }

  // ---------- when all configured ports differ ----------

  /** Some call on the node is granted ports. */
  ghost predicate SomeGranted(allocs: map<int, Alloc>, calls: seq<NodeCall>, node: int)
    requires OnNodes(allocs, calls)
  {
    exists j :: 0 <= j < |calls| && calls[j].node == node && Granted(allocs, calls, j)
  }

  lemma SomeGrantedFirst(allocs: map<int, Alloc>, calls: seq<NodeCall>, node: int)
    requires OnNodes(allocs, calls) && calls != []
    ensures SomeGranted(allocs, calls, node) <==>
            || (calls[0].node == node && Configure(allocs[node], calls[0].call).0 != [])
            || SomeGranted(AfterCall(allocs, calls[0]), calls[1..], node)
  {
    hide Configure;
    var allocs', rest := AfterCall(allocs, calls[0]), calls[1..];
    forall j | 0 < j < |calls|
      ensures calls[j] == rest[j - 1] && Granted(allocs, calls, j) == Granted(allocs', rest, j - 1)
    {
    }
    if SomeGranted(allocs', rest, node) {
      var j :| 0 <= j < |rest| && rest[j].node == node && Granted(allocs', rest, j);
      assert Granted(allocs, calls, j + 1) && calls[j + 1].node == node;
    }
    if calls[0].node == node && Configure(allocs[node], calls[0].call).0 != [] {
      assert Granted(allocs, calls, 0);
    }
  }

  lemma NothingAfterFirst(allocs: map<int, Alloc>, calls: seq<NodeCall>)
    requires OnNodes(allocs, calls) && calls != []
    ensures NothingAfterRoutingAPI(allocs, calls) <==>
            var c, allocs', rest := calls[0], AfterCall(allocs, calls[0]), calls[1..];
            && NothingAfterRoutingAPI(allocs', rest)
            && (c.call.RoutingAPI? && Configure(allocs[c.node], c.call).0 != [] ==> !SomeGranted(allocs', rest, c.node))
  {
    hide Configure;
    var c, allocs', rest := calls[0], AfterCall(allocs, calls[0]), calls[1..];
    forall j | 0 < j < |calls|
      ensures calls[j] == rest[j - 1] && Granted(allocs, calls, j) == Granted(allocs', rest, j - 1)
    {
    }
    assert Granted(allocs, calls, 0) == (Configure(allocs[c.node], c.call).0 != []);
    if NothingAfterRoutingAPI(allocs, calls) {
      forall i, j | 0 <= i < j < |rest| && rest[i].node == rest[j].node && rest[i].call.RoutingAPI?
        ensures Granted(allocs', rest, i) ==> !Granted(allocs', rest, j)
      {
        assert calls[i + 1] == rest[i] && calls[j + 1] == rest[j];
        assert Granted(allocs, calls, i + 1) ==> !Granted(allocs, calls, j + 1);
      }
      forall j | c.call.RoutingAPI? && Granted(allocs, calls, 0) && 0 <= j < |rest| && rest[j].node == c.node
        ensures !Granted(allocs', rest, j)
      {
        assert calls[j + 1] == rest[j] && Granted(allocs, calls, j + 1) == Granted(allocs', rest, j);
      }
    }
  }

  /** The next port of a node is configured later exactly if a later call on the node is granted. */
  lemma {:induction false} NextConfiguredIff(allocs: map<int, Alloc>, calls: seq<NodeCall>, node: int)
    requires Apart(allocs) && OnNodes(allocs, calls)
    requires node in allocs && allocs[node].next as int <= allocs[node].end as int + 1
    ensures allocs[node].next as int in Configured(allocs, calls) <==> SomeGranted(allocs, calls, node)
    decreases |calls|
  {
    hide Configure, NoWrap;
    if calls != [] {
      var c := calls[0];
      SomeGrantedFirst(allocs, calls, node);
      ConfigureNoWrap(allocs[c.node], c.call);
      StaysApart(allocs, c);
      var ports := Configure(allocs[c.node], c.call).0;
      assert Ahead(allocs[node], allocs[node].next as int);
      if c.node != node || ports == [] {
        NextConfiguredIff(AfterCall(allocs, c), calls[1..], node);
      } else {
        assert ports[0] in ports;
      }
    }
  }

  lemma DistinctConcat(a: seq<int>, b: seq<int>)
    ensures Distinct(a + b) <==> Distinct(a) && Distinct(b) && forall x :: x in a ==> x !in b
  {
    var s := a + b;
    if Distinct(s) {
      forall i, j | 0 <= i < j < |a| ensures a[i] != a[j] {
        assert s[i] == a[i] && s[j] == a[j];
      }
      forall i, j | 0 <= i < j < |b| ensures b[i] != b[j] {
        assert s[|a| + i] == b[i] && s[|a| + j] == b[j];
      }
      forall i, j | 0 <= i < |a| && 0 <= j < |b| ensures a[i] != b[j] {
        assert s[i] == a[i] && s[|a| + j] == b[j];
      }
    } else {
      var i, j :| 0 <= i < j < |s| && s[i] == s[j];
      if i < |a| <= j {
        assert a[i] in a && b[j - |a|] in b;
      } else if i >= |a| {
        assert b[i - |a|] == b[j - |a|];
      }
    }
  }

  /** One call's ports meet later ones exactly if the call is a RoutingAPI and a later call on its
      node is granted. */
  lemma MeetsLater(allocs: map<int, Alloc>, calls: seq<NodeCall>)
    requires Apart(allocs) && OnNodes(allocs, calls) && calls != []
    ensures var c, allocs', rest := calls[0], AfterCall(allocs, calls[0]), calls[1..];
            var ports := Configure(allocs[c.node], c.call).0;
            (forall x :: x in ports ==> x !in Configured(allocs', rest)) <==>
            (c.call.RoutingAPI? && ports != [] ==> !SomeGranted(allocs', rest, c.node))
  {
    hide Configure, NoWrap, Configured, SomeGranted;
    var c, allocs', rest := calls[0], AfterCall(allocs, calls[0]), calls[1..];
    var (ports, p') := Configure(allocs[c.node], c.call);
    ConfigureNoWrap(allocs[c.node], c.call);
    StaysApart(allocs, c);
    if ports != [] {
      NextConfiguredIff(allocs', rest, c.node);
    }
    forall x | x in ports && x in Configured(allocs', rest) ensures c.call.RoutingAPI? && x == p'.next as int {
      var node := ConfiguredAhead(allocs', rest, x);
      assert Ahead(allocs[c.node], x);
    }
  }

  /** Over all interleavings of all calls, on allocators that cannot wrap and whose ranges are
      apart: the configured ports are pairwise distinct if and only if nothing is granted on a node
      after a RoutingAPI. */
  lemma {:induction false} ConfiguredDistinctIff(allocs: map<int, Alloc>, calls: seq<NodeCall>)
    requires Apart(allocs) && OnNodes(allocs, calls)
    ensures Distinct(Configured(allocs, calls)) <==> NothingAfterRoutingAPI(allocs, calls)
    decreases |calls|
  {
    hide Configure, NoWrap, Apart, SomeGranted;
    if calls != [] {
      var c, allocs', rest := calls[0], AfterCall(allocs, calls[0]), calls[1..];
      NothingAfterFirst(allocs, calls);
      MeetsLater(allocs, calls);
      StaysApart(allocs, c);
      ConfiguredDistinctIff(allocs', rest);
      FirstDistinct(allocs, c);
      DistinctConcat(Configure(allocs[c.node], c.call).0, Configured(allocs', rest));
    }
  }

  lemma FirstDistinct(allocs: map<int, Alloc>, c: NodeCall)
    requires Apart(allocs) && c.node in allocs
    ensures Distinct(Configure(allocs[c.node], c.call).0)
  {
    hide Configure, NoWrap, Distinct;
    ConfigureNoWrap(allocs[c.node], c.call);
  }

  // ---------- one allocator, and the suite's ----------

  /** For a single allocator that leaves room for the largest claim below port 65536. */
  lemma OneAllocatorDistinctIff(p: Alloc, node: int, calls: seq<NodeCall>)
    requires NoWrap(p) && forall i :: 0 <= i < |calls| ==> calls[i].node == node
    ensures Distinct(Configured(map[node := p], calls)) <==> NothingAfterRoutingAPI(map[node := p], calls)
  {
    hide NoWrap, Configured, Distinct, Granted, NothingAfterRoutingAPI;
    ConfiguredDistinctIff(map[node := p], calls);
  }

  lemma SuiteApart(nodes: nat)
    requires nodes <= 64
    ensures Apart(SuiteAllocs(nodes))
  {
    forall node | 1 <= node <= nodes
      ensures NodeAlloc(node) == Alloc(StartPort(node) as uint16, EndPort(node) as uint16)
    {
      AllocatorPerNode(node);
    }
  }

  /** The same for every number of nodes that the suite can have. */
  lemma SuiteDistinctIff(nodes: nat, calls: seq<NodeCall>)
    requires nodes <= 64 && forall i :: 0 <= i < |calls| ==> 1 <= calls[i].node <= nodes
    ensures Distinct(Configured(SuiteAllocs(nodes), calls)) <==> NothingAfterRoutingAPI(SuiteAllocs(nodes), calls)
  {
    hide Configured, Distinct, Granted, NothingAfterRoutingAPI, NodeAlloc;
    SuiteApart(nodes);
    ConfiguredDistinctIff(SuiteAllocs(nodes), calls);
  }
}
