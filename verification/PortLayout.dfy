/**
 How the suite shares out port numbers: fixed component addresses and cell addresses that are
 offset by the parallel node, and one allocator per node.
 */
module PortLayout {
  import opened PortAuthority

  /** offsetPort keeps the node offset of the base port in the last decimal digit. */
  function OffsetPort(basePort: int, offset: int): int { basePort + 10 * offset }

  const REP_BASE := 14000

  /** The two listen ports of RepN(k) on a node. */
  function RepListenPort(node: int, k: int): int { OffsetPort(REP_BASE + node, k) }

  function RepSecurablePort(node: int, k: int): int { OffsetPort(REP_BASE + node + 100, k) }

  lemma RepPortsCoincide(a: int, k: int, b: int, j: int)
    ensures RepListenPort(a, k) == RepListenPort(b, j) <==> a - b == 10 * (j - k)
    ensures RepSecurablePort(a, k) == RepSecurablePort(b, j) <==> a - b == 10 * (j - k)
    ensures RepListenPort(a, k) == RepSecurablePort(b, j) <==> a - b == 10 * (j - k) + 100
    ensures RepListenPort(a, k) == 14000 + a + 10 * k && RepSecurablePort(a, k) == RepListenPort(a, k) + 100
  {
  }

  /** Cells of different nodes among lo .. lo+width-1 listen on different ports. */
  ghost predicate NodesApart(lo: int, width: nat) {
    forall a, k: nat, b, j: nat | lo <= a < lo + width && lo <= b < lo + width ::
      RepListenPort(a, k) == RepListenPort(b, j) ==> a == b
  }

  /** The promise in offsetPort's comment, that it does not interfere with the node offset, holds
      for all cell numbers exactly if at most ten consecutive nodes run. */
  lemma OffsetsApartIffTenNodes(lo: int, width: nat)
    ensures NodesApart(lo, width) <==> width <= 10
  {
    if width > 10 {
      assert RepListenPort(lo + 10, 0) == RepListenPort(lo, 1);
    }
  }

  // ---------- the whole layout ----------

  datatype Component =
    | Garden | NATS | FileServer | Router | RouterStatus | RouterRoutes | RouterRouteServices
    | BBS | Health | Auctioneer | SSHProxy | SSHProxyHealthCheck | FakeVolmanDriver | Locket

  /** Ports of the address table; the Rep address is the base of the cells. */
  function ComponentPort(node: int, c: Component): int {
    match c
    case Garden => 10000 + node
    case NATS => 11000 + node
    case FileServer => 17000 + node
    case Router => 18000 + node
    case RouterStatus => 18100 + node
    case RouterRoutes => 18200 + node
    case RouterRouteServices => 18300 + node
    case BBS => 20500 + node * 2
    case Health => 20500 + node * 2 + 1
    case Auctioneer => 23000 + node
    case SSHProxy => 23500 + node
    case SSHProxyHealthCheck => 24500 + node
    case FakeVolmanDriver => 25500 + node
    case Locket => 26500 + node
  }

  /** The first node's addresses, and how far apart those of neighbouring nodes are. */
  lemma AddressTable(node: int, c: Component)
    ensures ComponentPort(1, Garden) == 10001 && ComponentPort(1, NATS) == 11001 && ComponentPort(1, FileServer) == 17001
    ensures ComponentPort(1, Router) == 18001 && ComponentPort(1, RouterStatus) == 18101
    ensures ComponentPort(1, RouterRoutes) == 18201 && ComponentPort(1, RouterRouteServices) == 18301
    ensures ComponentPort(1, BBS) == 20502 && ComponentPort(1, Health) == 20503 && ComponentPort(1, Auctioneer) == 23001
    ensures ComponentPort(1, SSHProxy) == 23501 && ComponentPort(1, SSHProxyHealthCheck) == 24501
    ensures ComponentPort(1, FakeVolmanDriver) == 25501 && ComponentPort(1, Locket) == 26501
    ensures ComponentPort(node + 1, c) - ComponentPort(node, c) == if c.BBS? || c.Health? then 2 else 1
  {
  }

  const PORT_RANGE := 950

  function StartPort(node: int): int { 1000 * node }

  function EndPort(node: int): int { StartPort(node) + PORT_RANGE }

  /** Everything on a node that takes a port: a component, either listener of cell k, or the port
      at some offset in the range of the node's allocator. */
  datatype Slot = Fixed(c: Component) | RepListen(k: nat) | RepSecurable(k: nat) | Claimed(offset: nat)

  function Port(node: int, slot: Slot): int {
    match slot
    case Fixed(c) => ComponentPort(node, c)
    case RepListen(k) => RepListenPort(node, k)
    case RepSecurable(k) => RepSecurablePort(node, k)
    case Claimed(offset) => StartPort(node) + offset
  }

  predicate Used(slot: Slot, cells: nat) {
    match slot
    case Fixed(_) => true
    case RepListen(k) => k < cells
    case RepSecurable(k) => k < cells
    case Claimed(offset) => offset <= PORT_RANGE
  }

  /** With `nodes` parallel nodes and `cells` cells on each, no port number has two uses. */
  ghost predicate ConflictFree(nodes: nat, cells: nat) {
    forall a, s, b, t | 1 <= a <= nodes && 1 <= b <= nodes && Used(s, cells) && Used(t, cells) ::
      Port(a, s) == Port(b, t) ==> a == b && s == t
  }

  /** Where the ports of a kind of slot lie when at most nine nodes with ten cells run. */
  function Zone(slot: Slot): (int, int) {
    match slot
    case Fixed(BBS) => (20502, 20520)
    case Fixed(Health) => (20502, 20520)
    case Fixed(c) => (ComponentPort(1, c), ComponentPort(10, c))
    case RepListen(_) => (14001, 14101)
    case RepSecurable(_) => (14101, 14201)
    case Claimed(_) => (1000, 9951)
  }

  lemma InZone(a: int, s: Slot)
    requires 1 <= a <= 9 && Used(s, 10)
    ensures Zone(s).0 <= Port(a, s) < Zone(s).1
  {
  }

  lemma ZonesApart(s: Slot, t: Slot)
    requires Zone(s).0 < Zone(t).1 && Zone(t).0 < Zone(s).1
    ensures match s
            case Fixed(BBS) => t == s || t == Fixed(Health)
            case Fixed(Health) => t == s || t == Fixed(BBS)
            case Fixed(_) => t == s
            case RepListen(_) => t.RepListen?
            case RepSecurable(_) => t.RepSecurable?
            case Claimed(_) => t.Claimed?
  {
  }

  lemma NineNodesApart(a: int, s: Slot, b: int, t: Slot)
    requires 1 <= a <= 9 && 1 <= b <= 9 && Used(s, 10) && Used(t, 10) && Port(a, s) == Port(b, t)
    ensures a == b && s == t
  {
    InZone(a, s);
    InZone(b, t);
    ZonesApart(s, t);
  }

  /** The layout is free of conflicts exactly up to nine nodes with ten cells each. */
  lemma ConflictFreeIff(nodes: nat, cells: nat)
    requires 1 <= nodes
    ensures ConflictFree(nodes, cells) <==> nodes <= 9 && cells <= 10
  {
    if nodes > 9 {
      assert Used(Fixed(Garden), cells) && Used(Claimed(1), cells);
      assert Port(1, Fixed(Garden)) == Port(10, Claimed(1));
    } else if cells > 10 {
      assert Used(RepListen(10), cells) && Used(RepSecurable(0), cells);
      assert Port(1, RepListen(10)) == Port(1, RepSecurable(0));
    } else {
      forall a, s, b, t | 1 <= a <= nodes && 1 <= b <= nodes && Used(s, cells) && Used(t, cells) && Port(a, s) == Port(b, t)
        ensures a == b && s == t
      {
        NineNodesApart(a, s, b, t);
      }
    }
  }

  // ---------- one allocator per node ----------

  /** The suite can give a node an allocator just up to node 64. */
  lemma AllocatorPerNode(node: int)
    requires 1 <= node
    ensures NewSpec(StartPort(node), EndPort(node)).Ok? <==> node <= 64
    ensures node <= 64 ==>
              && NewSpec(StartPort(node), EndPort(node)).value == Alloc(StartPort(node) as uint16, EndPort(node) as uint16)
              && StartPort(node) == 1000 * node && EndPort(node) == 1000 * node + 950
  {
  }

  /** A request of n ports on a node. */
  datatype NodeClaim = NodeClaim(node: int, n: int)

  datatype NodeBlock = NodeBlock(node: int, block: Block)

  function NodeAlloc(node: int): Alloc
    requires 1 <= node <= 64
  {
    NewSpec(StartPort(node), EndPort(node)).value
  }

  /** Any interleaving of the claims of all nodes, each on its own allocator. */
  function NodeGrants(allocs: map<int, Alloc>, claims: seq<NodeClaim>): seq<NodeBlock>
    requires forall i :: 0 <= i < |claims| ==> claims[i].node in allocs
    decreases |claims|
  {
    if claims == [] then []
    else
      var NodeClaim(node, n) := claims[0];
      var (r, p) := Claim(allocs[node], n);
      (if r.Ok? then [NodeBlock(node, Block(r.value as int, n))] else [])
      + NodeGrants(allocs[node := p], claims[1..])
  }

  function ClaimsOf(claims: seq<NodeClaim>, node: int): seq<int> {
    if claims == [] then []
    else (if claims[0].node == node then [claims[0].n] else []) + ClaimsOf(claims[1..], node)
  }

  function BlocksOf(blocks: seq<NodeBlock>, node: int): seq<Block> {
    if blocks == [] then []
    else (if blocks[0].node == node then [blocks[0].block] else []) + BlocksOf(blocks[1..], node)
  }

  /** A node sees of an interleaving just its own claims, run alone. */
  lemma {:induction false} Projection(allocs: map<int, Alloc>, claims: seq<NodeClaim>, node: int)
    requires node in allocs && forall i :: 0 <= i < |claims| ==> claims[i].node in allocs
    ensures BlocksOf(NodeGrants(allocs, claims), node) == Grants(allocs[node], ClaimsOf(claims, node))
    decreases |claims|
  {
    if claims != [] {
      var NodeClaim(other, n) := claims[0];
      var (r, p) := Claim(allocs[other], n);
      var rest := NodeGrants(allocs[other := p], claims[1..]);
      Projection(allocs[other := p], claims[1..], node);
      if r.Ok? {
        assert NodeGrants(allocs, claims)[1..] == rest;
      } else {
        assert NodeGrants(allocs, claims) == rest;
      }
      if other == node {
        assert ClaimsOf(claims, node)[0] == n && ClaimsOf(claims, node)[1..] == ClaimsOf(claims[1..], node);
      } else {
        assert ClaimsOf(claims, node) == ClaimsOf(claims[1..], node);
      }
    }
  }

  function SuiteAllocs(nodes: nat): map<int, Alloc>
    requires nodes <= 64
  {
    map node | 1 <= node <= nodes :: NodeAlloc(node)
  }

  predicate SuiteClaims(claims: seq<NodeClaim>, nodes: nat, bound: int) {
    forall i :: 0 <= i < |claims| ==> 1 <= claims[i].node <= nodes && 1 <= claims[i].n <= bound
  }

  /** Every granted block lies in its node's range, and no two blocks share a port. */
  predicate Isolated(blocks: seq<NodeBlock>) {
    && (forall i :: 0 <= i < |blocks| ==>
          InRange(blocks[i].block, StartPort(blocks[i].node), EndPort(blocks[i].node)))
    && (forall i, j :: 0 <= i < j < |blocks| ==> !Overlap(blocks[i].block, blocks[j].block))
  }

  ghost predicate AlwaysIsolated(nodes: nat, bound: int)
    requires nodes <= 64
  {
    forall claims | SuiteClaims(claims, nodes, bound) :: Isolated(NodeGrants(SuiteAllocs(nodes), claims))
  }

  lemma {:induction false} ClaimsOfBounded(claims: seq<NodeClaim>, nodes: nat, bound: int, node: int)
    requires SuiteClaims(claims, nodes, bound)
    ensures Bounded(ClaimsOf(claims, node), bound)
    decreases |claims|
  {
    if claims != [] {
      ClaimsOfBounded(claims[1..], nodes, bound, node);
    }
  }

  lemma {:induction false} GrantedNodes(allocs: map<int, Alloc>, claims: seq<NodeClaim>)
    requires forall i :: 0 <= i < |claims| ==> claims[i].node in allocs
    ensures forall i :: 0 <= i < |NodeGrants(allocs, claims)| ==> NodeGrants(allocs, claims)[i].node in allocs
    decreases |claims|
  {
    if claims != [] {
      var (r, p) := Claim(allocs[claims[0].node], claims[0].n);
      GrantedNodes(allocs[claims[0].node := p], claims[1..]);
    }
  }

  /** The block at position i is in the projection on its node, and two blocks of one node stay
      in order there. */
  lemma {:induction false} InProjection(blocks: seq<NodeBlock>, i: nat) returns (k: nat)
    requires i < |blocks|
    ensures k < |BlocksOf(blocks, blocks[i].node)| && BlocksOf(blocks, blocks[i].node)[k] == blocks[i].block
    decreases |blocks|
  {
    var node := blocks[i].node;
    if i == 0 {
      k := 0;
    } else {
      k := InProjection(blocks[1..], i - 1);
      if blocks[0].node == node {
        k := k + 1;
      }
    }
  }

  lemma {:induction false} PairInProjection(blocks: seq<NodeBlock>, i: nat, j: nat) returns (k: nat, m: nat)
    requires i < j < |blocks| && blocks[i].node == blocks[j].node
    ensures k < m < |BlocksOf(blocks, blocks[i].node)|
    ensures BlocksOf(blocks, blocks[i].node)[k] == blocks[i].block
    ensures BlocksOf(blocks, blocks[i].node)[m] == blocks[j].block
    decreases |blocks|
  {
    if i == 0 {
      m := InProjection(blocks[1..], j - 1);
      k, m := 0, m + 1;
    } else {
      k, m := PairInProjection(blocks[1..], i - 1, j - 1);
      if blocks[0].node == blocks[i].node {
        k, m := k + 1, m + 1;
      }
    }
  }

  /** Isolation of parallel nodes, whatever the interleaving of their claims. */
  lemma NodesIsolated(nodes: nat, bound: int, claims: seq<NodeClaim>)
    requires nodes <= 64 && SuiteClaims(claims, nodes, bound) && 1 <= bound && EndPort(nodes) + bound <= 65535
    ensures Isolated(NodeGrants(SuiteAllocs(nodes), claims))
  {
    var blocks := NodeGrants(SuiteAllocs(nodes), claims);
    GrantedNodes(SuiteAllocs(nodes), claims);
    forall node | 1 <= node <= nodes
      ensures SafeGrants(BlocksOf(blocks, node), StartPort(node), EndPort(node))
    {
      Projection(SuiteAllocs(nodes), claims, node);
      ClaimsOfBounded(claims, nodes, bound, node);
      RunIsSafe(StartPort(node), EndPort(node), ClaimsOf(claims, node), bound);
    }
    forall i | 0 <= i < |blocks|
      ensures InRange(blocks[i].block, StartPort(blocks[i].node), EndPort(blocks[i].node))
    {
      var k := InProjection(blocks, i);
    }
    forall i, j | 0 <= i < j < |blocks| ensures !Overlap(blocks[i].block, blocks[j].block) {
      if blocks[i].node == blocks[j].node {
        var k, m := PairInProjection(blocks, i, j);
      } else {
        var k := InProjection(blocks, i);
        var m := InProjection(blocks, j);
      }
    }
  }

  function OnNode(claims: seq<int>, node: int): seq<NodeClaim> {
    seq(|claims|, i requires 0 <= i < |claims| => NodeClaim(node, claims[i]))
  }

  lemma {:induction false} OnNodeClaims(claims: seq<int>, node: int)
    ensures ClaimsOf(OnNode(claims, node), node) == claims
    decreases |claims|
  {
    if claims != [] {
      assert OnNode(claims, node)[1..] == OnNode(claims[1..], node);
      OnNodeClaims(claims[1..], node);
    }
  }

  lemma {:induction false} OnNodeBlocks(allocs: map<int, Alloc>, claims: seq<int>, node: int)
    requires node in allocs
    ensures var blocks := NodeGrants(allocs, OnNode(claims, node));
            && |BlocksOf(blocks, node)| == |blocks|
            && forall i :: 0 <= i < |blocks| ==> blocks[i].node == node && BlocksOf(blocks, node)[i] == blocks[i].block
    decreases |claims|
  {
    if claims != [] {
      var (r, p) := Claim(allocs[node], claims[0]);
      assert OnNode(claims, node)[1..] == OnNode(claims[1..], node);
      OnNodeBlocks(allocs[node := p], claims[1..], node);
      var rest := NodeGrants(allocs[node := p], OnNode(claims[1..], node));
      var blocks := NodeGrants(allocs, OnNode(claims, node));
      if r.Ok? {
        assert blocks[1..] == rest;
        forall i | 0 < i < |blocks| ensures blocks[i].node == node && BlocksOf(blocks, node)[i] == blocks[i].block {
          assert blocks[i] == rest[i - 1];
        }
      } else {
        assert blocks == rest;
      }
    }
  }

  /** Isolation holds of all interleavings exactly while no request of the last node can wrap;
      for 64 nodes that is requests of up to 585 ports. */
  lemma IsolatedIff(nodes: nat, bound: int)
    requires 1 <= nodes <= 64 && 1 <= bound
    ensures AlwaysIsolated(nodes, bound) <==> EndPort(nodes) + bound <= 65535
  {
    var start, end := StartPort(nodes), EndPort(nodes);
    if end + bound <= 65535 {
      forall claims | SuiteClaims(claims, nodes, bound) ensures Isolated(NodeGrants(SuiteAllocs(nodes), claims)) {
        NodesIsolated(nodes, bound, claims);
      }
    } else {
      SafeIffNoWrap(start, end, bound);
      var claims :| Bounded(claims, bound) && !SafeGrants(Grants(NodeAlloc(nodes), claims), start, end);
      var all := OnNode(claims, nodes);
      Projection(SuiteAllocs(nodes), all, nodes);
      OnNodeClaims(claims, nodes);
      OnNodeBlocks(SuiteAllocs(nodes), claims, nodes);
      assert SuiteClaims(all, nodes, bound);
      assert !Isolated(NodeGrants(SuiteAllocs(nodes), all));
    }
  }
}
