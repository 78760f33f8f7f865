/**
 The port allocator: a bump allocator in wrapping 16-bit arithmetic, related to the allocator
 over the integers that its documentation describes.
 */
module PortAuthority {

  newtype uint16 = x: int | 0 <= x < 0x1_0000

  /** Go's conversion from int to uint16 keeps the low 16 bits, also of negative numbers. */
  function Truncate(x: int): uint16 { (x % 0x1_0000) as uint16 }

  /** Go's addition on uint16. */
  function Add(x: uint16, y: uint16): uint16 { Truncate(x as int + y as int) }

  datatype Result<+T> = Ok(value: T) | Err(message: string)

  const INVALID_RANGE := "Invalid port range requested. Ports can only be numbers between 0-65535"
  const INSUFFICIENT := "insufficient ports available"

  /** The value of an allocator object. */
  datatype Alloc = Alloc(next: uint16, end: uint16)

  /** Outcome of New. */
  function NewSpec(startingPort: int, endingPort: int): Result<Alloc> {
    if endingPort > 65535 then Err(INVALID_RANGE)
    else Ok(Alloc(Truncate(startingPort), Truncate(endingPort)))
  }

  /** Outcome of ClaimPorts, and the allocator afterwards. */
  function Claim(p: Alloc, numPorts: int): (Result<uint16>, Alloc) {
    if p.end < Add(p.next, Truncate(numPorts - 1)) then (Err(INSUFFICIENT), p)
    else (Ok(p.next), p.(next := Add(p.next, Truncate(numPorts))))
  }

  /** The specification written out modulo 65536. */
  lemma ClaimModulo(p: Alloc, numPorts: int)
    ensures Claim(p, numPorts).0.Ok? <==> (p.next as int + numPorts - 1) % 0x1_0000 <= p.end as int
    ensures Add(p.next, Truncate(numPorts)) as int == (p.next as int + numPorts) % 0x1_0000
  {
    AddModulo(p.next, numPorts - 1);
    AddModulo(p.next, numPorts);
    hide Truncate, Add;
  }

  lemma AddModulo(x: uint16, n: int)
    ensures Add(x, Truncate(n)) as int == (x as int + n) % 0x1_0000
  {
    var low, high := n % 0x1_0000, n / 0x1_0000;
    var sum := x as int + low;
    assert x as int + n == 0x1_0000 * (sum / 0x1_0000 + high) + sum % 0x1_0000;
  }

  class PortAllocator {
    var nextPort: uint16
    const endingPort: uint16

    ghost function View(): Alloc
      reads this
    {
      Alloc(nextPort, endingPort)
    }

    constructor (startingPort: int, endingPort: int)
      ensures View() == Alloc(Truncate(startingPort), Truncate(endingPort))
    {
      this.nextPort := Truncate(startingPort);
      this.endingPort := Truncate(endingPort);
    }

    static method New(startingPort: int, endingPort: int) returns (r: Result<PortAllocator>)
      ensures r.Err? <==> NewSpec(startingPort, endingPort).Err?
      ensures r.Err? <==> endingPort > 65535
      ensures r.Ok? ==>
                && r.value.nextPort as int == startingPort % 0x1_0000
                && r.value.endingPort as int == endingPort % 0x1_0000
      ensures r.Err? ==> r.message == NewSpec(startingPort, endingPort).message
      ensures r.Ok? ==> fresh(r.value) && r.value.View() == NewSpec(startingPort, endingPort).value
    {
      if endingPort > 65535 {
        return Err(INVALID_RANGE);
      }
      var p := new PortAllocator(startingPort, endingPort);
      return Ok(p);
    }

    method ClaimPorts(numPorts: int) returns (r: Result<uint16>)
      modifies `nextPort
      ensures (r, View()) == Claim(old(View()), numPorts)
      ensures r.Ok? <==> (old(nextPort) as int + numPorts - 1) % 0x1_0000 <= endingPort as int
      ensures r.Ok? ==> r.value == old(nextPort) && nextPort as int == (old(nextPort) as int + numPorts) % 0x1_0000
      ensures r.Err? ==> nextPort == old(nextPort)
    {
      ClaimModulo(View(), numPorts);
      hide Truncate, Add;
      var port := nextPort;
      if endingPort < Add(port, Truncate(numPorts - 1)) {
        return Err(INSUFFICIENT);
      }
      nextPort := Add(nextPort, Truncate(numPorts));
      return Ok(port);
    }
  }

  lemma TruncateSmall(x: int)
    requires 0 <= x < 0x1_0000
    ensures Truncate(x) as int == x
  {
  }

  // ---------- the constructor ----------

  /** New keeps the range it is given exactly when both ends are port numbers; it refuses only
      an end that is too large. */
  lemma NewKeepsRange(startingPort: int, endingPort: int)
    ensures NewSpec(startingPort, endingPort).Err? <==> endingPort > 65535
    ensures (NewSpec(startingPort, endingPort).Ok? &&
             NewSpec(startingPort, endingPort).value.next as int == startingPort &&
             NewSpec(startingPort, endingPort).value.end as int == endingPort)
            <==> 0 <= startingPort <= 65535 && 0 <= endingPort <= 65535
  {
  }

  // ---------- one claim against the allocator over the integers ----------

  /** The documented allocator: a claim is granted if the ports next .. next+n-1 are in range. */
  function Ideal(next: int, end: int, n: int): (bool, int) {
    if next + n - 1 <= end then (true, next + n) else (false, next)
  }

  /** For every request, also zero and negative ones: the decision differs from the documented
      one exactly if the last port wraps into the range, or wraps out of it from below. */
  lemma DecisionRefinement(p: Alloc, n: int)
    ensures var last := p.next as int + n - 1;
            Claim(p, n).0.Ok? != Ideal(p.next as int, p.end as int, n).0
            <==> (last > 65535 && last % 0x1_0000 <= p.end as int) || (last < 0 && last % 0x1_0000 > p.end as int)
  {
  }

  /** For a request of at least one port, only the first of these happens. */
  lemma PositiveDecisionRefinement(p: Alloc, n: int)
    requires 1 <= n
    ensures var last := p.next as int + n - 1;
            Claim(p, n).0.Ok? != Ideal(p.next as int, p.end as int, n).0
            <==> last > 65535 && last % 0x1_0000 <= p.end as int
  {
    DecisionRefinement(p, n);
  }

  /** Where both grant a request, of whatever number of ports, they grant the same first port, and
      the allocators differ afterwards exactly if the last port of all was granted or a negative
      request goes below port 0. */
  lemma StateRefinement(p: Alloc, n: int)
    requires Claim(p, n).0.Ok? && Ideal(p.next as int, p.end as int, n).0
    ensures Claim(p, n).0.value == p.next
    ensures Claim(p, n).1.next as int != Ideal(p.next as int, p.end as int, n).1
            <==> p.next as int + n == 0x1_0000 || p.next as int + n < 0
    ensures p.next as int + n == 0x1_0000 ==> p.end == 65535 && Claim(p, n).1.next == 0
  {
  }

  /** A request for no ports is granted just when the port before the next one is in range. */
  lemma ZeroPorts(p: Alloc)
    ensures Claim(p, 0).0.Ok? <==> (if p.next == 0 then p.end == 65535 else p.next as int - 1 <= p.end as int)
    ensures Claim(p, 0).1 == p
  {
  }

  // ---------- runs ----------

  /** A granted block: the ports first .. first+count-1. */
  datatype Block = Block(first: int, count: int)

  predicate Overlap(a: Block, b: Block) {
    a.first < b.first + b.count && b.first < a.first + a.count
  }

  predicate InRange(b: Block, start: int, end: int) {
    start <= b.first && b.first + b.count - 1 <= end
  }

  /** The blocks that a run of claims is granted. */
  function Grants(p: Alloc, claims: seq<int>): seq<Block>
    decreases |claims|
  {
    if claims == [] then []
    else
      var (r, p') := Claim(p, claims[0]);
      (if r.Ok? then [Block(r.value as int, claims[0])] else []) + Grants(p', claims[1..])
  }

  function After(p: Alloc, claims: seq<int>): Alloc
    decreases |claims|
  {
    if claims == [] then p else After(Claim(p, claims[0]).1, claims[1..])
  }

  function Total(blocks: seq<Block>): int {
    if blocks == [] then 0 else blocks[0].count + Total(blocks[1..])
  }

  function Sum(claims: seq<int>): int {
    if claims == [] then 0 else claims[0] + Sum(claims[1..])
  }

  /** Blocks one after another without a gap, from `from` to `to`. */
  predicate Contiguous(blocks: seq<Block>, from: int, to: int) {
    if blocks == [] then from == to
    else blocks[0].first == from && 1 <= blocks[0].count && Contiguous(blocks[1..], from + blocks[0].count, to)
  }

  /** What the documentation promises of a run from `start`: blocks in the range, no port twice. */
  predicate SafeGrants(blocks: seq<Block>, start: int, end: int) {
    && (forall i :: 0 <= i < |blocks| ==> InRange(blocks[i], start, end))
    && (forall i, j :: 0 <= i < j < |blocks| ==> !Overlap(blocks[i], blocks[j]))
  }

  /** Requests of at least one and at most `bound` ports. */
  predicate Bounded(claims: seq<int>, bound: int) {
    forall i :: 0 <= i < |claims| ==> 1 <= claims[i] <= bound
  }

  /** The largest value that the next port can reach. */
  function Top(start: int, end: int): int { if start <= end then end + 1 else start }

  /** The allocator has ending port `end` and has not passed `top`. */
  predicate InStep(p: Alloc, end: int, top: int) {
    p.end as int == end < top && p.next as int <= top
  }

  /** Where no request can wrap, a claim is granted just if enough ports remain, takes the next
      ports, and a failed claim changes nothing. */
  lemma ClaimInStep(p: Alloc, end: int, top: int, n: int)
    requires InStep(p, end, top) && 1 <= n && top + n <= 65536
    ensures var (r, p') := Claim(p, n);
            && (r.Ok? <==> n <= end + 1 - p.next as int)
            && (r.Ok? ==> r.value == p.next && p'.next as int == p.next as int + n)
            && (r.Err? ==> p' == p)
            && InStep(p', end, top)
  {
    TruncateSmall(n - 1);
    TruncateSmall(n);
    TruncateSmall(p.next as int + (n - 1));
    if p.next as int + n - 1 <= end {
      TruncateSmall(p.next as int + n);
    }
    hide Truncate;
  }

  /** Over a whole run: the blocks are contiguous and increasing, and the allocator moves by just
      the ports granted. */
  lemma {:induction false} RunInStep(p: Alloc, end: int, top: int, claims: seq<int>, bound: int)
    requires InStep(p, end, top) && Bounded(claims, bound) && top + bound <= 65536
    ensures InStep(After(p, claims), end, top)
    ensures Contiguous(Grants(p, claims), p.next as int, After(p, claims).next as int)
    ensures Grants(p, claims) != [] ==> After(p, claims).next as int <= end + 1
    ensures Grants(p, claims) == [] ==> After(p, claims) == p
    decreases |claims|
  {
    if claims != [] {
      ClaimInStep(p, end, top, claims[0]);
      RunInStep(Claim(p, claims[0]).1, end, top, claims[1..], bound);
      var (r, p') := Claim(p, claims[0]);
      if r.Ok? {
        assert Grants(p, claims)[1..] == Grants(p', claims[1..]);
      } else {
        assert Grants(p, claims) == Grants(p', claims[1..]);
      }
    }
  }

  lemma {:induction false} ContiguousIsSafe(blocks: seq<Block>, from: int, to: int)
    requires Contiguous(blocks, from, to)
    ensures from <= to && Total(blocks) == to - from
    ensures forall i :: 0 <= i < |blocks| ==>
              from <= blocks[i].first && 1 <= blocks[i].count && blocks[i].first + blocks[i].count <= to
    ensures forall i, j :: 0 <= i < j < |blocks| ==> blocks[i].first + blocks[i].count <= blocks[j].first
    decreases |blocks|
  {
    if blocks != [] {
      ContiguousIsSafe(blocks[1..], from + blocks[0].count, to);
      forall i | 0 < i < |blocks|
        ensures from + blocks[0].count <= blocks[i].first && 1 <= blocks[i].count && blocks[i].first + blocks[i].count <= to
      {
        assert blocks[i] == blocks[1..][i - 1];
      }
      forall i, j | 0 <= i < j < |blocks| ensures blocks[i].first + blocks[i].count <= blocks[j].first {
        assert blocks[j] == blocks[1..][j - 1];
        if i > 0 {
          assert blocks[i] == blocks[1..][i - 1];
        }
      }
    }
  }

  /** Conservation and safety of every run that cannot wrap: the ports granted are just those
      the allocator has moved over, each in the range and granted once. */
  lemma RunIsSafe(start: int, end: int, claims: seq<int>, bound: int)
    requires 0 <= start <= 65535 && 0 <= end <= 65535 && Bounded(claims, bound) && Top(start, end) + bound <= 65536
    ensures var p := NewSpec(start, end).value;
            && SafeGrants(Grants(p, claims), start, end)
            && Total(Grants(p, claims)) == After(p, claims).next as int - start
            && |Grants(p, claims)| <= Total(Grants(p, claims)) <= Top(start, end) - start
  {
    hide Claim, Grants, After, Truncate, Total, Contiguous;
    TruncateSmall(start);
    TruncateSmall(end);
    var p := NewSpec(start, end).value;
    RunInStep(p, end, Top(start, end), claims, bound);
    ContiguousIsSafe(Grants(p, claims), start, After(p, claims).next as int);
    CountedByTotal(Grants(p, claims), start, After(p, claims).next as int);
  }

  lemma {:induction false} CountedByTotal(blocks: seq<Block>, from: int, to: int)
    requires Contiguous(blocks, from, to)
    ensures |blocks| <= Total(blocks)
    decreases |blocks|
  {
    if blocks != [] {
      CountedByTotal(blocks[1..], from + blocks[0].count, to);
    }
  }

  // ---------- the bound is exact ----------

  /** Every run of requests up to `bound` on a fresh allocator is safe. */
  ghost predicate AlwaysSafe(start: int, end: int, bound: int)
    requires end <= 65535
  {
    forall claims :: Bounded(claims, bound) ==> SafeGrants(Grants(NewSpec(start, end).value, claims), start, end)
  }

  function Ones(k: nat): seq<int> { seq(k, _ => 1) }

  lemma {:induction false} RunConcat(p: Alloc, a: seq<int>, b: seq<int>)
    ensures Grants(p, a + b) == Grants(p, a) + Grants(After(p, a), b)
    ensures After(p, a + b) == After(After(p, a), b)
    decreases |a|
  {
    if a == [] {
      assert a + b == b;
    } else {
      assert (a + b)[0] == a[0] && (a + b)[1..] == a[1..] + b;
      RunConcat(Claim(p, a[0]).1, a[1..], b);
    }
  }

  /** Claiming one port at a time reaches every next port of the range. */
  lemma {:induction false} Drain(p: Alloc, k: nat)
    requires k == 0 || (p.next as int + k <= p.end as int + 1 && p.next as int + k <= 65535)
    ensures After(p, Ones(k)).next as int == p.next as int + k && After(p, Ones(k)).end == p.end
    ensures k > 0 ==> |Grants(p, Ones(k))| > 0 && Grants(p, Ones(k))[0] == Block(p.next as int, 1)
    decreases k
  {
    if k > 0 {
      assert Ones(k)[0] == 1 && Ones(k)[1..] == Ones(k - 1);
      Drain(Claim(p, 1).1, k - 1);
    }
  }

  /** A request whose last port is 65536 wraps to port 0 and is granted beyond the range. */
  lemma WrapToZero(p: Alloc, n: int)
    requires 2 <= n && p.next as int + n == 65537 && 1 <= p.next
    ensures Claim(p, n).0 == Ok(p.next)
    ensures Grants(p, [n]) == [Block(p.next as int, n)]
  {
    TruncateSmall(n - 1);
    assert Truncate(65536) == 0;
    assert Add(p.next, Truncate(n - 1)) == 0;
    assert [n][1..] == [];
    assert Grants(Claim(p, n).1, []) == [];
  }

  lemma WrappedRequestUnsafe(start: int, end: int, bound: int)
    requires 0 <= end < 65535 && Top(Truncate(start) as int, end) + bound > 65536
    ensures !AlwaysSafe(start, end, bound)
  {
    hide Claim, Grants, After;
    TruncateSmall(end);
    var p, top := NewSpec(start, end).value, Top(Truncate(start) as int, end);
    var k, n := top - p.next as int, 65537 - top;
    Drain(p, k);
    var q := After(p, Ones(k));
    RunConcat(p, Ones(k), [n]);
    var blocks := Grants(p, Ones(k) + [n]);
    WrapToZero(q, n);
    assert blocks[|blocks| - 1] == Block(top, n) && !InRange(Block(top, n), start, end);
    assert Bounded(Ones(k) + [n], bound);
  }

  /** The allocator with ending port 65535 goes on at port 0 after the last port. */
  lemma WrapsAtTheEnd()
    ensures Grants(Alloc(65535, 65535), [1]) == [Block(65535, 1)]
    ensures After(Alloc(65535, 65535), [1]) == Alloc(0, 65535)
  {
    assert [1][1..] == [];
    assert Claim(Alloc(65535, 65535), 1) == (Ok(65535), Alloc(0, 65535));
    assert Grants(Alloc(0, 65535), []) == [];
  }

  lemma OneMore(p: Alloc)
    requires p.next <= p.end
    ensures Grants(p, [1]) == [Block(p.next as int, 1)]
  {
    assert [1][1..] == [];
    assert Grants(Claim(p, 1).1, []) == [];
  }

  /** Claiming single ports until each has been granted once, and then the first one again. */
  function Round(p: Alloc): seq<int> {
    Ones(65535 - p.next as int) + [1] + Ones(p.next as int) + [1]
  }

  /** With ending port 65535 the allocator comes back to the port that it started from. */
  lemma GoesRound(p: Alloc)
    requires p.end == 65535
    ensures var blocks := Grants(p, Round(p));
            |blocks| >= 2 && blocks[0] == Block(p.next as int, 1) && blocks[|blocks| - 1] == blocks[0]
  {
    assert Ones(0) == [];
    hide Claim, Grants, After, Ones;
    var a, b := Ones(65535 - p.next as int), Ones(p.next as int);
    Drain(p, 65535 - p.next as int);
    RunConcat(p, a, [1]);
    WrapsAtTheEnd();
    RunConcat(p, a + [1], b);
    Drain(Alloc(0, 65535), p.next as int);
    RunConcat(p, a + [1] + b, [1]);
    OneMore(p);
    assert a == [] ==> a + [1] == [1];
    assert Grants(p, a + [1])[0] == Block(p.next as int, 1);
  }

  lemma FullRangeUnsafe(start: int, bound: int)
    requires 1 <= bound
    ensures !AlwaysSafe(start, 65535, bound)
  {
    hide Claim, Grants, After;
    var p := NewSpec(start, 65535).value;
    GoesRound(p);
    var blocks := Grants(p, Round(p));
    assert Overlap(blocks[0], blocks[|blocks| - 1]);
    assert Bounded(Round(p), bound);
  }

  /** Where no port number is promised, any grant breaks the promise. */
  lemma GrantUnsafe(start: int, end: int, bound: int, n: int)
    requires end <= 65535 && (end < 0 || start > 65535) && 1 <= n <= bound
    requires Claim(NewSpec(start, end).value, n).0.Ok?
    ensures !AlwaysSafe(start, end, bound)
  {
    var p := NewSpec(start, end).value;
    assert Bounded([n], bound);
    assert Grants(p, [n])[0] == Block(p.next as int, n) && !InRange(Grants(p, [n])[0], start, end);
  }

  lemma EmptyRange(start: int, end: int, bound: int)
    requires end <= 65535 && (end < 0 || start > 65535) && 1 <= bound
    ensures AlwaysSafe(start, end, bound) <==>
            Truncate(end) < Truncate(start) && Truncate(start) as int + bound <= 65536
  {
    hide Grants, After;
    var p := NewSpec(start, end).value;
    if p.next <= p.end {
      TruncateSmall(p.next as int);
      GrantUnsafe(start, end, bound, 1);
    } else if p.next as int + bound > 65536 {
      WrapToZero(p, 65537 - p.next as int);
      GrantUnsafe(start, end, bound, 65537 - p.next as int);
    } else {
      forall claims | Bounded(claims, bound) ensures SafeGrants(Grants(p, claims), start, end) {
        RunInStep(p, p.end as int, p.next as int, claims, bound);
        ContiguousIsSafe(Grants(p, claims), p.next as int, After(p, claims).next as int);
        assert Grants(p, claims) == [];
      }
    }
  }

  /** The promise of ClaimPorts holds of all runs with requests up to `bound` exactly if no such
      request can reach past 65535 from any next port and, where the range that New was given has
      no port number in it, the truncated range is empty too. */
  lemma SafeIffNoWrap(start: int, end: int, bound: int)
    requires end <= 65535 && 1 <= bound
    ensures AlwaysSafe(start, end, bound) <==>
            && Top(Truncate(start) as int, Truncate(end) as int) + bound <= 65536
            && (end < 0 || start > 65535 ==> Truncate(end) < Truncate(start))
  {
    hide Truncate, Claim, Grants;
    var s := Truncate(start) as int;
    if end < 0 || start > 65535 {
      EmptyRange(start, end, bound);
    } else {
      TruncateSmall(end);
      if Top(s, end) + bound > 65536 {
        if end < 65535 {
          WrappedRequestUnsafe(start, end, bound);
        } else {
          FullRangeUnsafe(start, bound);
        }
      } else {
        forall claims | Bounded(claims, bound) ensures SafeGrants(Grants(NewSpec(start, end).value, claims), start, end) {
          TruncateSmall(s);
          RunIsSafe(s, end, claims, bound);
          if 0 <= start {
            TruncateSmall(start);
          }
        }
      }
    }
  }

  // ---------- splitting a request ----------

  /** Every claim of the run is granted. */
  predicate AllGranted(p: Alloc, claims: seq<int>)
    decreases |claims|
  {
    claims == [] || (Claim(p, claims[0]).0.Ok? && AllGranted(Claim(p, claims[0]).1, claims[1..]))
  }

  lemma {:induction false} SumAtLeastOne(claims: seq<int>, bound: int)
    requires claims != [] && Bounded(claims, bound)
    ensures Sum(claims) >= claims[0] >= 1 && (|claims| > 1 ==> Sum(claims[1..]) >= 1)
    decreases |claims|
  {
    if |claims| > 1 {
      SumAtLeastOne(claims[1..], bound);
    }
  }

  /** Claiming a list of blocks succeeds throughout exactly if claiming their sum at once does,
      and then with the same first port and the same allocator afterwards. */
  lemma {:induction false} SplittingLaw(p: Alloc, end: int, top: int, claims: seq<int>)
    requires InStep(p, end, top) && claims != [] && Bounded(claims, Sum(claims)) && top + Sum(claims) <= 65536
    ensures AllGranted(p, claims) <==> Claim(p, Sum(claims)).0.Ok?
    ensures AllGranted(p, claims) ==>
              && After(p, claims) == Claim(p, Sum(claims)).1
              && Claim(p, claims[0]).0 == Claim(p, Sum(claims)).0
    decreases |claims|
  {
    var n, rest := claims[0], claims[1..];
    SumAtLeastOne(claims, Sum(claims));
    ClaimInStep(p, end, top, n);
    ClaimInStep(p, end, top, Sum(claims));
    if rest == [] {
      assert Sum(claims) == n;
      assert AllGranted(Claim(p, n).1, rest);
    } else {
      assert Bounded(rest, Sum(rest)) by {
        forall i | 0 <= i < |rest| ensures 1 <= rest[i] <= Sum(rest) {
          assert rest[i] == claims[i + 1];
          PartOfSum(rest, i);
        }
      }
      SplittingLaw(Claim(p, n).1, end, top, rest);
      ClaimInStep(Claim(p, n).1, end, top, Sum(rest));
    }
  }

  lemma {:induction false} PartOfSum(claims: seq<int>, i: nat)
    requires i < |claims| && forall j :: 0 <= j < |claims| ==> 1 <= claims[j]
    ensures claims[i] <= Sum(claims) && 0 <= Sum(claims[1..])
    decreases |claims|
  {
    if |claims| > 1 {
      assert forall j :: 0 <= j < |claims[1..]| ==> claims[1..][j] == claims[j + 1];
      PartOfSum(claims[1..], if i == 0 then 0 else i - 1);
      assert Sum(claims[1..]) == claims[1] + Sum(claims[1..][1..]);
    }
  }
}
