/**
 The component makers that claim ports, and what they do with them.
 */
module PortClaims {
  import opened PortAuthority

  const GARDEN_POOL := 10
  const ROUTING_API_PORTS := 2

  /** The three ports of the routing API configuration, computed on uint16 as in the source. */
  datatype RoutingAPIPorts = RoutingAPIPorts(listen: uint16, admin: uint16, mtls: uint16)

  function RoutingAPIConfig(port: uint16): RoutingAPIPorts {
    RoutingAPIPorts(port, Add(port, 1), Add(port, 2))
  }

  /** Where Garden's pool of host ports starts; there is no pool on Windows. */
  datatype Pool = NoPool | StartsAt(port: int)

  /** Every call in the repository that claims ports: those of the component makers, and those of
      two tests for their cells. */
  datatype Call = Garden(windows: bool) | RoutingAPI | VolmanDriver | EvacuationCells | RouteEmitterCells

  /** How many ports the call claims; on Windows Garden claims none. */
  function Claims(c: Call): nat {
    match c
    case Garden(windows) => if windows then 0 else GARDEN_POOL
    case RoutingAPI => ROUTING_API_PORTS
    case VolmanDriver => 1
    case EvacuationCells => 4
    case RouteEmitterCells => 2
  }

  /** The ports from first to first + n - 1. */
  function PortsFrom(first: int, n: nat): seq<int> { seq(n, i => first + i) }

  /** The ports that are configured from the first claimed one, on uint16 where the source is. */
  function ConfiguredPorts(c: Call, port: uint16): seq<int> {
    match c
    case Garden(_) => PortsFrom(port as int, GARDEN_POOL)
    case RoutingAPI => [port as int, Add(port, 1) as int, Add(port, 2) as int]
    case VolmanDriver => [port as int]
    case EvacuationCells => [port as int, Add(port, 1) as int, Add(port, 2) as int, Add(port, 3) as int]
    case RouteEmitterCells => [port as int, Add(port, 1) as int]
  }

  /** The ports that one call configures, and the allocator afterwards. A refused call, and one
      that claims nothing, configures none. */
  function Configure(p: Alloc, c: Call): (seq<int>, Alloc) {
    if Claims(c) == 0 then ([], p)
    else
      var (r, p') := Claim(p, Claims(c));
      (if r.Ok? then ConfiguredPorts(c, r.value) else [], p')
  }

  class ComponentMaker {
    const portAllocator: PortAllocator

    constructor (allocator: PortAllocator)
      ensures portAllocator == allocator
    {
      portAllocator := allocator;
    }

    method GardenPool(windows: bool) returns (pool: Result<Pool>)
      modifies portAllocator`nextPort
      ensures windows ==> pool == Ok(NoPool) && portAllocator.View() == old(portAllocator.View())
      ensures !windows ==>
                var (r, p) := Claim(old(portAllocator.View()), 10);
                && portAllocator.View() == p
                && pool == (if r.Ok? then Ok(StartsAt(r.value as int)) else Err(r.message))
      ensures var (ports, p) := Configure(old(portAllocator.View()), Garden(windows));
              && portAllocator.View() == p
              && ports == match pool {
                            case Ok(StartsAt(port)) => [port, port + 1, port + 2, port + 3, port + 4,
                                                        port + 5, port + 6, port + 7, port + 8, port + 9]
                            case _ => []
                          }
    {
      if windows {
        return Ok(NoPool);
      }
      var ports := portAllocator.ClaimPorts(GARDEN_POOL);
      match ports
      case Ok(port) => pool := Ok(StartsAt(port as int));
      case Err(message) => pool := Err(message);
    }

    method RoutingAPI() returns (config: Result<RoutingAPIPorts>)
      modifies portAllocator`nextPort
      ensures var (r, p) := Claim(old(portAllocator.View()), 2);
              && portAllocator.View() == p
              && config == (if r.Ok? then Ok(RoutingAPIConfig(r.value)) else Err(r.message))
      ensures var (ports, p) := Configure(old(portAllocator.View()), Call.RoutingAPI);
              && portAllocator.View() == p
              && ports == if config.Err? then []
                          else [config.value.listen as int, config.value.admin as int, config.value.mtls as int]
    {
      var port := portAllocator.ClaimPorts(ROUTING_API_PORTS);
      match port
      case Ok(p) => config := Ok(RoutingAPIPorts(p, Add(p, 1), Add(p, 2)));
      case Err(message) => config := Err(message);
    }

    method VolmanDriver() returns (debugServerPort: Result<uint16>)
      modifies portAllocator`nextPort
      ensures (debugServerPort, portAllocator.View()) == Claim(old(portAllocator.View()), 1)
      ensures var (ports, p) := Configure(old(portAllocator.View()), Call.VolmanDriver);
              && portAllocator.View() == p
              && ports == if debugServerPort.Err? then [] else [debugServerPort.value as int]
    {
      debugServerPort := portAllocator.ClaimPorts(1);
    }

    /** The evacuation test: listen and securable ports of two cells. */
    method ClaimEvacuationCells() returns (cells: Result<seq<uint16>>)
      modifies portAllocator`nextPort
      ensures cells.Ok? <==> Claim(old(portAllocator.View()), 4).0.Ok?
      ensures cells.Ok? ==>
                var start := old(portAllocator.View()).next;
                cells.value == [start, Add(start, 1), Add(start, 2), Add(start, 3)]
      ensures var (ports, p) := Configure(old(portAllocator.View()), EvacuationCells);
              && portAllocator.View() == p
              && ports == if cells.Err? then [] else seq(4, i requires 0 <= i < 4 => cells.value[i] as int)
    {
      var port := portAllocator.ClaimPorts(4);
      match port
      case Ok(start) => cells := Ok([start, Add(start, 1), Add(start, 2), Add(start, 3)]);
      case Err(message) => cells := Err(message);
    }

    /** The route emitter test: one port for each of two cells. */
    method ClaimRouteEmitterCells() returns (cells: Result<seq<uint16>>)
      modifies portAllocator`nextPort
      ensures cells.Ok? <==> Claim(old(portAllocator.View()), 2).0.Ok?
      ensures cells.Ok? ==>
                var start := old(portAllocator.View()).next;
                cells.value == [start, Add(start, 1)]
      ensures var (ports, p) := Configure(old(portAllocator.View()), RouteEmitterCells);
              && portAllocator.View() == p
              && ports == if cells.Err? then [] else seq(2, i requires 0 <= i < 2 => cells.value[i] as int)
    {
      var port := portAllocator.ClaimPorts(2);
      match port
      case Ok(start) => cells := Ok([start, Add(start, 1)]);
      case Err(message) => cells := Err(message);
    }
  }

  /** Whatever the allocator: of the three configured ports the claimed block holds two, and the
      mutual-TLS port, which is another one, is the first port of whatever is granted next. */
  lemma MtlsPortIsTheNextClaim(p: Alloc, n: int)
    requires Claim(p, ROUTING_API_PORTS).0.Ok?
    ensures var (r, p') := Claim(p, ROUTING_API_PORTS);
            var ports := RoutingAPIConfig(r.value);
            && ports.listen == r.value && ports.admin == Add(r.value, 1)
            && ports.mtls !in {r.value, Add(r.value, 1)}
            && (Claim(p', n).0.Ok? ==> Claim(p', n).0.value == ports.mtls)
  {
  }

  /** So two routing APIs in a row are configured on a common port, whenever both are granted. */
  lemma RoutingAPIsCollide(p: Alloc)
    requires Claim(p, ROUTING_API_PORTS).0.Ok? && Claim(Claim(p, ROUTING_API_PORTS).1, ROUTING_API_PORTS).0.Ok?
    ensures var (r, p') := Claim(p, ROUTING_API_PORTS);
            RoutingAPIConfig(Claim(p', ROUTING_API_PORTS).0.value).listen == RoutingAPIConfig(r.value).mtls
  {
    MtlsPortIsTheNextClaim(p, ROUTING_API_PORTS);
  }

  /** The mutual-TLS port is in the allocator's range exactly if three ports could have been
      claimed; otherwise the configuration leaves the range of the node. */
  lemma MtlsPortInRangeIff(p: Alloc)
    requires Claim(p, ROUTING_API_PORTS).0.Ok?
    ensures RoutingAPIConfig(Claim(p, ROUTING_API_PORTS).0.value).mtls <= p.end <==> Claim(p, 3).0.Ok?
  {
  }
}
