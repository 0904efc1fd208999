// The kernel's routing tables, keyed by destination and table.

module Routes {
  import opened Wrappers
  import opened Net

  /** `kr_netlink_sys::Route`; no gateway means a link route. */
  datatype Route = Route(dst: IpNet, gateway: Option<IpAddr>, table: nat)

  type Slot = (IpNet, nat)

  function SlotOf(r: Route): Slot {
    (r.dst, r.table)
  }

  type RouteTable = map<Slot, Option<IpAddr>>

  /** The routing half of `NetlinkOps`: one route for each destination and table. */
  class Netlink {
    var routes: RouteTable

    constructor (routes: RouteTable)
      ensures this.routes == routes
    {
      this.routes := routes;
    }

    method RouteReplace(r: Route)
      modifies this
      ensures routes == old(routes)[SlotOf(r) := r.gateway]
    {
      routes := routes[SlotOf(r) := r.gateway];
    }

    method RouteDel(r: Route)
      modifies this
      ensures routes == old(routes) - {SlotOf(r)}
    {
      routes := routes - {SlotOf(r)};
    }
  }
}
