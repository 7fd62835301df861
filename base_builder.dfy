/**
 * The applicability check shared by the node builders: never on an admin
 * route, otherwise only when the route's `node` parameter is an upcast node.
 */
module BaseBuilder {
  import opened Entities

  function Applies(route: Route): (r: bool)
    ensures route.isAdmin ==> !r
    ensures !route.isAdmin ==> (r <==> route.node.NodeParam?)
  {
    if route.isAdmin then false
    else route.node.NodeParam?
  }

  /** Whatever its parameters, a route the admin context calls an admin route is never handled. */
  lemma AdminRouteNeverApplies(node: Param, user: Param)
    ensures !Applies(Route(true, node, user))
  {
  }

  /** A route without a node parameter, such as a user page, is never handled, whatever else it carries. */
  lemma NoNodeParamNeverApplies(route: Route)
    requires !route.node.NodeParam?
    ensures !Applies(route)
  {
  }
}
