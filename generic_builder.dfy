/**
 * The content-type rule: for a node of an enabled type, the trail is Home,
 * then the ancestors configured on the node type that still load (each under
 * its short title when it has a non-empty one), then the node's own title.
 */
module GenericBuilder {
  import opened Wrappers
  import opened Entities
  import opened Crumbs
  import opened Ancestors
  import BaseBuilder

  /** The enabled types: the keys of `allowed_types`, none when the setting is absent. */
  function ApprovedTypes(config: Settings): (types: set<string>)
    ensures config.allowedTypes.None? ==> types == {}
    ensures config.allowedTypes.Some? ==> (forall t :: t in types <==> t in config.allowedTypes.value)
  {
    config.allowedTypes.GetOr(map[]).Keys
  }

  /**
   * The base check narrowed to enabled types; the node's type is read only once
   * the base check has passed.
   */
  function Applies(config: Settings, route: Route): (r: bool)
    ensures r <==> !route.isAdmin && route.node.NodeParam? && route.node.node.bundle in ApprovedTypes(config)
  {
    BaseBuilder.Applies(route) && route.node.node.bundle in ApprovedTypes(config)
  }

  /** With `allowed_types` never saved the rule handles no route at all. */
  lemma NoAllowedTypesNeverApplies(route: Route)
    ensures !Applies(Settings(None), route)
  {
  }

  /** PHP's `empty()` on a field value: NULL, "" and "0" are empty. */
  predicate PhpEmpty(value: Option<string>) {
    value.None? || value.value == "" || value.value == "0"
  }

  /** The text of an ancestor crumb: the short title when the field exists and is not empty, else the title. */
  function GetTitle(entity: Node): (title: string)
    ensures entity.shortTitle.NoField? ==> title == entity.title
    ensures entity.shortTitle.Field? && PhpEmpty(entity.shortTitle.value) ==> title == entity.title
    ensures entity.shortTitle.Field? && !PhpEmpty(entity.shortTitle.value) ==>
              title == entity.shortTitle.value.value && title != "" && title != "0"
  {
    if entity.shortTitle.Field? && !PhpEmpty(entity.shortTitle.value) then entity.shortTitle.value.value
    else entity.title
  }

  /** The configured path of the node's type, empty when unset. */
  function PathOf(store: Storage, node: Node): (path: seq<Id>)
    requires node.bundle in store.nodeTypes
  {
    store.nodeTypes[node.bundle].breadcrumbPath.GetOr([])
  }

  /** The last crumb: the node's full title, linked to `internal:/`. */
  function Terminal(node: Node): (last: Link) {
    Link(Plain(node.title), InternalRoot)
  }

  /** The links `Build` produces for `node`. */
  function Trail(store: Storage, node: Node): (trail: seq<Link>)
    requires node.bundle in store.nodeTypes
  {
    [HomeLink(node.langcode)] + AncestorLinks(store.nodes, PathOf(store, node), GetTitle) + [Terminal(node)]
  }

  /** The dependencies `Build` adds: each loaded ancestor, then the node, its type and the settings. */
  function Deps(store: Storage, node: Node): (deps: seq<Dep>)
    requires node.bundle in store.nodeTypes
  {
    AncestorDeps(store.nodes, PathOf(store, node)) + [NodeDep(node.nid), NodeTypeDep(node.bundle), ConfigDep(SettingsName)]
  }

  /**
   * Builds the trail for the route's node. The node's type must be loadable:
   * the source calls a method on the loaded type without checking it.
   */
  method Build(store: Storage, route: Route) returns (breadcrumb: Breadcrumb)
    requires route.node.NodeParam?
    requires route.node.node.bundle in store.nodeTypes
    ensures fresh(breadcrumb)
    ensures breadcrumb.links == Trail(store, route.node.node)
    ensures breadcrumb.contexts == {UrlPath}
    ensures breadcrumb.deps == Deps(store, route.node.node)
  {
    var node := route.node.node;
    var nodeType := store.nodeTypes[node.bundle];
    var crumbs := nodeType.breadcrumbPath.GetOr([]);
    breadcrumb := new Breadcrumb();

    breadcrumb.AddLink(HomeLink(node.langcode));

    var i := 0;
    while i < |crumbs|
      invariant 0 <= i <= |crumbs|
      invariant breadcrumb.links == [HomeLink(node.langcode)] + AncestorLinks(store.nodes, crumbs[..i], GetTitle)
      invariant breadcrumb.deps == AncestorDeps(store.nodes, crumbs[..i])
      invariant breadcrumb.contexts == {}
    {
      StepOne(store.nodes, crumbs, i, GetTitle);
      var item := Load(store.nodes, crumbs[i]);
      if item.Some? {
        var title := GetTitle(item.value);
        breadcrumb.AddLink(Link(Plain(title), NodeCanonical(item.value.nid)));
        breadcrumb.AddCacheableDependency(NodeDep(item.value.nid));
      }
      i := i + 1;
    }
    assert crumbs[..i] == crumbs;

    breadcrumb.AddLink(Terminal(node));
    breadcrumb.AddCacheContexts({UrlPath});
    breadcrumb.AddCacheableDependency(NodeDep(node.nid));
    breadcrumb.AddCacheableDependency(NodeTypeDep(node.bundle));
    breadcrumb.AddCacheableDependency(ConfigDep(SettingsName));
  }

  /**
   * The shape of every trail: Home in the node's own language first, one crumb per
   * resolved ancestor in path order, the node's full title last.
   */
  lemma TrailShape(store: Storage, node: Node)
    requires node.bundle in store.nodeTypes
    ensures var trail, resolved := Trail(store, node), Resolved(store.nodes, PathOf(store, node));
      && |trail| == |resolved| + 2
      && trail[0] == Link(Translated("Home", node.langcode), BaseRoot)
      && (forall i :: 0 <= i < |resolved| ==> trail[i + 1] == Crumb(store.nodes[resolved[i]], GetTitle))
      && trail[|trail| - 1] == Link(Plain(node.title), InternalRoot)
  {
    AncestorLinksAt(store.nodes, PathOf(store, node), GetTitle);
  }

  /** A type without a configured path gives exactly Home and the current page. */
  lemma NoPathTrail(store: Storage, node: Node)
    requires node.bundle in store.nodeTypes
    requires store.nodeTypes[node.bundle].breadcrumbPath.None?
    ensures Trail(store, node) == [HomeLink(node.langcode), Terminal(node)]
    ensures Deps(store, node) == [NodeDep(node.nid), NodeTypeDep(node.bundle), ConfigDep(SettingsName)]
  {
  }

  /**
   * The dependencies are the resolved ancestors in order, then the node, its type
   * and the settings; an id that does not load adds none.
   */
  lemma DepsShape(store: Storage, node: Node, skipped: Id)
    requires node.bundle in store.nodeTypes
    requires WellKeyed(store.nodes) && skipped !in store.nodes && skipped != node.nid
    ensures var deps, resolved := Deps(store, node), Resolved(store.nodes, PathOf(store, node));
      && |deps| == |resolved| + 3
      && (forall i :: 0 <= i < |resolved| ==> deps[i] == NodeDep(resolved[i]))
      && deps[|resolved|..] == [NodeDep(node.nid), NodeTypeDep(node.bundle), ConfigDep(SettingsName)]
      && NodeDep(skipped) !in deps
  {
    var path := PathOf(store, node);
    AncestorDepsAt(store.nodes, path);
    SkippedIdNoDep(store.nodes, path, skipped);
  }
}
