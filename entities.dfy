/**
 * The content-management entities the breadcrumb builders read: nodes, node types,
 * user roles and accounts, the entity storage, the module's settings object and
 * the matched route.
 */
module Entities {
  import opened Wrappers

  /** A node id, as stored in a breadcrumb path. */
  type Id = nat

  /**
   * The `field_short_title` field of a node: either the node's bundle has no such
   * field, or it has one whose value may be NULL.
   */
  datatype ShortTitleField = NoField | Field(value: Option<string>)

  /** A node: its id, its title (`label()`), its bundle (`getType()`), its language code and its short title. */
  datatype Node = Node(nid: Id, title: string, bundle: string, langcode: string, shortTitle: ShortTitleField)

  /** A node type; `breadcrumbPath` is its `breadcrumb_path` third-party setting, NULL when unset. */
  datatype NodeType = NodeType(breadcrumbPath: Option<seq<Id>>)

  /** A user role; its id is the key it is stored under. */
  datatype Role = Role(breadcrumbPath: Option<seq<Id>>)

  /** A user account: its id, `getRoles(TRUE)` in stored order, and its language code. */
  datatype Account = Account(uid: Id, roles: seq<string>, langcode: string)

  /** A route parameter: unset, an upcast node, an upcast account, or any other value. */
  datatype Param = Absent | NodeParam(node: Node) | AccountParam(account: Account) | OtherParam

  /**
   * The matched route as the builders see it: whether the admin context calls it an
   * admin route, and its `node` and `user` parameters.
   */
  datatype Route = Route(isAdmin: bool, node: Param, user: Param)

  /**
   * The `static_breadcrumbs.settings` config object; `allowedTypes` is its
   * `allowed_types` entry (enabled type => type), NULL when never saved.
   */
  datatype Settings = Settings(allowedTypes: Option<map<string, string>>)

  /** The name of the settings config object the builders depend on. */
  const SettingsName := "static_breadcrumbs.settings"

  /** Entity storage: nodes by id, node types by machine name, roles by machine name. */
  datatype Storage = Storage(nodes: map<Id, Node>, nodeTypes: map<string, NodeType>, roles: map<string, Role>)

  /** Every stored node carries the id it is stored under. */
  ghost predicate WellKeyed(nodes: map<Id, Node>) {
    forall id :: id in nodes ==> nodes[id].nid == id
  }

  /** `getStorage('node')->load(id)`: the node, or NULL when nothing is stored under `id`. */
  function Load(nodes: map<Id, Node>, id: Id): (item: Option<Node>)
    ensures item.Some? <==> id in nodes
    ensures item.Some? ==> item.value == nodes[id]
  {
    if id in nodes then Some(nodes[id]) else None
  }
}
