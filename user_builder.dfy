/**
 * The user rule: on a user page, the trail is Home followed by the ancestors
 * configured on the first of the account's roles that is not excluded, each
 * under its plain title; there is no crumb for the account itself.
 */
module UserBuilder {
  import opened Wrappers
  import opened Entities
  import opened Crumbs
  import opened Ancestors

  /** Roles whose configured path is never used. */
  const SkipRoles: seq<string> := ["administrator", "content_author", "content_publisher"]

  function Applies(route: Route): (r: bool)
    ensures route.isAdmin ==> !r
    ensures !route.isAdmin ==> (r <==> route.user.AccountParam?)
  {
    if route.isAdmin then false
    else route.user.AccountParam?
  }

  /** A route whose `user` parameter is not an account, such as a node page, is never handled. */
  lemma NoAccountParamNeverApplies(route: Route)
    requires !route.user.AccountParam?
    ensures !Applies(route)
  {
  }

  /** The position of the first role that is not excluded, if any. */
  function FirstEligible(roles: seq<string>): (k: Option<nat>)
    ensures k.Some? ==> k.value < |roles| && roles[k.value] !in SkipRoles
    ensures k.Some? ==> forall j :: 0 <= j < k.value ==> roles[j] in SkipRoles
    ensures k.None? ==> forall j :: 0 <= j < |roles| ==> roles[j] in SkipRoles
  {
    if roles == [] then None
    else if roles[0] !in SkipRoles then Some(0)
    else match FirstEligible(roles[1..])
      case Some(k) => Some(k + 1)
      case None => None
  }

  /**
   * Every role the selection loop loads can be loaded: the roles up to and
   * including the first one that is not excluded, or all of them when none
   * qualifies. The source calls `id()` on each of these without checking it;
   * the roles after the selected one are never loaded.
   */
  ghost predicate RolesLoadable(store: Storage, roles: seq<string>) {
    forall j :: 0 <= j < |roles| && (FirstEligible(roles).None? || j <= FirstEligible(roles).value) ==>
      roles[j] in store.roles
  }

  /** The path of the selected role, empty when no role qualifies or the role has none. */
  function SelectedPath(store: Storage, roles: seq<string>): (path: seq<Id>)
    requires RolesLoadable(store, roles)
  {
    match FirstEligible(roles)
    case Some(k) => store.roles[roles[k]].breadcrumbPath.GetOr([])
    case None => []
  }

  /**
   * The role still held after the selection loop: the selected one, or else the
   * last one iterated; none for an account without roles.
   */
  function RoleAfterLoop(roles: seq<string>): (role: Option<string>) {
    match FirstEligible(roles)
    case Some(k) => Some(roles[k])
    case None => if roles == [] then None else Some(roles[|roles| - 1])
  }

  /** A loaded node's plain title, as `label()` gives it. */
  function PlainTitle(item: Node): (title: string) {
    item.title
  }

  /** The links `Build` produces for `account`. */
  function Trail(store: Storage, account: Account): (trail: seq<Link>)
    requires RolesLoadable(store, account.roles)
  {
    [HomeLink(account.langcode)] + AncestorLinks(store.nodes, SelectedPath(store, account.roles), PlainTitle)
  }

  /** The dependencies `Build` adds: each loaded ancestor, the account, then the role held after the loop. */
  function Deps(store: Storage, account: Account): (deps: seq<Dep>)
    requires RolesLoadable(store, account.roles)
  {
    AncestorDeps(store.nodes, SelectedPath(store, account.roles)) + [AccountDep(account.uid)]
      + match RoleAfterLoop(account.roles)
        case Some(rid) => [RoleDep(rid)]
        case None => []
  }

  /**
   * The role-selection loop: walks the roles in order, keeps the last one loaded,
   * and stops at the first one that is not excluded, taking its path.
   */
  method SelectRole(store: Storage, roles: seq<string>) returns (crumbs: seq<Id>, role: Option<string>)
    requires RolesLoadable(store, roles)
    ensures crumbs == SelectedPath(store, roles)
    ensures role == RoleAfterLoop(roles)
  {
    crumbs := [];
    role := None;
    var i := 0;
    while i < |roles|
      invariant 0 <= i <= |roles|
      invariant forall j :: 0 <= j < i ==> roles[j] in SkipRoles
      invariant role == if i == 0 then None else Some(roles[i - 1])
      invariant crumbs == []
    {
      var id := roles[i];
      role := Some(id);
      if id !in SkipRoles {
        FirstEligibleAt(roles, i);
        crumbs := store.roles[id].breadcrumbPath.GetOr([]);
        break;
      }
      i := i + 1;
    }
  }

  /** The first role that is not excluded is the one every later role is ignored for. */
  lemma {:induction false} FirstEligibleAt(roles: seq<string>, i: nat)
    requires i < |roles| && roles[i] !in SkipRoles
    requires forall j :: 0 <= j < i ==> roles[j] in SkipRoles
    ensures FirstEligible(roles) == Some(i)
  {
    if i > 0 {
      assert roles[0] in SkipRoles;
      FirstEligibleAt(roles[1..], i - 1);
    }
  }

  /**
   * Roles after the selected one are never consulted: appending any roles to an
   * account that already has a qualifying role changes neither the selection,
   * the path used, nor the role dependency, and asks nothing more of the storage.
   */
  lemma {:induction false} LaterRolesIgnored(store: Storage, roles: seq<string>, later: seq<string>)
    requires FirstEligible(roles).Some?
    requires RolesLoadable(store, roles)
    ensures FirstEligible(roles + later) == FirstEligible(roles)
    ensures RolesLoadable(store, roles + later)
    ensures SelectedPath(store, roles + later) == SelectedPath(store, roles)
    ensures RoleAfterLoop(roles + later) == RoleAfterLoop(roles)
  {
    var k := FirstEligible(roles).value;
    assert forall j :: 0 <= j <= k ==> (roles + later)[j] == roles[j];
    FirstEligibleAt(roles + later, k);
  }

  /**
   * Builds the trail for the route's account. Every role the selection loop
   * loads must be loadable; the account's language translates Home.
   */
  method Build(store: Storage, route: Route) returns (breadcrumb: Breadcrumb)
    requires route.user.AccountParam?
    requires RolesLoadable(store, route.user.account.roles)
    ensures fresh(breadcrumb)
    ensures breadcrumb.links == Trail(store, route.user.account)
    ensures breadcrumb.contexts == {UrlPath, LanguageContent}
    ensures breadcrumb.deps == Deps(store, route.user.account)
  {
    var account := route.user.account;
    var crumbs, role := SelectRole(store, account.roles);

    breadcrumb := new Breadcrumb();
    breadcrumb.AddLink(HomeLink(account.langcode));

    var i := 0;
    while i < |crumbs|
      invariant 0 <= i <= |crumbs|
      invariant breadcrumb.links == [HomeLink(account.langcode)] + AncestorLinks(store.nodes, crumbs[..i], PlainTitle)
      invariant breadcrumb.deps == AncestorDeps(store.nodes, crumbs[..i])
      invariant breadcrumb.contexts == {}
    {
      StepOne(store.nodes, crumbs, i, PlainTitle);
      var item := Load(store.nodes, crumbs[i]);
      if item.Some? {
        breadcrumb.AddLink(Link(Plain(item.value.title), NodeCanonical(item.value.nid)));
        breadcrumb.AddCacheableDependency(NodeDep(item.value.nid));
      }
      i := i + 1;
    }
    assert crumbs[..i] == crumbs;

    breadcrumb.AddCacheContexts({UrlPath});
    breadcrumb.AddCacheContexts({LanguageContent});
    breadcrumb.AddCacheableDependency(AccountDep(account.uid));
    if role.Some? {
      breadcrumb.AddCacheableDependency(RoleDep(role.value));
    }
  }

  /**
   * The shape of every user trail: Home in the account's language, then one crumb
   * per resolved ancestor under its plain title, and nothing for the account.
   */
  lemma TrailShape(store: Storage, account: Account)
    requires RolesLoadable(store, account.roles)
    ensures var trail, resolved := Trail(store, account), Resolved(store.nodes, SelectedPath(store, account.roles));
      && |trail| == |resolved| + 1
      && trail[0] == Link(Translated("Home", account.langcode), BaseRoot)
      && (forall i :: 0 <= i < |resolved| ==>
            trail[i + 1] == Link(Plain(store.nodes[resolved[i]].title), NodeCanonical(store.nodes[resolved[i]].nid)))
  {
    AncestorLinksAt(store.nodes, SelectedPath(store, account.roles), PlainTitle);
  }

  /** With no qualifying role, or a qualifying role without a path, the trail is Home alone. */
  lemma HomeOnlyTrail(store: Storage, account: Account)
    requires RolesLoadable(store, account.roles)
    requires FirstEligible(account.roles).None?
          || store.roles[account.roles[FirstEligible(account.roles).value]].breadcrumbPath.None?
    ensures Trail(store, account) == [HomeLink(account.langcode)]
  {
  }

  /**
   * The role dependency: added for every account with roles; the selected role when
   * one qualifies, otherwise the last role, which is an excluded one.
   */
  lemma RoleDependency(store: Storage, account: Account)
    requires RolesLoadable(store, account.roles)
    ensures var deps := Deps(store, account);
      && (account.roles == [] ==> deps[|deps| - 1] == AccountDep(account.uid))
      && (account.roles != [] ==>
            deps[|deps| - 2] == AccountDep(account.uid)
            && exists rid :: deps[|deps| - 1] == RoleDep(rid) && rid in account.roles)
      && (FirstEligible(account.roles).Some? ==>
            deps[|deps| - 1] == RoleDep(account.roles[FirstEligible(account.roles).value]))
      && (FirstEligible(account.roles).None? && account.roles != [] ==>
            deps[|deps| - 1] == RoleDep(account.roles[|account.roles| - 1])
            && account.roles[|account.roles| - 1] in SkipRoles)
  {
    var deps := Deps(store, account);
    var roles := account.roles;
    if roles != [] {
      var rid := RoleAfterLoop(roles).value;
      assert deps[|deps| - 1] == RoleDep(rid);
      assert rid in roles;
    }
  }
}
