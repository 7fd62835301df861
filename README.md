# Static breadcrumbs, modelled in Dafny

This project models the breadcrumb rules of the `static_breadcrumbs` Drupal module.
Each rule first decides whether it handles the current route. If it does, it turns an
administrator-configured, ordered list of node ids into a trail. The trail starts with
Home. The configured ancestors that still load follow, in order. For nodes, the current
page comes last. The trail also carries cache contexts and cacheable dependencies.

Modules:

- `Entities` (`entities.dfy`) holds the records the builders read. Nodes carry a title,
  a bundle, a language and an optional `field_short_title`. Node types and roles carry
  an optional `breadcrumb_path`. Accounts carry their `getRoles(TRUE)` list. Entity
  storage is a set of maps. The matched route is an input record: the admin flag, the
  `node` parameter and the `user` parameter. The `static_breadcrumbs.settings` object is
  a record too.
- `Crumbs` (`breadcrumb.dfy`) is the `Breadcrumb` result object. It is a class whose
  fields hold the links, the cache contexts (a set) and the dependencies (a sequence in
  the order they were added). `addLink`, `addCacheContexts` and `addCacheableDependency`
  update those fields.
- `Ancestors` (`ancestors.dfy`) is the walk over a configured path that both build
  methods share. It loads each id, skips the ids that do not load, and produces one
  crumb and one dependency per id that loads. It also holds the lemmas about that walk.
- `BaseBuilder`, `GenericBuilder` and `UserBuilder` model the three PHP classes. Their
  `applies` and the title choice are functions. Each `build` is a method with loops that
  fills a fresh `Breadcrumb`. Its postcondition equates the result with a specification
  function, and the lemmas state what the source promises about that function.
- `Scenarios` (`scenarios.dfy`) works out concrete sites. One is the functional test's
  Page One to Page Four hierarchy. The others cover a dropped ancestor, a short title,
  and role selection.

Translation is not evaluated. `t('Home', [], ['langcode' => …])` yields a translatable
value, `Translated("Home", langcode)`, so the model records which language Home was
requested in. Link targets are values too: `base:/`, `internal:/` and a node's canonical
route.

Loading a node by id is `Entities.Load`, a lookup in the node map: it stands for the
storage's `load()` followed by the `isset` check, and gives a node exactly when one is
stored under that id.

Details of the code worth noting, which the model keeps:

- The user rule adds a role dependency whenever the account has at least one role. If no
  role qualifies, that dependency is the last role iterated, which is an excluded role,
  because the loop variable stays set after the loop.
- The user rule loads roles only up to the first one that is not excluded. Roles after it
  are never loaded, so they need not exist.
- The last crumb of a node trail links to `internal:/`. It is not left unlinked.
- Ancestor titles are never truncated, because no builder calls the truncation helper.

## Model

| member | source | states |
|---|---|---|
| BaseBuilder.Applies | src/BaseBreadcrumbBuilder.php:72-79 | false on an admin route; otherwise true exactly when the `node` parameter is set and is a node |
| BaseBuilder.AdminRouteNeverApplies | src/BaseBreadcrumbBuilder.php:73-75 | an admin route is rejected whatever its parameters are |
| BaseBuilder.NoNodeParamNeverApplies | src/BaseBreadcrumbBuilder.php:77-78 | a route whose `node` parameter is unset or is not a node, such as a user page, is never handled |
| GenericBuilder.ApprovedTypes | src/GenericBreadcrumbBuilder.php:66-69 | the enabled types are exactly the keys of `allowed_types`, and there are none when the setting is absent |
| GenericBuilder.Applies | src/GenericBreadcrumbBuilder.php:24-26 | holds exactly on a non-admin route whose `node` parameter is a node whose type is, as a string, a key of `allowed_types`; the type is read only after the base check passed |
| GenericBuilder.NoAllowedTypesNeverApplies | src/GenericBreadcrumbBuilder.php:66-69 | with `allowed_types` absent, the content-type rule handles no route |
| GenericBuilder.GetTitle | src/GenericBreadcrumbBuilder.php:74-86 | the short title when the field exists and its value is not empty under PHP `empty()` (NULL, "" and "0" are empty); otherwise the title |
| GenericBuilder.Build | src/GenericBreadcrumbBuilder.php:31-58 | the links are Home, the crumbs of the loadable path ids, then the node's title; the contexts are {`url.path`}; the dependencies are the loaded ancestors, then the node, its type and the settings |
| GenericBuilder.TrailShape | src/GenericBreadcrumbBuilder.php:38-52 | the trail has as many crumbs as resolved ancestors plus 2; the first is Home in the node's own language linked to `base:/`; crumb i+1 is resolved ancestor i under `GetTitle`; the last is the node's full title, never its short title |
| GenericBuilder.NoPathTrail | src/GenericBreadcrumbBuilder.php:35-56 | a type without `breadcrumb_path` gives exactly [Home, current page] and only the node, type and settings dependencies |
| GenericBuilder.DepsShape | src/GenericBreadcrumbBuilder.php:42-56 | the dependencies are the resolved ancestors in order, then node, node type and settings; an id that does not load adds no dependency |
| Ancestors.Resolved | src/GenericBreadcrumbBuilder.php:42-45 | the ids that load, never more than the path holds, each one a stored node |
| Ancestors.AncestorLinks | src/GenericBreadcrumbBuilder.php:42-50 | one crumb is added per id that loads |
| Ancestors.AncestorDeps | src/GenericBreadcrumbBuilder.php:48 | one dependency is added per id that loads |
| Ancestors.StepOne | src/GenericBreadcrumbBuilder.php:42-50 | one more loop iteration adds exactly that id's crumb and dependency, or nothing when the id does not load |
| Ancestors.ResolvedAppend | src/GenericBreadcrumbBuilder.php:42-50 | skipping is decided per id and keeps path order: the ids resolved from `p + q` are those of `p`, then those of `q` |
| Ancestors.ResolvedCount | src/GenericBreadcrumbBuilder.php:42-50 | duplicates are kept: an id that loads is resolved as often as it occurs in the path, and an id that does not load is never resolved |
| Ancestors.AncestorLinksAt | src/GenericBreadcrumbBuilder.php:45-47 | crumb i belongs to resolved id i: its title under the given title rule, linked to that node's canonical route |
| Ancestors.AncestorDepsAt | src/GenericBreadcrumbBuilder.php:45-48 | dependency i is resolved node i |
| Ancestors.SkippedIdNoDep | src/GenericBreadcrumbBuilder.php:45-49 | an id that does not load never appears as a dependency |
| Ancestors.AncestorTargets | src/GenericBreadcrumbBuilder.php:47 | when storage keys match node ids, crumb i links to exactly resolved id i |
| UserBuilder.Applies | src/UserBreadcrumbBuilder.php:65-72 | false on an admin route; otherwise true exactly when the `user` parameter is set and is an account |
| UserBuilder.NoAccountParamNeverApplies | src/UserBreadcrumbBuilder.php:70-71 | a route whose `user` parameter is not an account is never handled by the user rule |
| UserBuilder.FirstEligible | src/UserBreadcrumbBuilder.php:84-92 | the position of the first role not in {administrator, content_author, content_publisher}: every earlier role is excluded; when there is none, every role is excluded |
| UserBuilder.SelectRole | src/UserBreadcrumbBuilder.php:80-92 | the loop takes the path of the first non-excluded role and consults no later role; the role it still holds is that role, or else the last role iterated |
| UserBuilder.FirstEligibleAt | src/UserBreadcrumbBuilder.php:84-92 | a non-excluded role with only excluded roles before it is the one selected |
| UserBuilder.LaterRolesIgnored | src/UserBreadcrumbBuilder.php:84-92 | once a role qualifies, roles after it change neither the selection, the path used nor the role dependency, and they need not load |
| UserBuilder.Build | src/UserBreadcrumbBuilder.php:77-119 | the links are Home, then the crumbs of the selected role's loadable path ids; the contexts are {`url.path`, `languages:language_content`}; the dependencies are the loaded ancestors, the account, then the role still held after the loop |
| UserBuilder.TrailShape | src/UserBreadcrumbBuilder.php:94-108 | the trail has 1 crumb plus one per resolved ancestor, and no crumb for the account; Home is in the account's language and links to `base:/`; ancestor crumbs use the plain title |
| UserBuilder.HomeOnlyTrail | src/UserBreadcrumbBuilder.php:82-99 | with no qualifying role, or a qualifying role without a path, the trail is exactly [Home] |
| UserBuilder.RoleDependency | src/UserBreadcrumbBuilder.php:84-116 | the account is always a dependency; a role dependency follows whenever the account has roles; it is the selected role, or else the last role, which is excluded |
| Scenarios.PageFourTrail | tests/src/Functional/BreadcrumbTest.php:198-213 | with `page` enabled and its path set to Page One, Two, Three, the rule handles Page Four, and the trail is Home → Page One → Page Two → Page Three → Page Four |
| Scenarios.MissingAncestorDropped | src/GenericBreadcrumbBuilder.php:42-52 | for the path [A, B] where B does not load, the trail is [Home, A, current page] |
| Scenarios.ShortTitleOnlyForAncestors | src/GenericBreadcrumbBuilder.php:46-52 | an ancestor with a non-empty short title appears under it, while the same node as the current page keeps its full title |
| Scenarios.EditorRoleSelected | src/UserBreadcrumbBuilder.php:84-92 | for the roles [administrator, editor], the editor role's path is the one used |
| Scenarios.UnloadableLaterRoleIgnored | src/UserBreadcrumbBuilder.php:84-116 | for the roles [editor, gone] where `gone` does not load, the account is still handled: editor's trail and the account and editor dependencies |
| Scenarios.AdministratorOnlyHome | src/UserBreadcrumbBuilder.php:84-116 | an account whose only role is administrator gets [Home], and its dependencies are the account and the administrator role |

## Left out

- `PathBasedBreadcrumbBuilderOverride` is not modelled. Its `applies` always returns true. Its `build` is Drupal's path-based builder, which is not part of this model.
- The order in which Drupal tries the rules is not modelled. Service priorities are not part of this model.
- `truncateTitle` is not modelled. It only wraps `Unicode::truncate`, and no builder calls it.
- The settings form is not modelled. `allowed_types` is taken as a map whose keys are the enabled types, which is what the form saves.
- `t()` translation, link and URL rendering, and the alias manager are not modelled. The alias manager is injected but never used.
- How the admin context decides that a route is an admin route is not modelled. The answer is an input flag.
- Drupal's cacheability merging is not modelled. Contexts are a plain set and dependencies a plain sequence, named by entity id or config name.
- GenericBuilder.Build requires that the node's type loads, because the source calls a method on the loaded type without checking it.
- UserBuilder.Build requires that every role the selection loop loads can be loaded: the roles up to and including the first one that is not excluded, or all roles when none qualifies. The source calls `id()` on each of these without checking it.
- A role's `id()` is taken to be the key it was loaded by.
- GenericBuilder.Applies: the source tests the node's type with PHP's loose `in_array` over `array_keys`, and the model tests exact membership. The two differ only for numeric machine names. For example, an enabled type `1000` becomes the integer key 1000, and PHP then also matches a type named `1e3`. PHP's numeric-string comparison is not modelled.
- Entity-id typing is not modelled. Path ids are natural numbers, and a loaded node is whatever the node storage holds under that id.
