/**
 * Concrete sites and the trails the builders give on them: the functional
 * test's page hierarchy, a path with an id that no longer loads, and the
 * role selection for accounts with excluded roles.
 */
module Scenarios {
  import opened Wrappers
  import opened Entities
  import opened Crumbs
  import opened Ancestors
  import GenericBuilder
  import UserBuilder

  /** A page of the test site: the `page` type carries `field_short_title`, left empty. */
  function Page(nid: Id, title: string): (page: Node) {
    Node(nid, title, "page", "en", Field(None))
  }

  /** Three pages configured as the path of type `page`, and a fourth page to visit. */
  function TestSite(): (site: Storage) {
    Storage(
      map[1 := Page(1, "Page One"), 2 := Page(2, "Page Two"), 3 := Page(3, "Page Three"), 4 := Page(4, "Page Four")],
      map["page" := NodeType(Some([1, 2, 3]))],
      map[])
  }

  /**
   * With `page` enabled and its path set to Page One, Page Two and Page Three,
   * visiting Page Four gives Home, the three pages linked in order, then Page Four.
   */
  lemma PageFourTrail()
    ensures GenericBuilder.Applies(Settings(Some(map["page" := "page"])), Route(false, NodeParam(Page(4, "Page Four")), Absent))
    ensures GenericBuilder.Trail(TestSite(), Page(4, "Page Four")) == [
      Link(Translated("Home", "en"), BaseRoot),
      Link(Plain("Page One"), NodeCanonical(1)),
      Link(Plain("Page Two"), NodeCanonical(2)),
      Link(Plain("Page Three"), NodeCanonical(3)),
      Link(Plain("Page Four"), InternalRoot)]
  {
    var nodes := TestSite().nodes;
    var path := [1, 2, 3];
    StepOne(nodes, path, 0, GenericBuilder.GetTitle);
    StepOne(nodes, path, 1, GenericBuilder.GetTitle);
    StepOne(nodes, path, 2, GenericBuilder.GetTitle);
    assert path[..3] == path;
  }

  /** With path [A, B] where B no longer loads, the trail is Home, A, then the current page. */
  lemma MissingAncestorDropped(a: Node, current: Node, b: Id)
    requires a.nid != b && current.nid != b && a.nid != current.nid
    ensures var store := Storage(map[a.nid := a, current.nid := current],
                                 map[current.bundle := NodeType(Some([a.nid, b]))], map[]);
      GenericBuilder.Trail(store, current) == [
        HomeLink(current.langcode),
        Link(Plain(GenericBuilder.GetTitle(a)), NodeCanonical(a.nid)),
        Link(Plain(current.title), InternalRoot)]
  {
    var nodes := map[a.nid := a, current.nid := current];
    var path := [a.nid, b];
    StepOne(nodes, path, 0, GenericBuilder.GetTitle);
    StepOne(nodes, path, 1, GenericBuilder.GetTitle);
    assert path[..2] == path;
  }

  /** An ancestor with a non-empty short title appears under it; the current page keeps its full title. */
  lemma ShortTitleOnlyForAncestors(short: string)
    requires short != "" && short != "0"
    ensures var six := Node(6, "Page Six", "page", "en", Field(Some(short)));
            var store := Storage(map[6 := six], map["page" := NodeType(Some([6]))], map[]);
      && GenericBuilder.Trail(store, six) == [
           HomeLink("en"),
           Link(Plain(short), NodeCanonical(6)),
           Link(Plain("Page Six"), InternalRoot)]
  {
    var six := Node(6, "Page Six", "page", "en", Field(Some(short)));
    StepOne(map[6 := six], [6], 0, GenericBuilder.GetTitle);
    assert [6][..1] == [6];
  }

  /** Roles [administrator, editor]: the editor role is the one whose path is used. */
  lemma EditorRoleSelected(path: seq<Id>)
    ensures var store := Storage(map[], map[],
                                 map["administrator" := Role(Some([7])), "editor" := Role(Some(path))]);
      && UserBuilder.FirstEligible(["administrator", "editor"]) == Some(1)
      && UserBuilder.SelectedPath(store, ["administrator", "editor"]) == path
  {
    UserBuilder.FirstEligibleAt(["administrator", "editor"], 1);
  }

  /**
   * Roles [editor, gone] where `gone` no longer loads: the loop stops at editor,
   * so the account is handled and gets editor's trail and dependencies.
   */
  lemma UnloadableLaterRoleIgnored()
    ensures var store := Storage(map[7 := Page(7, "Seven")], map[], map["editor" := Role(Some([7, 8]))]);
            var account := Account(1, ["editor", "gone"], "en");
      && UserBuilder.RolesLoadable(store, account.roles)
      && UserBuilder.Trail(store, account) == [HomeLink("en"), Link(Plain("Seven"), NodeCanonical(7))]
      && UserBuilder.Deps(store, account) == [NodeDep(7), AccountDep(1), RoleDep("editor")]
  {
    var nodes := map[7 := Page(7, "Seven")];
    var store := Storage(nodes, map[], map["editor" := Role(Some([7, 8]))]);
    UserBuilder.LaterRolesIgnored(store, ["editor"], ["gone"]);
    assert ["editor"] + ["gone"] == ["editor", "gone"];
    StepOne(nodes, [7, 8], 0, UserBuilder.PlainTitle);
    StepOne(nodes, [7, 8], 1, UserBuilder.PlainTitle);
    assert [7, 8][..2] == [7, 8];
  }

  /** An account whose only role is administrator gets the Home crumb alone, and the administrator role as dependency. */
  lemma AdministratorOnlyHome()
    ensures var store := Storage(map[7 := Page(7, "Seven")], map[], map["administrator" := Role(Some([7]))]);
            var account := Account(1, ["administrator"], "de");
      && UserBuilder.Trail(store, account) == [HomeLink("de")]
      && UserBuilder.Deps(store, account) == [AccountDep(1), RoleDep("administrator")]
  {
    assert "administrator" in UserBuilder.SkipRoles;
  }
}
