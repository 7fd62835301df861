/**
 * The breadcrumb a builder returns: its ordered links and the cache metadata
 * (cache contexts and cacheable dependencies) attached to it.
 */
module Crumbs {
  import opened Entities

  /** A crumb's text: a translatable string with its language code, or plain text. */
  datatype Text = Translated(source: string, langcode: string) | Plain(s: string)

  /** Where a crumb links to: `base:/`, `internal:/`, or a node's canonical route. */
  datatype Target = BaseRoot | InternalRoot | NodeCanonical(nid: Id)

  datatype Link = Link(text: Text, url: Target)

  /** A cacheable dependency, named by the entity or config object it stands for. */
  datatype Dep = NodeDep(nid: Id) | NodeTypeDep(bundle: string) | ConfigDep(name: string)
               | AccountDep(uid: Id) | RoleDep(rid: string)

  const UrlPath := "url.path"
  const LanguageContent := "languages:language_content"

  /** The first crumb of every trail: "Home" translated into `langcode`, linked to the site root. */
  function HomeLink(langcode: string): (home: Link) {
    Link(Translated("Home", langcode), BaseRoot)
  }

  /**
   * A breadcrumb under construction. Cache contexts are a set because merging
   * contexts drops duplicates; dependencies are kept in the order they are added.
   */
  class Breadcrumb {
    var links: seq<Link>
    var contexts: set<string>
    var deps: seq<Dep>

    constructor ()
      ensures links == [] && contexts == {} && deps == []
    {
      links, contexts, deps := [], {}, [];
    }

    method AddLink(link: Link)
      modifies this
      ensures links == old(links) + [link]
      ensures contexts == old(contexts) && deps == old(deps)
    {
      links := links + [link];
    }

    method AddCacheContexts(cs: set<string>)
      modifies this
      ensures contexts == old(contexts) + cs
      ensures links == old(links) && deps == old(deps)
    {
      contexts := contexts + cs;
    }

    method AddCacheableDependency(dep: Dep)
      modifies this
      ensures deps == old(deps) + [dep]
      ensures links == old(links) && contexts == old(contexts)
    {
      deps := deps + [dep];
    }
  }
}
