/**
 * What both builders do with a configured breadcrumb path: walk the ids in
 * order, load each as a node, skip the ids that do not load, and turn each
 * loaded node into a crumb linked to its canonical route plus a cacheable
 * dependency. The functions are defined on the last id so that a loop over
 * the path extends them one id at a time.
 */
module Ancestors {
  import opened Entities
  import opened Crumbs

  /** The ids of `path` that load as a node, in path order, duplicates kept. */
  function Resolved(nodes: map<Id, Node>, path: seq<Id>): (r: seq<Id>)
    ensures |r| <= |path|
    ensures forall i :: 0 <= i < |r| ==> r[i] in nodes
  {
    if path == [] then []
    else
      var last := path[|path| - 1];
      Resolved(nodes, path[..|path| - 1]) + (if last in nodes then [last] else [])
  }

  /** The crumb for a loaded ancestor: its text chosen by `title`, linked to its canonical route. */
  function Crumb(item: Node, title: Node -> string): (crumb: Link) {
    Link(Plain(title(item)), NodeCanonical(item.nid))
  }

  /** The crumbs the loop over `path` adds, one per id that loads. */
  function AncestorLinks(nodes: map<Id, Node>, path: seq<Id>, title: Node -> string): (links: seq<Link>)
    ensures |links| == |Resolved(nodes, path)|
  {
    if path == [] then []
    else
      var last := path[|path| - 1];
      AncestorLinks(nodes, path[..|path| - 1], title)
        + (if last in nodes then [Crumb(nodes[last], title)] else [])
  }

  /** The dependencies the loop over `path` adds, one per id that loads. */
  function AncestorDeps(nodes: map<Id, Node>, path: seq<Id>): (deps: seq<Dep>)
    ensures |deps| == |Resolved(nodes, path)|
  {
    if path == [] then []
    else
      var last := path[|path| - 1];
      AncestorDeps(nodes, path[..|path| - 1]) + (if last in nodes then [NodeDep(nodes[last].nid)] else [])
  }

  /** Taking the path one id further extends each of the three by that id's contribution. */
  lemma StepOne(nodes: map<Id, Node>, path: seq<Id>, i: nat, title: Node -> string)
    requires i < |path|
    ensures Resolved(nodes, path[..i + 1])
         == Resolved(nodes, path[..i]) + (if path[i] in nodes then [path[i]] else [])
    ensures AncestorLinks(nodes, path[..i + 1], title)
         == AncestorLinks(nodes, path[..i], title) + (if path[i] in nodes then [Crumb(nodes[path[i]], title)] else [])
    ensures AncestorDeps(nodes, path[..i + 1])
         == AncestorDeps(nodes, path[..i]) + (if path[i] in nodes then [NodeDep(nodes[path[i]].nid)] else [])
  {
    assert path[..i + 1][..i] == path[..i];
  }

  /** Skipping is per id and keeps order: the ids resolved from `p + q` are those of `p`, then those of `q`. */
  lemma {:induction false} ResolvedAppend(nodes: map<Id, Node>, p: seq<Id>, q: seq<Id>)
    ensures Resolved(nodes, p + q) == Resolved(nodes, p) + Resolved(nodes, q)
  {
    if q == [] {
      assert p + q == p;
    } else {
      var front := q[..|q| - 1];
      assert (p + q)[..|p + q| - 1] == p + front;
      ResolvedAppend(nodes, p, front);
    }
  }

  /** Nothing is deduplicated: an id that loads is resolved as often as the path holds it; one that does not, never. */
  lemma {:induction false} ResolvedCount(nodes: map<Id, Node>, path: seq<Id>, x: Id)
    ensures multiset(Resolved(nodes, path))[x] == if x in nodes then multiset(path)[x] else 0
  {
    if path != [] {
      var front, last := path[..|path| - 1], path[|path| - 1];
      assert path == front + [last];
      ResolvedCount(nodes, front, x);
    }
  }

  /** The crumbs correspond one-to-one and in order to the resolved ids. */
  lemma {:induction false} AncestorLinksAt(nodes: map<Id, Node>, path: seq<Id>, title: Node -> string)
    ensures forall i :: 0 <= i < |Resolved(nodes, path)| ==>
              AncestorLinks(nodes, path, title)[i] == Crumb(nodes[Resolved(nodes, path)[i]], title)
  {
    if path != [] {
      AncestorLinksAt(nodes, path[..|path| - 1], title);
    }
  }

  /** The dependencies correspond one-to-one and in order to the resolved ids. */
  lemma {:induction false} AncestorDepsAt(nodes: map<Id, Node>, path: seq<Id>)
    ensures forall i :: 0 <= i < |Resolved(nodes, path)| ==>
              AncestorDeps(nodes, path)[i] == NodeDep(nodes[Resolved(nodes, path)[i]].nid)
  {
    if path != [] {
      AncestorDepsAt(nodes, path[..|path| - 1]);
    }
  }

  /** An id that does not load contributes no dependency. */
  lemma {:induction false} SkippedIdNoDep(nodes: map<Id, Node>, path: seq<Id>, x: Id)
    requires WellKeyed(nodes)
    requires x !in nodes
    ensures NodeDep(x) !in AncestorDeps(nodes, path)
  {
    if path != [] {
      SkippedIdNoDep(nodes, path[..|path| - 1], x);
    }
  }

  /** With a well-keyed storage each ancestor crumb links to exactly the resolved id. */
  lemma AncestorTargets(nodes: map<Id, Node>, path: seq<Id>, title: Node -> string)
    requires WellKeyed(nodes)
    ensures forall i :: 0 <= i < |Resolved(nodes, path)| ==>
              AncestorLinks(nodes, path, title)[i].url == NodeCanonical(Resolved(nodes, path)[i])
  {
    AncestorLinksAt(nodes, path, title);
  }
}
