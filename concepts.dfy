/**
 * The knowledge-map records (app/llm_pipelines/models.py): a concept has a
 * title, an optional description, optional lists of related titles and of
 * source citations, and an optional list of sub-concepts. Also the pre-order
 * walks over a concept forest that the normaliser's specifications use.
 */
module Concepts {
  import opened Wrappers

  /** `list[Concept] | None` for the `consist_of` field. */
  datatype ConceptList = Absent | Present(items: seq<Concept>)

  datatype Concept = Concept(
    title: string,
    description: Option<string>,
    related: Option<seq<string>>,
    source: Option<seq<string>>,
    consistOf: ConceptList)

  datatype KnowledgeMap = KnowledgeMap(concepts: seq<Concept>)

  /** The sub-concepts of a list that may be absent (`x or []`). */
  function Items(l: ConceptList): (items: seq<Concept>)
    ensures l.Absent? ==> items == []
    ensures l.Present? ==> items == l.items
  {
    match l
    case Absent => []
    case Present(items) => items
  }

  /** Every title of a forest, each node before its sub-concepts (pre-order). */
  function Titles(cs: seq<Concept>): seq<string>
    decreases cs
  {
    if cs == [] then [] else [cs[0].title] + TitlesBelow(cs[0]) + Titles(cs[1..])
  }

  /** The titles strictly below a concept, in pre-order. */
  function TitlesBelow(c: Concept): seq<string>
    decreases c
  {
    match c.consistOf
    case Absent => []
    case Present(items) => Titles(items)
  }

  lemma {:induction false} TitlesAppend(a: seq<Concept>, b: seq<Concept>)
    ensures Titles(a + b) == Titles(a) + Titles(b)
  {
    if a != [] {
      assert (a + b)[1..] == a[1..] + b;
      TitlesAppend(a[1..], b);
    } else {
      assert a + b == b;
    }
  }

  /** `c` is a node of the forest `cs`, at any depth. */
  predicate InTree(cs: seq<Concept>, c: Concept)
    decreases cs
  {
    exists i :: 0 <= i < |cs| && InSubtree(cs[i], c)
  }

  /** `c` is `root` or a node below it. */
  predicate InSubtree(root: Concept, c: Concept)
    decreases root
  {
    || c == root
    || match root.consistOf
       case Absent => false
       case Present(items) => InTree(items, c)
  }

  /** The title of every node of the forest is among its titles, and so are
      the titles below it. */
  lemma {:induction false} InTreeTitles(cs: seq<Concept>, c: Concept)
    requires InTree(cs, c)
    ensures c.title in Titles(cs)
    ensures forall t :: t in TitlesBelow(c) ==> t in Titles(cs)
    decreases cs, 1
  {
    var i :| 0 <= i < |cs| && InSubtree(cs[i], c);
    InSubtreeTitles(cs[i], c);
    TitlesAppend(cs[..i], cs[i..]);
    assert cs == cs[..i] + cs[i..];
    assert cs[i..][0] == cs[i] && cs[i..][1..] == cs[i + 1..];
  }

  lemma {:induction false} InSubtreeTitles(root: Concept, c: Concept)
    requires InSubtree(root, c)
    ensures c.title in [root.title] + TitlesBelow(root)
    ensures forall t :: t in TitlesBelow(c) ==> t in [root.title] + TitlesBelow(root)
    decreases root, 0
  {
    if c != root {
      match root.consistOf
      case Present(items) =>
        InTreeTitles(items, c);
    }
  }

  /** Every title belongs to some node. */
  lemma {:induction false} TitlesInTree(cs: seq<Concept>, t: string)
    requires t in Titles(cs)
    ensures exists c :: InTree(cs, c) && c.title == t
    decreases cs
  {
    assert cs != [];
    if t == cs[0].title {
      assert InSubtree(cs[0], cs[0]);
      assert InTree(cs, cs[0]);
    } else if t in TitlesBelow(cs[0]) {
      match cs[0].consistOf
      case Present(items) =>
        TitlesInTree(items, t);
        var c :| InTree(items, c) && c.title == t;
        assert InSubtree(cs[0], c);
        assert InTree(cs, c);
    } else {
      TitlesInTree(cs[1..], t);
      var c :| InTree(cs[1..], c) && c.title == t;
      var i :| 0 <= i < |cs[1..]| && InSubtree(cs[1..][i], c);
      assert InSubtree(cs[i + 1], c);
      assert InTree(cs, c);
    }
  }
}
