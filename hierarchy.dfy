/**
 * The concept hierarchy of the map builder (app/llm_pipelines/build_map/pipeline.py):
 * a node is a name, a list of nodes, or a dict from names to nodes. The
 * builder flattens it in pre-order and pairs every name with all the others
 * as allowed prerequisites.
 */
module Hierarchy {

  /** `dict | list | str`; a dict is kept as its list of items, in order. */
  datatype Node =
    | Name(name: string)
    | List(items: seq<Node>)
    | Dict(entries: seq<(string, Node)>)

  /** `_flatten_hierarchy`: a name yields itself, a list the flattening of
      each item in turn, a dict each key followed by the flattening of its
      value. */
  function Flatten(node: Node): seq<string>
    decreases node
  {
    match node
    case Name(name) => [name]
    case List(items) => FlattenItems(items)
    case Dict(entries) => FlattenEntries(entries)
  }

  function FlattenItems(items: seq<Node>): seq<string>
    decreases items
  {
    if items == [] then [] else Flatten(items[0]) + FlattenItems(items[1..])
  }

  function FlattenEntries(entries: seq<(string, Node)>): seq<string>
    decreases entries
  {
    if entries == [] then []
    else
      assert entries[0].1 < entries[0];
      [entries[0].0] + Flatten(entries[0].1) + FlattenEntries(entries[1..])
  }

  /** The dict keys at every depth, with repetitions. */
  function KeysOf(node: Node): multiset<string>
    decreases node
  {
    match node
    case Name(_) => multiset{}
    case List(items) => KeysOfItems(items)
    case Dict(entries) => KeysOfEntries(entries)
  }

  function KeysOfItems(items: seq<Node>): multiset<string>
    decreases items
  {
    if items == [] then multiset{} else KeysOf(items[0]) + KeysOfItems(items[1..])
  }

  function KeysOfEntries(entries: seq<(string, Node)>): multiset<string>
    decreases entries
  {
    if entries == [] then multiset{}
    else
      assert entries[0].1 < entries[0];
      multiset{entries[0].0} + KeysOf(entries[0].1) + KeysOfEntries(entries[1..])
  }

  /** The string leaves at every depth, with repetitions. */
  function LeavesOf(node: Node): multiset<string>
    decreases node
  {
    match node
    case Name(name) => multiset{name}
    case List(items) => LeavesOfItems(items)
    case Dict(entries) => LeavesOfEntries(entries)
  }

  function LeavesOfItems(items: seq<Node>): multiset<string>
    decreases items
  {
    if items == [] then multiset{} else LeavesOf(items[0]) + LeavesOfItems(items[1..])
  }

  function LeavesOfEntries(entries: seq<(string, Node)>): multiset<string>
    decreases entries
  {
    if entries == [] then multiset{}
    else
      assert entries[0].1 < entries[0];
      LeavesOf(entries[0].1) + LeavesOfEntries(entries[1..])
  }

  /** A list flattens to the concatenation of its parts' flattenings. */
  lemma {:induction false} FlattenItemsAppend(a: seq<Node>, b: seq<Node>)
    ensures FlattenItems(a + b) == FlattenItems(a) + FlattenItems(b)
  {
    if a != [] {
      assert (a + b)[0] == a[0] && (a + b)[1..] == a[1..] + b;
      FlattenItemsAppend(a[1..], b);
    } else {
      assert a + b == b;
    }
  }

  /** A dict flattens to the concatenation of its parts' flattenings. */
  lemma {:induction false} FlattenEntriesAppend(a: seq<(string, Node)>, b: seq<(string, Node)>)
    ensures FlattenEntries(a + b) == FlattenEntries(a) + FlattenEntries(b)
  {
    if a != [] {
      assert (a + b)[0] == a[0] && (a + b)[1..] == a[1..] + b;
      FlattenEntriesAppend(a[1..], b);
    } else {
      assert a + b == b;
    }
  }

  /** The flattening holds every dict key and every string leaf, each as
      often as it occurs, and nothing else; so its length is the number of
      keys plus the number of leaves. */
  lemma {:induction false} FlattenCounts(node: Node)
    ensures multiset(Flatten(node)) == KeysOf(node) + LeavesOf(node)
    ensures |Flatten(node)| == |KeysOf(node)| + |LeavesOf(node)|
    decreases node, 1
  {
    match node
    case Name(_) =>
    case List(items) => FlattenItemsCounts(items);
    case Dict(entries) => FlattenEntriesCounts(entries);
  }

  lemma {:induction false} FlattenItemsCounts(items: seq<Node>)
    ensures multiset(FlattenItems(items)) == KeysOfItems(items) + LeavesOfItems(items)
    decreases items, 0
  {
    if items != [] {
      FlattenCounts(items[0]);
      FlattenItemsCounts(items[1..]);
    }
  }

  lemma {:induction false} FlattenEntriesCounts(entries: seq<(string, Node)>)
    ensures multiset(FlattenEntries(entries)) == KeysOfEntries(entries) + LeavesOfEntries(entries)
    decreases entries, 0
  {
    if entries != [] {
      assert entries[0].1 < entries[0];
      FlattenCounts(entries[0].1);
      FlattenEntriesCounts(entries[1..]);
    }
  }

  /** A name is yielded exactly when it is a dict key or a string leaf. */
  lemma FlattenMembers(node: Node, x: string)
    ensures x in Flatten(node) <==> x in KeysOf(node) || x in LeavesOf(node)
  {
    FlattenCounts(node);
    assert x in Flatten(node) <==> x in multiset(Flatten(node));
  }

  /** `{key: flattened - {key} for key in flattened}`. */
  function AllowedPrerequisitePairs(flattened: set<string>): (pairs: map<string, set<string>>)
    ensures pairs.Keys == flattened
    ensures forall key :: key in pairs ==> key !in pairs[key] && pairs[key] + {key} == flattened
  {
    map key | key in flattened :: flattened - {key}
  }

  /** The pairs of a hierarchy: any two distinct names of it, both ways. */
  lemma PrerequisitePairsOfHierarchy(hierarchy: Node, a: string, b: string)
    ensures var pairs := AllowedPrerequisitePairs(set x | x in Flatten(hierarchy));
            a in pairs && b in pairs[a] <==>
              && a != b
              && (a in KeysOf(hierarchy) || a in LeavesOf(hierarchy))
              && (b in KeysOf(hierarchy) || b in LeavesOf(hierarchy))
  {
    FlattenMembers(hierarchy, a);
    FlattenMembers(hierarchy, b);
  }

  /** Allowed prerequisite pairs are symmetric and never pair a name with
      itself. */
  lemma PrerequisitePairsSymmetric(flattened: set<string>, a: string, b: string)
    requires a in flattened && b in flattened
    ensures var pairs := AllowedPrerequisitePairs(flattened);
            b in pairs[a] <==> a in pairs[b]
    ensures var pairs := AllowedPrerequisitePairs(flattened);
            b in pairs[a] <==> a != b
  {
  }
}
