/**
 * The edited-map normaliser (app/llm_pipelines/edit_map/pipeline.py): the
 * title set, the ancestor and descendant maps of a concept forest, the
 * canonicalisation of citations against the allowed targets, and the
 * rebuilt forest with cleaned `source` and `related` lists.
 */
module EditMap {
  import opened Wrappers
  import opened Seqs
  import opened Dicts
  import opened Concepts
  import opened Text
  import opened HeaderIndex

  type TitleMap = map<string, seq<string>>

  // ---------------------------------------------------------------------
  // flatten_map

  lemma TitlesSnoc(cs: seq<Concept>, i: nat)
    requires i < |cs|
    ensures Titles(cs[..i + 1]) == Titles(cs[..i]) + [cs[i].title] + TitlesBelow(cs[i])
  {
    assert cs[..i + 1] == cs[..i] + [cs[i]];
    TitlesAppend(cs[..i], [cs[i]]);
    assert [cs[i]][1..] == [];
  }

  /** `flatten_map`: the set of the titles at every depth; an absent or
      empty list gives the empty set. */
  method FlattenMap(concepts: ConceptList) returns (titles: set<string>)
    ensures titles == set t | t in Titles(Items(concepts))
    ensures Items(concepts) == [] ==> titles == {}
    decreases concepts
  {
    titles := {};
    if concepts.Absent? || concepts.items == [] {
      return;
    }
    var cs := concepts.items;
    for i := 0 to |cs|
      invariant titles == set t | t in Titles(cs[..i])
    {
      var concept := cs[i];
      TitlesSnoc(cs, i);
      titles := titles + {concept.title};
      if concept.consistOf.Present? && concept.consistOf.items != [] {
        var below := FlattenMap(concept.consistOf);
        titles := titles + below;
      }
    }
    assert cs[..|cs|] == cs;
  }

  // ---------------------------------------------------------------------
  // get_parents_map_from_list

  /** The writes `parents_map[title] = current_path` in the order the
      traversal makes them: a concept, then its sub-concepts with the
      concept's title appended to the path, then its next sibling. */
  function ParentWrites(cs: seq<Concept>, path: seq<string>): seq<(string, seq<string>)>
    decreases cs
  {
    if cs == [] then []
    else [(cs[0].title, path)] + ParentWritesBelow(cs[0], path) + ParentWrites(cs[1..], path)
  }

  function ParentWritesBelow(c: Concept, path: seq<string>): seq<(string, seq<string>)>
    decreases c
  {
    match c.consistOf
    case Absent => []
    case Present(items) => ParentWrites(items, path + [c.title])
  }

  /** The map `get_parents_map_from_list` returns. */
  function ParentsMap(cs: seq<Concept>): TitleMap {
    StoreAll(map[], ParentWrites(cs, []))
  }

  lemma {:induction false} ParentWritesAppend(a: seq<Concept>, b: seq<Concept>, path: seq<string>)
    ensures ParentWrites(a + b, path) == ParentWrites(a, path) + ParentWrites(b, path)
  {
    if a != [] {
      assert (a + b)[0] == a[0] && (a + b)[1..] == a[1..] + b;
      ParentWritesAppend(a[1..], b, path);
    } else {
      assert a + b == b;
    }
  }

  /** The inner `_traverse` closure: the shared dict is passed in and the
      updated dict is returned. */
  method TraverseParents(parents: TitleMap, subConcepts: ConceptList, currentPath: seq<string>)
    returns (updated: TitleMap)
    ensures updated == StoreAll(parents, ParentWrites(Items(subConcepts), currentPath))
    decreases subConcepts
  {
    updated := parents;
    if subConcepts.Absent? || subConcepts.items == [] {
      return;
    }
    var cs := subConcepts.items;
    for i := 0 to |cs|
      invariant updated == StoreAll(parents, ParentWrites(cs[..i], currentPath))
    {
      var concept := cs[i];
      ParentStep(parents, cs, i, currentPath);
      updated := updated[concept.title := currentPath];
      if concept.consistOf.Present? && concept.consistOf.items != [] {
        var newPath := currentPath + [concept.title];
        updated := TraverseParents(updated, concept.consistOf, newPath);
      }
    }
    assert cs[..|cs|] == cs;
  }

  /** One iteration of the parents loop: record the concept's path, then
      everything below it. */
  lemma ParentStep(parents: TitleMap, cs: seq<Concept>, i: nat, path: seq<string>)
    requires i < |cs|
    ensures StoreAll(parents, ParentWrites(cs[..i + 1], path)) ==
      StoreAll(StoreAll(parents, ParentWrites(cs[..i], path))[cs[i].title := path],
               ParentWrites(Items(cs[i].consistOf), path + [cs[i].title]))
  {
    var c := cs[i];
    var written := ParentWrites(cs[..i], path);
    var below := ParentWritesBelow(c, path);
    assert cs[..i + 1] == cs[..i] + [c];
    ParentWritesAppend(cs[..i], [c], path);
    assert [c][1..] == [];
    assert ParentWrites([c], path) == [(c.title, path)] + below;
    assert ParentWrites(cs[..i + 1], path) == (written + [(c.title, path)]) + below;
    StoreAllAppend(parents, written, [(c.title, path)]);
    StoreAllAppend(parents, written + [(c.title, path)], below);
    StoreOne(StoreAll(parents, written), c.title, path);
    assert below == ParentWrites(Items(c.consistOf), path + [c.title]);
  }

  /** `get_parents_map_from_list`. */
  method GetParentsMapFromList(concepts: ConceptList) returns (parentsMap: TitleMap)
    ensures parentsMap == ParentsMap(Items(concepts))
  {
    parentsMap := TraverseParents(map[], concepts, []);
  }

  lemma {:induction false} ParentWritesKeys(cs: seq<Concept>, path: seq<string>)
    ensures Keys(ParentWrites(cs, path)) == Titles(cs)
    decreases cs, 1
  {
    if cs != [] {
      ParentWritesBelowKeys(cs[0], path);
      ParentWritesKeys(cs[1..], path);
      var w := ParentWrites(cs, path);
      var below := ParentWritesBelow(cs[0], path);
      var rest := ParentWrites(cs[1..], path);
      assert Keys([(cs[0].title, path)] + below + rest) == [cs[0].title] + Keys(below) + Keys(rest);
    }
  }

  lemma {:induction false} ParentWritesBelowKeys(c: Concept, path: seq<string>)
    ensures Keys(ParentWritesBelow(c, path)) == TitlesBelow(c)
    decreases c, 0
  {
    match c.consistOf
    case Absent =>
    case Present(items) => ParentWritesKeys(items, path + [c.title]);
  }

  /** Every title of the forest is a key of the parents map, and nothing else. */
  lemma ParentsMapKeys(cs: seq<Concept>)
    ensures forall t :: t in ParentsMap(cs) <==> t in Titles(cs)
  {
    ParentWritesKeys(cs, []);
    StoreAllKeys(map[], ParentWrites(cs, []));
  }

  /** The writes of a list include each member's own write and the writes
      below it, with the list's path. */
  lemma ParentWritesOfMember(cs: seq<Concept>, i: int, path: seq<string>)
    requires 0 <= i < |cs|
    ensures (cs[i].title, path) in ParentWrites(cs, path)
    ensures forall w :: w in ParentWritesBelow(cs[i], path) ==> w in ParentWrites(cs, path)
  {
    assert cs == cs[..i] + [cs[i]] + cs[i + 1..];
    ParentWritesAppend(cs[..i] + [cs[i]], cs[i + 1..], path);
    ParentWritesAppend(cs[..i], [cs[i]], path);
    assert [cs[i]][1..] == [];
    assert ParentWrites([cs[i]], path) == [(cs[i].title, path)] + ParentWritesBelow(cs[i], path);
  }

  /** Each sub-concept is written with the parent's path and title. */
  lemma ChildWriteBelow(c: Concept, path: seq<string>, ch: Concept)
    requires ch in Items(c.consistOf)
    ensures (ch.title, path + [c.title]) in ParentWritesBelow(c, path)
  {
    var items := c.consistOf.items;
    var j :| 0 <= j < |items| && items[j] == ch;
    ParentWritesOfMember(items, j, path + [c.title]);
  }

  /** Every node of the forest is written with some chain that extends the
      starting path; each of its sub-concepts is written with that chain
      followed by the node's title, and so is everything below it. */
  lemma {:induction false} ParentWriteOf(cs: seq<Concept>, path: seq<string>, p: Concept)
    returns (chain: seq<string>)
    requires InTree(cs, p)
    ensures (p.title, chain) in ParentWrites(cs, path)
    ensures path <= chain
    ensures forall ch :: ch in Items(p.consistOf) ==> (ch.title, chain + [p.title]) in ParentWrites(cs, path)
    ensures forall w :: w in ParentWritesBelow(p, chain) ==> w in ParentWrites(cs, path)
    decreases cs
  {
    var i :| 0 <= i < |cs| && InSubtree(cs[i], p);
    ParentWritesOfMember(cs, i, path);
    if p == cs[i] {
      chain := path;
      forall ch | ch in Items(p.consistOf)
        ensures (ch.title, chain + [p.title]) in ParentWrites(cs, path)
      {
        ChildWriteBelow(p, path, ch);
      }
    } else {
      var items := cs[i].consistOf.items;
      chain := ParentWriteOf(items, path + [cs[i].title], p);
      assert ParentWritesBelow(cs[i], path) == ParentWrites(items, path + [cs[i].title]);
    }
  }

  /** With unique titles, a root concept maps to the empty chain. */
  lemma ParentsMapRoot(cs: seq<Concept>, c: Concept)
    requires NoDups(Titles(cs)) && c in cs
    ensures c.title in ParentsMap(cs) && ParentsMap(cs)[c.title] == []
  {
    var i :| 0 <= i < |cs| && cs[i] == c;
    ParentWritesKeys(cs, []);
    ParentWritesOfMember(cs, i, []);
    StoreAllLookupIn(map[], ParentWrites(cs, []), c.title, []);
  }

  /** With unique titles, a sub-concept maps to its parent's chain followed
      by the parent's title: the chain of ancestors, root first. */
  lemma ParentsMapChild(cs: seq<Concept>, p: Concept, ch: Concept)
    requires NoDups(Titles(cs)) && InTree(cs, p) && ch in Items(p.consistOf)
    ensures p.title in ParentsMap(cs) && ch.title in ParentsMap(cs)
    ensures ParentsMap(cs)[ch.title] == ParentsMap(cs)[p.title] + [p.title]
  {
    ParentWritesKeys(cs, []);
    var chain := ParentWriteOf(cs, [], p);
    StoreAllLookupIn(map[], ParentWrites(cs, []), p.title, chain);
    StoreAllLookupIn(map[], ParentWrites(cs, []), ch.title, chain + [p.title]);
  }

  // ---------------------------------------------------------------------
  // get_children_map_from_list

  /** The writes `children_map[title] = descendants` in the order the
      traversal makes them: a concept's sub-concepts are written before the
      concept itself, which gets the titles below it. */
  function ChildWrites(cs: seq<Concept>): seq<(string, seq<string>)>
    decreases cs
  {
    if cs == [] then []
    else ChildWritesBelow(cs[0]) + [(cs[0].title, TitlesBelow(cs[0]))] + ChildWrites(cs[1..])
  }

  function ChildWritesBelow(c: Concept): seq<(string, seq<string>)>
    decreases c
  {
    match c.consistOf
    case Absent => []
    case Present(items) => ChildWrites(items)
  }

  /** The map `get_children_map_from_list` returns. */
  function ChildrenMap(cs: seq<Concept>): TitleMap {
    StoreAll(map[], ChildWrites(cs))
  }

  lemma {:induction false} ChildWritesAppend(a: seq<Concept>, b: seq<Concept>)
    ensures ChildWrites(a + b) == ChildWrites(a) + ChildWrites(b)
  {
    if a != [] {
      assert (a + b)[0] == a[0] && (a + b)[1..] == a[1..] + b;
      ChildWritesAppend(a[1..], b);
    } else {
      assert a + b == b;
    }
  }

  /** The inner `_traverse` closure: the shared dict is passed in and the
      updated dict is returned, along with the titles of the subtree. */
  method TraverseChildren(children: TitleMap, subConcepts: ConceptList)
    returns (updated: TitleMap, allTitlesInSubtree: seq<string>)
    ensures updated == StoreAll(children, ChildWrites(Items(subConcepts)))
    ensures allTitlesInSubtree == Titles(Items(subConcepts))
    decreases subConcepts
  {
    updated := children;
    allTitlesInSubtree := [];
    if subConcepts.Absent? || subConcepts.items == [] {
      return;
    }
    var cs := subConcepts.items;
    for i := 0 to |cs|
      invariant updated == StoreAll(children, ChildWrites(cs[..i]))
      invariant allTitlesInSubtree == Titles(cs[..i])
    {
      var concept := cs[i];
      TitlesSnoc(cs, i);
      ChildStep(children, cs, i);
      allTitlesInSubtree := allTitlesInSubtree + [concept.title];
      if concept.consistOf.Present? && concept.consistOf.items != [] {
        var descendants;
        updated, descendants := TraverseChildren(updated, concept.consistOf);
        updated := updated[concept.title := descendants];
        allTitlesInSubtree := allTitlesInSubtree + descendants;
      } else {
        updated := updated[concept.title := []];
      }
    }
    assert cs[..|cs|] == cs;
  }

  /** One iteration of the children loop: everything below the concept
      first, then the concept with its descendants. */
  lemma ChildStep(children: TitleMap, cs: seq<Concept>, i: nat)
    requires i < |cs|
    ensures StoreAll(children, ChildWrites(cs[..i + 1])) ==
      StoreAll(StoreAll(children, ChildWrites(cs[..i])), ChildWrites(Items(cs[i].consistOf)))
        [cs[i].title := Titles(Items(cs[i].consistOf))]
  {
    var c := cs[i];
    var before := ChildWrites(cs[..i]);
    var below := ChildWritesBelow(c);
    assert cs[..i + 1] == cs[..i] + [c];
    ChildWritesAppend(cs[..i], [c]);
    assert [c][1..] == [];
    assert ChildWrites([c]) == below + [(c.title, TitlesBelow(c))];
    assert ChildWrites(cs[..i + 1]) == (before + below) + [(c.title, TitlesBelow(c))];
    StoreAllAppend(children, before, below);
    StoreAllAppend(children, before + below, [(c.title, TitlesBelow(c))]);
    StoreOne(StoreAll(children, before + below), c.title, TitlesBelow(c));
    assert below == ChildWrites(Items(c.consistOf));
    assert TitlesBelow(c) == Titles(Items(c.consistOf));
  }

  /** `get_children_map_from_list`. */
  method GetChildrenMapFromList(concepts: ConceptList) returns (childrenMap: TitleMap)
    ensures childrenMap == ChildrenMap(Items(concepts))
  {
    var allTitles;
    childrenMap, allTitles := TraverseChildren(map[], concepts);
  }

  /** The keys written are the titles, rearranged (sub-concepts first). */
  lemma {:induction false} ChildWritesKeys(cs: seq<Concept>)
    ensures multiset(Keys(ChildWrites(cs))) == multiset(Titles(cs))
    decreases cs, 1
  {
    if cs != [] {
      ChildWritesBelowKeys(cs[0]);
      ChildWritesKeys(cs[1..]);
      var below := ChildWritesBelow(cs[0]);
      var own := [(cs[0].title, TitlesBelow(cs[0]))];
      var rest := ChildWrites(cs[1..]);
      KeysAppend(below + own, rest);
      KeysAppend(below, own);
      assert Keys(own) == [cs[0].title];
      assert Keys(ChildWrites(cs)) == Keys(below) + [cs[0].title] + Keys(rest);
    }
  }

  lemma {:induction false} ChildWritesBelowKeys(c: Concept)
    ensures multiset(Keys(ChildWritesBelow(c))) == multiset(TitlesBelow(c))
    decreases c, 0
  {
    match c.consistOf
    case Absent =>
    case Present(items) => ChildWritesKeys(items);
  }

  /** Every title of the forest is a key of the children map, and nothing else. */
  lemma ChildrenMapKeys(cs: seq<Concept>)
    ensures forall t :: t in ChildrenMap(cs) <==> t in Titles(cs)
  {
    ChildWritesKeys(cs);
    StoreAllKeys(map[], ChildWrites(cs));
    forall t ensures t in Keys(ChildWrites(cs)) <==> t in Titles(cs) {
      assert t in Keys(ChildWrites(cs)) <==> t in multiset(Keys(ChildWrites(cs)));
    }
  }

  /** Every node of the forest is written with the titles below it. */
  lemma {:induction false} ChildWriteOf(cs: seq<Concept>, p: Concept)
    requires InTree(cs, p)
    ensures (p.title, TitlesBelow(p)) in ChildWrites(cs)
    decreases cs
  {
    var i :| 0 <= i < |cs| && InSubtree(cs[i], p);
    assert cs == cs[..i] + [cs[i]] + cs[i + 1..];
    ChildWritesAppend(cs[..i] + [cs[i]], cs[i + 1..]);
    ChildWritesAppend(cs[..i], [cs[i]]);
    assert [cs[i]][1..] == [];
    var own := ChildWritesBelow(cs[i]) + [(cs[i].title, TitlesBelow(cs[i]))];
    assert ChildWrites([cs[i]]) == own;
    assert forall x :: x in own ==> x in ChildWrites(cs);
    if p == cs[i] {
      assert own[|own| - 1] == (p.title, TitlesBelow(p));
    } else {
      var items := cs[i].consistOf.items;
      ChildWriteOf(items, p);
      assert ChildWritesBelow(cs[i]) == ChildWrites(items);
    }
  }

  /** With unique titles, every concept maps to all the titles strictly
      below it, in pre-order; a concept without sub-concepts maps to `[]`. */
  lemma ChildrenMapDescendants(cs: seq<Concept>, p: Concept)
    requires NoDups(Titles(cs)) && InTree(cs, p)
    ensures p.title in ChildrenMap(cs) && ChildrenMap(cs)[p.title] == TitlesBelow(p)
    ensures Items(p.consistOf) == [] ==> ChildrenMap(cs)[p.title] == []
  {
    ChildWritesKeys(cs);
    NoDupsPermutation(Titles(cs), Keys(ChildWrites(cs)));
    ChildWriteOf(cs, p);
    StoreAllLookupIn(map[], ChildWrites(cs), p.title, TitlesBelow(p));
  }

  // ---------------------------------------------------------------------
  // _fix_source_name and _fix_hallucinated_source

  /** `format_header(h) for h in segments if h`. */
  function FormatSegments(segments: seq<string>): (slugs: seq<string>)
    ensures |slugs| <= |segments|
    ensures forall k :: 0 <= k < |slugs| ==> forall j :: 0 <= j < |slugs[k]| ==> !IsSlugBreaker(slugs[k][j])
    ensures (forall k :: 0 <= k < |segments| ==> segments[k] == "") ==> slugs == []
    ensures (forall k :: 0 <= k < |segments| ==> '/' !in segments[k]) ==> forall k :: 0 <= k < |slugs| ==> '/' !in slugs[k]
  {
    if segments == [] then []
    else
      (if segments[0] != "" then [FormatHeader(segments[0])] else []) + FormatSegments(segments[1..])
  }

  /** `_fix_source_name`: the file part alone when there is no `#`, nothing
      after it, or no non-empty `/`-segment after it; otherwise the file part,
      `#` and the `/`-joined slugs of the non-empty segments. */
  function FixSourceName(src: string): (fixed: string)
    ensures var file := Partition(src, '#').0;
            && file <= fixed
            && (|fixed| == |file| || (fixed[|file|] == '#' && |fixed| > |file| + 1))
    ensures '#' !in src ==> fixed == src
  {
    var (file, _, headers) := Partition(src, '#');
    if headers == "" then file
    else
      var formattedHeaders := Join("/", FormatSegments(Split(headers, '/')));
      if formattedHeaders == "" then file else file + "#" + formattedHeaders
  }

  /** `_fix_hallucinated_source`: the source if it is allowed, else its file
      part if that is allowed, else nothing. */
  function FixHallucinatedSource(src: string, allowed: set<string>): (r: Option<string>)
    ensures r.Some? ==> r.value in allowed
    ensures r.Some? ==> r.value == src || r.value == Partition(src, '#').0
    ensures src in allowed ==> r == Some(src)
    ensures r.None? <==> src !in allowed && Partition(src, '#').0 !in allowed
  {
    if src in allowed then Some(src)
    else
      var (file, _, _) := Partition(src, '#');
      if file in allowed then Some(file) else None
  }

  /** Checking a source that passed the check changes nothing. */
  lemma FixHallucinatedIdempotent(src: string, allowed: set<string>)
    requires FixHallucinatedSource(src, allowed).Some?
    ensures var kept := FixHallucinatedSource(src, allowed).value;
            FixHallucinatedSource(kept, allowed) == Some(kept)
  {
  }

  lemma {:induction false} FormatSegmentsCanonical(segments: seq<string>)
    requires forall k :: 0 <= k < |segments| ==> segments[k] != ""
    requires forall k, j :: 0 <= k < |segments| && 0 <= j < |segments[k]| ==> !IsSlugBreaker(segments[k][j])
    ensures FormatSegments(segments) == segments
  {
    if segments != [] {
      FormatHeaderFixedPoint(segments[0]);
      FormatSegmentsCanonical(segments[1..]);
    }
  }

  /** A citation already in canonical form is left as it is: a file part
      without `#`, alone or followed by `#` and non-empty `/`-separated
      segments free of spaces and parentheses. */
  lemma FixSourceNameCanonical(file: string, headers: string)
    requires '#' !in file && headers != ""
    requires forall j :: 0 <= j < |headers| ==> !IsSlugBreaker(headers[j])
    requires forall k :: 0 <= k < |Split(headers, '/')| ==> Split(headers, '/')[k] != ""
    ensures FixSourceName(file) == file
    ensures FixSourceName(file + "#" + headers) == file + "#" + headers
  {
    PartitionAt(file, '#', headers);
    assert file + "#" + headers == file + ['#'] + headers;
    SplitChars(headers, '/');
    FormatSegmentsCanonical(Split(headers, '/'));
    JoinSplit(headers, '/');
  }

  /** A header part without a non-empty `/`-segment is dropped. */
  lemma FixSourceNameNoSegments(src: string)
    requires forall k :: 0 <= k < |Split(Partition(src, '#').2, '/')| ==> Split(Partition(src, '#').2, '/')[k] == ""
    ensures FixSourceName(src) == Partition(src, '#').0
  {
  }

  /** Whenever a header path survives, splitting it at `/` gives back the
      slugs of the non-empty segments, in order: the join loses nothing. */
  lemma FixSourceNameSlugs(src: string)
    ensures var (file, _, headers) := Partition(src, '#');
            var fixed := FixSourceName(src);
            |fixed| > |file| ==>
              && fixed == file + "#" + fixed[|file| + 1..]
              && Split(fixed[|file| + 1..], '/') == FormatSegments(Split(headers, '/'))
  {
    var (file, _, headers) := Partition(src, '#');
    var fixed := FixSourceName(src);
    if |fixed| > |file| {
      var slugs := FormatSegments(Split(headers, '/'));
      assert fixed == file + "#" + Join("/", slugs);
      assert fixed[|file| + 1..] == Join("/", slugs);
      assert slugs != [];
      SplitJoin(slugs, '/');
    }
  }

  /** The indexer and the fixer disagree on a heading whose slug is empty
      (one made only of parentheses): the indexer keeps the empty segment,
      giving `a//b` for the stack `a`, that heading, `b`, and the fixer drops
      it. So with only the document and that path allowed, the path copied
      verbatim falls back to the document. */
  lemma EmptySlugFallsBack(file: string, a: string, t: string, b: string)
    requires '#' !in file && '/' !in a && '/' !in b && a != "" && b != ""
    requires forall j :: 0 <= j < |a| ==> !IsSlugBreaker(a[j])
    requires forall j :: 0 <= j < |b| ==> !IsSlugBreaker(b[j])
    requires FormatHeader(t) == ""
    ensures PathString([a, t, b]) == a + "//" + b
    ensures FixSourceName(file + "#" + (a + "//" + b)) == file + "#" + (a + "/" + b)
    ensures var indexed := file + "#" + PathString([a, t, b]);
            FixHallucinatedSource(FixSourceName(indexed), {file, indexed}) == Some(file)
  {
    EmptySlugPath(a, t, b);
    DoubleSlashFixed(file, a, b);
    FallsBackToFile(file, a + "/" + b, file + "#" + (a + "//" + b));
  }

  /** The document `d` with headings `# a`, `## ()` and `### b`: the indexer
      lists the target `d#a//b`, and a citation of exactly that target is
      rewritten to `d#a/b` and falls back to `d`. */
  lemma IndexedTargetNotCanonical()
    ensures LeafPaths([Heading(1, "a"), Heading(2, "()"), Heading(3, "b")]) == ["a//b"]
    ensures FixSourceName("d#a//b") == "d#a/b"
    ensures FixHallucinatedSource(FixSourceName("d#a//b"), {"d", "d#a//b"}) == Some("d")
  {
    IndexedTargetPath();
    IndexedTargetFixed();
    IndexedTargetChecked();
  }

  lemma IndexedTargetPath()
    ensures LeafPaths([Heading(1, "a"), Heading(2, "()"), Heading(3, "b")]) == ["a//b"]
  {
    EmptyParensSlug();
    NestedHeadingPath("a", "()", "b");
    EmptySlugPath("a", "()", "b");
    assert "a" + "//" + "b" == "a//b";
  }

  lemma IndexedTargetFixed()
    ensures FixSourceName("d#a//b") == "d#a/b"
  {
    DoubleSlashFixed("d", "a", "b");
    assert "d" + "#" + ("a" + "//" + "b") == "d#a//b";
    assert "d" + "#" + ("a" + "/" + "b") == "d#a/b";
  }

  lemma IndexedTargetChecked()
    ensures FixHallucinatedSource("d#a/b", {"d", "d#a//b"}) == Some("d")
  {
    FallsBackToFile("d", "a/b", "d#a//b");
    assert "d" + "#" + "a/b" == "d#a/b";
  }

  /** A heading made only of parentheses slugs to nothing. */
  lemma EmptyParensSlug()
    ensures FormatHeader("()") == ""
  {
    assert "()"[1..] == ")" && ")"[1..] == [];
    assert Delete(")", ' ') == ")";
    assert Delete("()", ' ') == "()";
    assert Delete("()", '(') == ")";
    assert Delete(")", ')') == "";
  }

  /** A cited section outside the allowed set falls back to its file. */
  lemma FallsBackToFile(file: string, headers: string, other: string)
    requires '#' !in file && file + "#" + headers != other
    ensures FixHallucinatedSource(file + "#" + headers, {file, other}) == Some(file)
  {
    assert file + "#" + headers == file + ['#'] + headers;
    PartitionAt(file, '#', headers);
  }

  /** The indexer's path for the stack `a`, `t`, `b` when `t` slugs to nothing. */
  lemma EmptySlugPath(a: string, t: string, b: string)
    requires forall j :: 0 <= j < |a| ==> !IsSlugBreaker(a[j])
    requires forall j :: 0 <= j < |b| ==> !IsSlugBreaker(b[j])
    requires FormatHeader(t) == ""
    ensures PathString([a, t, b]) == a + "//" + b
  {
    FormatHeaderFixedPoint(a);
    FormatHeaderFixedPoint(b);
    assert Slugs([a, t, b]) == [a, "", b];
    assert Join("/", ["", b]) == "" + "/" + b;
    assert Join("/", [a, "", b]) == a + "/" + Join("/", ["", b]);
  }

  /** `a//b` splits into `a`, an empty segment and `b`. */
  lemma DoubleSlashSplit(a: string, b: string)
    requires '/' !in a && '/' !in b
    ensures Split(a + "//" + b, '/') == [a, "", b]
  {
    assert a + "//" + b == a + ['/'] + ([] + ['/'] + b);
    SplitAppend(a, '/', [] + ['/'] + b);
    SplitAppend([], '/', b);
    SplitNoSep(a, '/');
    SplitNoSep(b, '/');
  }

  /** The fixer drops the empty segment of `a//b`. */
  lemma DoubleSlashFixed(file: string, a: string, b: string)
    requires '#' !in file && '/' !in a && '/' !in b && a != "" && b != ""
    requires forall j :: 0 <= j < |a| ==> !IsSlugBreaker(a[j])
    requires forall j :: 0 <= j < |b| ==> !IsSlugBreaker(b[j])
    ensures FixSourceName(file + "#" + (a + "//" + b)) == file + "#" + (a + "/" + b)
  {
    FixSourceNameOf(file, a + "//" + b);
    DoubleSlashSplit(a, b);
    DropEmptySegment(a, b);
    assert Join("/", [a, b]) == a + "/" + b;
  }

  /** `_fix_source_name` on a file part and a non-empty header part. */
  lemma FixSourceNameOf(file: string, headers: string)
    requires '#' !in file && headers != ""
    ensures var formatted := Join("/", FormatSegments(Split(headers, '/')));
            FixSourceName(file + "#" + headers) == if formatted == "" then file else file + "#" + formatted
  {
    assert file + "#" + headers == file + ['#'] + headers;
    PartitionAt(file, '#', headers);
  }

  /** Two slugs around an empty segment keep only the slugs. */
  lemma DropEmptySegment(a: string, b: string)
    requires a != "" && b != ""
    requires forall j :: 0 <= j < |a| ==> !IsSlugBreaker(a[j])
    requires forall j :: 0 <= j < |b| ==> !IsSlugBreaker(b[j])
    ensures FormatSegments([a, "", b]) == [a, b]
  {
    FormatHeaderFixedPoint(a);
    LoneSlug(b);
    assert [a, "", b][1..] == ["", b];
  }

  /** One slug, alone or after an empty segment, stays itself. */
  lemma LoneSlug(b: string)
    requires b != ""
    requires forall j :: 0 <= j < |b| ==> !IsSlugBreaker(b[j])
    ensures FormatSegments(["", b]) == [b]
  {
    FormatHeaderFixedPoint(b);
    assert FormatSegments([b]) == [b] by {
      assert [b][1..] == [];
    }
    assert ["", b][1..] == [b];
  }

  /** A citation whose heading text holds a space is never turned into the
      target the indexer lists for that heading: the indexer turns spaces into
      `-`, the fixer deletes them. So with only the document and that heading
      allowed, the citation falls back to the document. */
  lemma SpacedHeadingFallsBack(file: string, text: string)
    requires '#' !in file && '/' !in text && ' ' in text && FormatHeader(text) != ""
    ensures FixSourceName(file + "#" + text) == file + "#" + FormatHeader(text)
    ensures var indexed := file + "#" + FormatHeader(ReplaceChar(text, ' ', '-'));
            FixHallucinatedSource(FixSourceName(file + "#" + text), {file, indexed}) == Some(file)
  {
    PartitionAt(file, '#', text);
    assert file + "#" + text == file + ['#'] + text;
    SplitNoSep(text, '/');
    assert FormatSegments([text]) == [FormatHeader(text)];
    var fixed := file + "#" + FormatHeader(text);
    var indexed := file + "#" + FormatHeader(ReplaceChar(text, ' ', '-'));
    assert FormatHeader(text) != FormatHeader(ReplaceChar(text, ' ', '-')) by {
      FormatHeaderCount(text, '-');
      FormatHeaderCount(ReplaceChar(text, ' ', '-'), '-');
      ReplaceCharCount(text, ' ', '-');
    }
    assert fixed[|file| + 1..] == FormatHeader(text);
    assert indexed[|file| + 1..] == FormatHeader(ReplaceChar(text, ' ', '-'));
    PartitionAt(file, '#', FormatHeader(text));
    assert fixed == file + ['#'] + FormatHeader(text);
  }

  // ---------------------------------------------------------------------
  // _traverse_and_process and preprocess_edited_map

  /** What `_traverse_and_process` reads from its enclosing function. */
  datatype Context = Context(
    allTitles: set<string>,
    parentsMap: TitleMap,
    childrenMap: TitleMap,
    allowedSources: set<string>)

  /** `d.get(key, [])`. */
  function Lookup(m: TitleMap, key: string): (v: seq<string>)
    ensures key in m ==> v == m[key]
    ensures key !in m ==> v == []
  {
    if key in m then m[key] else []
  }

  /** `[s for s in processed_src if s]` where `processed_src` holds each source
      fixed and checked: the sources that survive, with empty strings dropped
      like `None`. */
  function KeptSources(sources: seq<string>, allowed: set<string>): (kept: seq<string>)
    ensures |kept| <= |sources|
    ensures forall k :: 0 <= k < |kept| ==> kept[k] in allowed && kept[k] != ""
  {
    var kept := FlatMap(src => KeptSource(src, allowed), sources);
    FlatMapLength(src => KeptSource(src, allowed), sources);
    assert forall k :: 0 <= k < |kept| ==> kept[k] in allowed && kept[k] != "" by {
      forall k | 0 <= k < |kept| ensures kept[k] in allowed && kept[k] != "" {
        FlatMapMembers(src => KeptSource(src, allowed), sources, kept[k]);
      }
    }
    kept
  }

  /** What one source contributes: its fixed and checked form, unless that
      is `None` or empty. */
  function KeptSource(src: string, allowed: set<string>): (kept: seq<string>)
    ensures |kept| <= 1
    ensures forall x :: x in kept ==> x in allowed && x != ""
  {
    var checked := FixHallucinatedSource(FixSourceName(src), allowed);
    if checked.Some? && checked.value != "" then [checked.value] else []
  }

  /** The new `source` field: `None` for an absent or empty list, and for a
      list none of whose entries survives. */
  function NewSources(source: Option<seq<string>>, allowed: set<string>): (r: Option<seq<string>>)
    ensures r.Some? ==> r.value != [] && forall k :: 0 <= k < |r.value| ==> r.value[k] in allowed && r.value[k] != ""
    ensures source.None? || source.value == [] ==> r.None?
  {
    if source.None? || source.value == [] then None
    else
      var kept := KeptSources(source.value, allowed);
      if kept == [] then None else Some(kept)
  }

  /** The test the `related` comprehension applies to each title. */
  predicate KeepRelated(title: string, ctx: Context, relTitle: string) {
    && relTitle in ctx.allTitles
    && relTitle != title
    && relTitle !in Lookup(ctx.parentsMap, title)
    && relTitle !in Lookup(ctx.childrenMap, title)
  }

  /** The new `related` field: the related titles that pass the test, or
      `None` when there were none to begin with or none pass. */
  function NewRelated(c: Concept, ctx: Context): (r: Option<seq<string>>)
    ensures r.Some? ==> r.value != [] && forall k :: 0 <= k < |r.value| ==> KeepRelated(c.title, ctx, r.value[k])
    ensures c.related.None? || c.related.value == [] ==> r.None?
  {
    if c.related.None? || c.related.value == [] then None
    else
      var filtered := Filter(relTitle => KeepRelated(c.title, ctx, relTitle), c.related.value);
      if filtered == [] then None else Some(filtered)
  }

  /** `_traverse_and_process` on a list that may be absent: `None` for an
      absent or empty list, otherwise each concept rebuilt in order. */
  function ProcessList(concepts: ConceptList, ctx: Context): (r: ConceptList)
    ensures r.Present? ==> concepts.Present? && r.items != [] && |r.items| == |concepts.items|
    ensures concepts.Absent? || concepts.items == [] ==> r.Absent?
    decreases concepts
  {
    match concepts
    case Absent => Absent
    case Present(cs) => if cs == [] then Absent else Present(ProcessEach(cs, ctx))
  }

  function ProcessEach(cs: seq<Concept>, ctx: Context): (r: seq<Concept>)
    ensures |r| == |cs|
    decreases cs
  {
    if cs == [] then [] else [ProcessConcept(cs[0], ctx)] + ProcessEach(cs[1..], ctx)
  }

  /** One concept rebuilt: the same title and description, the new `source`
      and `related`, and the sub-concepts processed. */
  function ProcessConcept(c: Concept, ctx: Context): (r: Concept)
    ensures r.title == c.title && r.description == c.description
    decreases c
  {
    Concept(c.title, c.description, NewRelated(c, ctx), NewSources(c.source, ctx.allowedSources),
      ProcessList(c.consistOf, ctx))
  }

  /** The context `preprocess_edited_map` builds for a forest. */
  function ContextOf(cs: seq<Concept>, allowedSources: seq<string>): Context {
    Context((set t | t in Titles(cs)), ParentsMap(cs), ChildrenMap(cs), (set a | a in allowedSources))
  }

  /** The map `preprocess_edited_map` returns (`final or []`). */
  function Preprocessed(editedMap: KnowledgeMap, allowedSources: seq<string>): KnowledgeMap {
    var cs := editedMap.concepts;
    KnowledgeMap(Items(ProcessList(Present(cs), ContextOf(cs, allowedSources))))
  }

  /** `preprocess_edited_map`. */
  method PreprocessEditedMap(editedMap: KnowledgeMap, allowedSources: seq<string>) returns (result: KnowledgeMap)
    ensures result == Preprocessed(editedMap, allowedSources)
    ensures |result.concepts| == |editedMap.concepts|
  {
    var allTitles := FlattenMap(Present(editedMap.concepts));
    var parentsMap := GetParentsMapFromList(Present(editedMap.concepts));
    var childrenMap := GetChildrenMapFromList(Present(editedMap.concepts));
    var allowedSourcesSet := set a | a in allowedSources;
    var ctx := Context(allTitles, parentsMap, childrenMap, allowedSourcesSet);
    var finalProcessedConcepts := ProcessList(Present(editedMap.concepts), ctx);
    result := KnowledgeMap(Items(finalProcessedConcepts));
  }

  /** With unique titles, the ancestors of a concept are in its entry of the
      parents map. */
  lemma AncestorInParents(cs: seq<Concept>, p: Concept, c: Concept)
    requires NoDups(Titles(cs)) && InTree(cs, p) && InTree(Items(p.consistOf), c)
    ensures c.title in ParentsMap(cs) && p.title in ParentsMap(cs)[c.title]
  {
    ParentWritesKeys(cs, []);
    var chain := ParentWriteOf(cs, [], p);
    var items := p.consistOf.items;
    var below := ParentWriteOf(items, chain + [p.title], c);
    assert ParentWritesBelow(p, chain) == ParentWrites(items, chain + [p.title]);
    assert (chain + [p.title])[|chain|] == p.title;
    assert below[|chain|] == p.title;
    StoreAllLookupIn(map[], ParentWrites(cs, []), c.title, below);
  }

  // ---------------------------------------------------------------------
  // Properties of the rebuilt forest

  /** A concept with `source` and `related` blanked and an empty child list
      read as absent: what the rebuild must leave unchanged. */
  function Skeleton(c: Concept): Concept
    decreases c
  {
    Concept(c.title, c.description, None, None, SkeletonList(c.consistOf))
  }

  function SkeletonList(l: ConceptList): ConceptList
    decreases l
  {
    match l
    case Absent => Absent
    case Present(cs) => if cs == [] then Absent else Present(Skeletons(cs))
  }

  function Skeletons(cs: seq<Concept>): seq<Concept>
    decreases cs
  {
    if cs == [] then [] else [Skeleton(cs[0])] + Skeletons(cs[1..])
  }

  /** Only `source`, `related` and `consist_of` are replaced: titles,
      descriptions, the tree shape and the order of children are kept, and
      an empty child list becomes `None`. */
  lemma {:induction false} ProcessKeepsSkeletons(cs: seq<Concept>, ctx: Context)
    ensures Skeletons(ProcessEach(cs, ctx)) == Skeletons(cs)
    decreases cs, 2
  {
    if cs != [] {
      ProcessKeepsSkeleton(cs[0], ctx);
      ProcessKeepsSkeletons(cs[1..], ctx);
    }
  }

  lemma {:induction false} ProcessKeepsSkeleton(c: Concept, ctx: Context)
    ensures Skeleton(ProcessConcept(c, ctx)) == Skeleton(c)
    decreases c, 1
  {
    ProcessKeepsSkeletonList(c.consistOf, ctx);
  }

  lemma {:induction false} ProcessKeepsSkeletonList(l: ConceptList, ctx: Context)
    ensures SkeletonList(ProcessList(l, ctx)) == SkeletonList(l)
    decreases l, 0
  {
    match l
    case Absent =>
    case Present(cs) =>
      if cs != [] {
        ProcessKeepsSkeletons(cs, ctx);
      }
  }

  /** The rebuilt forest has the same titles, in the same pre-order. */
  lemma {:induction false} ProcessKeepsTitles(cs: seq<Concept>, ctx: Context)
    ensures Titles(ProcessEach(cs, ctx)) == Titles(cs)
    decreases cs, 1
  {
    if cs != [] {
      ProcessKeepsTitlesBelow(cs[0], ctx);
      ProcessKeepsTitles(cs[1..], ctx);
    }
  }

  lemma {:induction false} ProcessKeepsTitlesBelow(c: Concept, ctx: Context)
    ensures TitlesBelow(ProcessConcept(c, ctx)) == TitlesBelow(c)
    decreases c, 0
  {
    match c.consistOf
    case Absent =>
    case Present(items) =>
      if items != [] {
        ProcessKeepsTitles(items, ctx);
      }
  }

  /** Every node of the rebuilt forest is the rebuild of a node of the input. */
  lemma {:induction false} ProcessedOrigin(cs: seq<Concept>, ctx: Context, d: Concept) returns (c: Concept)
    requires InTree(ProcessEach(cs, ctx), d)
    ensures InTree(cs, c) && d == ProcessConcept(c, ctx)
    decreases cs
  {
    var out := ProcessEach(cs, ctx);
    var i :| 0 <= i < |out| && InSubtree(out[i], d);
    assert out[i] == ProcessConcept(cs[i], ctx) by {
      ProcessEachAt(cs, ctx, i);
    }
    if d == out[i] {
      c := cs[i];
      assert InSubtree(cs[i], c);
    } else {
      var items := cs[i].consistOf.items;
      assert ProcessList(cs[i].consistOf, ctx) == Present(ProcessEach(items, ctx));
      c := ProcessedOrigin(items, ctx, d);
      assert InSubtree(cs[i], c);
    }
  }

  lemma {:induction false} ProcessEachAt(cs: seq<Concept>, ctx: Context, i: nat)
    requires i < |cs|
    ensures ProcessEach(cs, ctx)[i] == ProcessConcept(cs[i], ctx)
  {
    if i > 0 {
      ProcessEachAt(cs[1..], ctx, i - 1);
    }
  }

  /** Conversely, the rebuild of every node of the input is a node of the
      rebuilt forest. */
  lemma {:induction false} ProcessedImage(cs: seq<Concept>, ctx: Context, c: Concept)
    requires InTree(cs, c)
    ensures InTree(ProcessEach(cs, ctx), ProcessConcept(c, ctx))
    decreases cs
  {
    var out := ProcessEach(cs, ctx);
    var i :| 0 <= i < |cs| && InSubtree(cs[i], c);
    ProcessEachAt(cs, ctx, i);
    if c == cs[i] {
      assert InSubtree(out[i], ProcessConcept(c, ctx));
    } else {
      var items := cs[i].consistOf.items;
      ProcessedImage(items, ctx, c);
      assert ProcessList(cs[i].consistOf, ctx) == Present(ProcessEach(items, ctx));
      assert InSubtree(out[i], ProcessConcept(c, ctx));
    }
  }

  /** Nodes of the normalised map: each `source` is absent or a non-empty
      list of non-empty allowed citations, each `related` is absent or a
      non-empty list of titles of the map other than the node's own, and no
      child list is empty. */
  lemma PreprocessedNode(editedMap: KnowledgeMap, allowedSources: seq<string>, d: Concept)
    requires InTree(Preprocessed(editedMap, allowedSources).concepts, d)
    ensures d.source.None? || (d.source.value != [] &&
      forall k :: 0 <= k < |d.source.value| ==> d.source.value[k] in allowedSources && d.source.value[k] != "")
    ensures d.related.None? || (d.related.value != [] &&
      forall k :: 0 <= k < |d.related.value| ==>
        d.related.value[k] in Titles(editedMap.concepts) && d.related.value[k] != d.title)
    ensures d.consistOf.Absent? || d.consistOf.items != []
  {
    var cs := editedMap.concepts;
    var ctx := ContextOf(cs, allowedSources);
    assert Preprocessed(editedMap, allowedSources).concepts != [];
    assert Preprocessed(editedMap, allowedSources).concepts == ProcessEach(cs, ctx);
    var c := ProcessedOrigin(cs, ctx, d);
  }

  /** With unique titles, a kept related title is a title of the map that is
      neither the concept itself, nor one of its ancestors, nor one of its
      descendants; and the kept titles keep their original order. */
  lemma RelatedRespectsHierarchy(editedMap: KnowledgeMap, allowedSources: seq<string>, c: Concept)
    requires NoDups(Titles(editedMap.concepts)) && InTree(editedMap.concepts, c)
    ensures var d := ProcessConcept(c, ContextOf(editedMap.concepts, allowedSources));
            && InTree(Preprocessed(editedMap, allowedSources).concepts, d)
            && (d.related.None? ||
                (&& c.related.Some?
                 && IsSubsequence(d.related.value, c.related.value)
                 && forall k :: 0 <= k < |d.related.value| ==>
                      var x := d.related.value[k];
                      && x in Titles(editedMap.concepts)
                      && x != c.title
                      && x !in TitlesBelow(c)
                      && forall p :: InTree(editedMap.concepts, p) && InTree(Items(p.consistOf), c) ==> x != p.title))
  {
    var cs := editedMap.concepts;
    var ctx := ContextOf(cs, allowedSources);
    var d := ProcessConcept(c, ctx);
    ProcessedImage(cs, ctx, c);
    assert cs != [];
    assert Preprocessed(editedMap, allowedSources).concepts == ProcessEach(cs, ctx);
    if d.related.Some? {
      FilterIsSubsequence(relTitle => KeepRelated(c.title, ctx, relTitle), c.related.value);
      ChildrenMapDescendants(cs, c);
      forall k, p | 0 <= k < |d.related.value| && InTree(cs, p) && InTree(Items(p.consistOf), c)
        ensures d.related.value[k] != p.title
      {
        AncestorInParents(cs, p, c);
      }
    }
  }

  /** The top-level list is empty exactly when the edited map's is. */
  lemma PreprocessedEmpty(editedMap: KnowledgeMap, allowedSources: seq<string>)
    ensures Preprocessed(editedMap, allowedSources).concepts == [] <==> editedMap.concepts == []
  {
  }

  /** The rebuilt map keeps the skeleton and the titles of the edited map. */
  lemma PreprocessedShape(editedMap: KnowledgeMap, allowedSources: seq<string>)
    ensures Skeletons(Preprocessed(editedMap, allowedSources).concepts) == Skeletons(editedMap.concepts)
    ensures Titles(Preprocessed(editedMap, allowedSources).concepts) == Titles(editedMap.concepts)
  {
    var cs := editedMap.concepts;
    if cs != [] {
      ProcessKeepsSkeletons(cs, ContextOf(cs, allowedSources));
      ProcessKeepsTitles(cs, ContextOf(cs, allowedSources));
    }
  }

  /** The rebuilt forest makes the same `parents_map` writes. */
  lemma {:induction false} ProcessKeepsParentWrites(cs: seq<Concept>, ctx: Context, path: seq<string>)
    ensures ParentWrites(ProcessEach(cs, ctx), path) == ParentWrites(cs, path)
    decreases cs, 1
  {
    if cs != [] {
      ProcessKeepsParentWritesBelow(cs[0], ctx, path);
      ProcessKeepsParentWrites(cs[1..], ctx, path);
    }
  }

  lemma {:induction false} ProcessKeepsParentWritesBelow(c: Concept, ctx: Context, path: seq<string>)
    ensures ParentWritesBelow(ProcessConcept(c, ctx), path) == ParentWritesBelow(c, path)
    decreases c, 0
  {
    match c.consistOf
    case Absent =>
    case Present(items) =>
      if items != [] {
        ProcessKeepsParentWrites(items, ctx, path + [c.title]);
      }
  }

  /** The rebuilt forest makes the same `children_map` writes. */
  lemma {:induction false} ProcessKeepsChildWrites(cs: seq<Concept>, ctx: Context)
    ensures ChildWrites(ProcessEach(cs, ctx)) == ChildWrites(cs)
    decreases cs, 1
  {
    if cs != [] {
      ProcessKeepsChildWritesBelow(cs[0], ctx);
      ProcessKeepsTitlesBelow(cs[0], ctx);
      ProcessKeepsChildWrites(cs[1..], ctx);
    }
  }

  lemma {:induction false} ProcessKeepsChildWritesBelow(c: Concept, ctx: Context)
    ensures ChildWritesBelow(ProcessConcept(c, ctx)) == ChildWritesBelow(c)
    decreases c, 0
  {
    match c.consistOf
    case Absent =>
    case Present(items) =>
      if items != [] {
        ProcessKeepsChildWrites(items, ctx);
      }
  }

  /** A second run over the rebuilt forest builds the same title set, parents
      map and children map as the first. */
  lemma ProcessKeepsContext(cs: seq<Concept>, allowedSources: seq<string>)
    ensures var ctx := ContextOf(cs, allowedSources);
            ContextOf(ProcessEach(cs, ctx), allowedSources) == ctx
  {
    var ctx := ContextOf(cs, allowedSources);
    ProcessKeepsTitles(cs, ctx);
    ProcessKeepsParentWrites(cs, ctx, []);
    ProcessKeepsChildWrites(cs, ctx);
  }

  /** Sources that are allowed, non-empty and already canonical all survive. */
  lemma {:induction false} KeptSourcesFixed(sources: seq<string>, allowed: set<string>)
    requires forall k :: 0 <= k < |sources| ==> sources[k] in allowed && sources[k] != ""
    requires forall k :: 0 <= k < |sources| ==> FixSourceName(sources[k]) == sources[k]
    ensures KeptSources(sources, allowed) == sources
  {
    if sources != [] {
      KeptSourcesFixed(sources[1..], allowed);
      assert sources == [sources[0]] + sources[1..];
      KeptSourcesAppend([sources[0]], sources[1..], allowed);
      assert KeptSources([sources[0]], allowed) == KeptSource(sources[0], allowed);
    }
  }

  /** Rebuilding a rebuilt forest again, with the same context, changes
      nothing when every allowed citation is canonical. */
  lemma {:induction false} ProcessEachTwice(cs: seq<Concept>, ctx: Context)
    requires forall a :: a in ctx.allowedSources ==> FixSourceName(a) == a
    ensures ProcessEach(ProcessEach(cs, ctx), ctx) == ProcessEach(cs, ctx)
    decreases cs, 2
  {
    if cs != [] {
      ProcessConceptTwice(cs[0], ctx);
      ProcessEachTwice(cs[1..], ctx);
      var r := ProcessEach(cs, ctx);
      assert r[0] == ProcessConcept(cs[0], ctx) && r[1..] == ProcessEach(cs[1..], ctx);
    }
  }

  lemma {:induction false} ProcessConceptTwice(c: Concept, ctx: Context)
    requires forall a :: a in ctx.allowedSources ==> FixSourceName(a) == a
    ensures ProcessConcept(ProcessConcept(c, ctx), ctx) == ProcessConcept(c, ctx)
    decreases c, 1
  {
    var r := ProcessConcept(c, ctx);
    if r.related.Some? {
      var keep := relTitle => KeepRelated(c.title, ctx, relTitle);
      assert forall x :: x in r.related.value ==> keep(x);
      FilterAll(keep, r.related.value);
    }
    if r.source.Some? {
      KeptSourcesFixed(r.source.value, ctx.allowedSources);
    }
    ProcessListTwice(c.consistOf, ctx);
  }

  lemma {:induction false} ProcessListTwice(l: ConceptList, ctx: Context)
    requires forall a :: a in ctx.allowedSources ==> FixSourceName(a) == a
    ensures ProcessList(ProcessList(l, ctx), ctx) == ProcessList(l, ctx)
    decreases l, 0
  {
    match l
    case Absent =>
    case Present(cs) =>
      if cs != [] {
        ProcessEachTwice(cs, ctx);
      }
  }

  /** `preprocess_edited_map` is idempotent when every allowed citation is
      already in the form `_fix_source_name` gives. */
  lemma PreprocessedIdempotent(editedMap: KnowledgeMap, allowedSources: seq<string>)
    requires forall a :: a in allowedSources ==> FixSourceName(a) == a
    ensures Preprocessed(Preprocessed(editedMap, allowedSources), allowedSources) == Preprocessed(editedMap, allowedSources)
  {
    var cs := editedMap.concepts;
    if cs != [] {
      var ctx := ContextOf(cs, allowedSources);
      ProcessKeepsContext(cs, allowedSources);
      ProcessEachTwice(cs, ctx);
    }
  }

  /** Sources are processed one by one, so the survivors keep their order. */
  lemma KeptSourcesAppend(a: seq<string>, b: seq<string>, allowed: set<string>)
    ensures KeptSources(a + b, allowed) == KeptSources(a, allowed) + KeptSources(b, allowed)
  {
    FlatMapAppend(src => KeptSource(src, allowed), a, b);
  }

  lemma KeptSourceMembers(src: string, allowed: set<string>, x: string)
    ensures x in KeptSource(src, allowed) <==> x != "" && FixHallucinatedSource(FixSourceName(src), allowed) == Some(x)
  {
  }

  /** A string survives exactly when it is the non-empty outcome of fixing and
      checking one of the sources. */
  lemma KeptSourcesMembers(sources: seq<string>, allowed: set<string>, x: string)
    ensures x in KeptSources(sources, allowed) <==>
      x != "" && exists i :: 0 <= i < |sources| && FixHallucinatedSource(FixSourceName(sources[i]), allowed) == Some(x)
  {
    FlatMapMembers(src => KeptSource(src, allowed), sources, x);
    forall i | 0 <= i < |sources|
      ensures x in KeptSource(sources[i], allowed) <==>
                x != "" && FixHallucinatedSource(FixSourceName(sources[i]), allowed) == Some(x)
    {
      KeptSourceMembers(sources[i], allowed, x);
    }
  }

  /** Against the targets of a set of documents, every citation left in the
      normalised map names a document or a leaf heading of one. */
  lemma SourcesCiteMaterial(material: seq<Document>, editedMap: KnowledgeMap, d: Concept)
    requires InTree(Preprocessed(editedMap, DocIds(material) + HeadingCitations(material)).concepts, d)
    requires d.source.Some?
    ensures forall k :: 0 <= k < |d.source.value| ==> IsCitationTarget(material, d.source.value[k])
  {
    var allowed := DocIds(material) + HeadingCitations(material);
    PreprocessedNode(editedMap, allowed, d);
    forall k | 0 <= k < |d.source.value|
      ensures IsCitationTarget(material, d.source.value[k])
    {
      AllowedSourcesAreTargets(material, d.source.value[k]);
    }
  }
}
