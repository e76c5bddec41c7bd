# AI roadmap backend: verified model of the deterministic core

This project models the deterministic parts of an AI learning-roadmap backend.
The backend turns uploaded study material into a knowledge map or an SQL study
roadmap; an LLM does the creative work, and the parts modelled here prepare
its input and clean up its output:

- **Markdown header index** (`header_index.dfy`, module `HeaderIndex`).
  - `format_header` turns a heading into a slug.
  - `get_markdown_header_paths` lists the slash-separated paths of the leaf
    headings of a markdown text.
  - `get_allowed_sources` lists every citation a concept may carry: each
    document name, and `name#path` for each leaf heading path of that document.
- **Edited-map normaliser** (`edit_map.dfy`, module `EditMap`, over the
  records of `concepts.dfy`).
  - `flatten_map` collects the titles of a concept forest.
  - The parents map sends each title to its chain of ancestors; the children
    map sends each title to all its descendants in pre-order.
  - `preprocess_edited_map` repairs the sources and related titles of an
    LLM-edited knowledge map:
    - a source is normalised and kept only if it, or its document part, is an
      allowed citation;
    - a related title is kept only if it exists and is neither the concept
      itself, an ancestor, nor a descendant;
    - an empty list becomes `None`.
- **Hierarchy flattening** (`hierarchy.dfy`, module `Hierarchy`).
  - `_flatten_hierarchy` walks a nested dict/list/str hierarchy in pre-order.
  - The map builder pairs every flattened name with all the others as allowed
    prerequisites.
- **Heuristic SQL roadmap** (`roadmap.dfy`, module `RoadmapLogic`).
  - Eight default milestones.
  - A reading level guessed from keywords in the first 5000 characters of the
    uploaded text.
  - Extra resources and an hour floor for PostgreSQL, MySQL and analytics
    hints.
  - `rewrite_roadmap_with_prompt` edits a roadmap in place as a free-text
    prompt asks: level, documentation links, a time budget that rescales the
    hours with `_scale_hours`, extra resources, removal by keyword, and
    analytics priority. It then recomputes the total.

Helper modules:

- `text.dfy` models the Python `str` operations the code uses.
- `seqs.dfy` and `dicts.dfy` hold sequence facts, and a model of a dict filled
  by a series of writes where the last write to a key wins.
- `wrappers.dfy` holds `Option`.

Methods keep the source's loops and in-place updates. Examples:

- the stack walk of `get_markdown_header_paths`;
- the closures that fill the parents and children dicts, modelled as methods
  that thread the dict;
- `Roadmap` as a class whose fields the rewrite assigns.

Each method is proved equal to a specification function. The lemmas state the
properties of that function.

## Model

| member | source | states |
|---|---|---|
| HeaderIndex.FormatHeader | app/llm_pipelines/utils.py:4-6 | the slug contains no space or parenthesis and is no longer than the heading |
| HeaderIndex.FormatHeaderFixedPoint | app/llm_pipelines/utils.py:4-6 | a heading is its own slug exactly when it has no space or parenthesis |
| HeaderIndex.FormatHeaderIdempotent | app/llm_pipelines/utils.py:4-6 | slugging a slug changes nothing |
| HeaderIndex.FormatHeaderCount | app/llm_pipelines/utils.py:4-6 | every other character is kept as often as it occurs |
| HeaderIndex.HashRun | app/llm_pipelines/utils.py:17 | the length of the leading run of `#` characters |
| HeaderIndex.ParseHeading | app/llm_pipelines/utils.py:17-23 | a line is a heading exactly when 1 to 6 `#` are followed by whitespace; its level is the run length and its text has no space left (spaces became `-`) |
| HeaderIndex.HeadingsOf | app/llm_pipelines/utils.py:17-24 | at most one heading per line |
| HeaderIndex.Headings | app/llm_pipelines/utils.py:17-24 | definition: the headings of the lines of a text, in order |
| HeaderIndex.NoHeadingLines | app/llm_pipelines/utils.py:26-27 | there are no headings exactly when no line is a heading line |
| HeaderIndex.HeadingsOfAppend | app/llm_pipelines/utils.py:17-24 | the headings of concatenated lines are the headings of each part, in order |
| HeaderIndex.HeadingsAppend | app/llm_pipelines/utils.py:17-24 | the headings of two texts joined by a newline are those of each text, in order |
| HeaderIndex.HeadingsOfStep | app/llm_pipelines/utils.py:21-24 | one more line adds at most its own heading |
| HeaderIndex.CollectHeadings | app/llm_pipelines/utils.py:17-24 | the collected list equals the headings of the text |
| HeaderIndex.StackAfter | app/llm_pipelines/utils.py:36-38 | after a heading, the path has between 1 and its level entries and ends with its text |
| HeaderIndex.PopToLevel | app/llm_pipelines/utils.py:36-37 | popping leaves a prefix of the path that is shorter than the level, and removes no more than needed |
| HeaderIndex.StackStep | app/llm_pipelines/utils.py:36-38 | popping to the level and pushing the text gives the path of the next heading |
| HeaderIndex.IsLeaf | app/llm_pipelines/utils.py:40-49 | definition: the last heading, or one whose successor is not deeper |
| HeaderIndex.LeafIndices | app/llm_pipelines/utils.py:40-50 | every index returned is a leaf heading |
| HeaderIndex.LeafIndicesExact | app/llm_pipelines/utils.py:40-50 | the indices are exactly the leaves, increasing, and no more than the headings |
| HeaderIndex.Slugs | app/llm_pipelines/utils.py:51 | definition: one slug per path entry, in order |
| HeaderIndex.PathString | app/llm_pipelines/utils.py:51 | definition: the slugs of a path joined by `/` |
| HeaderIndex.LeafPaths | app/llm_pipelines/utils.py:32-53 | definition: the path of every leaf heading, in heading order |
| HeaderIndex.NestedHeadingPath | app/llm_pipelines/utils.py:32-53 | headings of levels 1, 2, 3 yield one path through all three |
| HeaderIndex.PathsAtStep | app/llm_pipelines/utils.py:32-51 | one more heading adds its path exactly when it is a leaf |
| HeaderIndex.LastHeadingEmitted | app/llm_pipelines/utils.py:41-44 | the last heading is always a leaf, and its path is the last result |
| HeaderIndex.LeafPathCount | app/llm_pipelines/utils.py:26-53 | for a non-empty list of parsed headings, between one path and one per heading |
| HeaderIndex.LeafPathOf | app/llm_pipelines/utils.py:32-51 | the j-th result is the path of the j-th leaf heading |
| HeaderIndex.SlugsOfStack | app/llm_pipelines/utils.py:36-51 | a heading's path has 1 to level segments, the last of which is the heading's own slug |
| HeaderIndex.LeafPathShape | app/llm_pipelines/utils.py:36-51 | each result is the `/`-join of at most level slugs that ends with the leaf's slug |
| HeaderIndex.TwoSegmentPath | app/llm_pipelines/utils.py:51 | a two-entry path is the two slugs joined by `/` |
| HeaderIndex.ThreeHeadingPathsOf | app/llm_pipelines/utils.py:32-51 | for levels 1, 2, 1 the result is the two expected paths |
| HeaderIndex.ThreeHeadingPaths | app/llm_pipelines/utils.py:9-53 | headings of levels 1, 2, 1 with texts a, b, c yield `a/b` and `c`, as slugs |
| HeaderIndex.GetMarkdownHeaderPaths | app/llm_pipelines/utils.py:9-53 | the method returns exactly the leaf paths of the headings of the text |
| HeaderIndex.CitationsStep | app/llm_pipelines/utils.py:60-61 | one more path adds its citation at the end |
| HeaderIndex.AppendCitations | app/llm_pipelines/utils.py:60-61 | the loop appends exactly the citations of the paths |
| HeaderIndex.AppendDocTargets | app/llm_pipelines/utils.py:59-61 | one document's pass appends the citations of its leaf paths |
| HeaderIndex.HeadingCitationsStep | app/llm_pipelines/utils.py:59-61 | one more document adds exactly its own citations |
| HeaderIndex.HeadingCitations | app/llm_pipelines/utils.py:59-61 | definition: each document's `name#path` citations, document by document |
| HeaderIndex.GetAllowedSources | app/llm_pipelines/utils.py:56-63 | the result is all document names followed by all heading citations, document by document |
| HeaderIndex.AllowedSourcesLength | app/llm_pipelines/utils.py:56-63 | the length is the number of documents plus the number of leaf paths of all documents |
| HeaderIndex.AllowedSourcesAreTargets | app/llm_pipelines/utils.py:56-63 | a string is allowed exactly when it is a document name or cites a leaf heading of that document |
| HeaderIndex.AllowedSourcesSound | app/llm_pipelines/utils.py:56-63 | every allowed source is a document name or a heading citation |
| HeaderIndex.AllowedSourcesComplete | app/llm_pipelines/utils.py:56-63 | every document name and every heading citation is allowed |
| HeaderIndex.CitationsMembers | app/llm_pipelines/utils.py:60-61 | a citation is listed exactly when it is `name#p` for a listed path p |
| HeaderIndex.DocTargetsMembers | app/llm_pipelines/utils.py:59-61 | a document's citations are exactly those of its leaf paths |
| HeaderIndex.HeadingCitationsSound | app/llm_pipelines/utils.py:59-61 | every heading citation comes from some document |
| HeaderIndex.HeadingCitationsComplete | app/llm_pipelines/utils.py:59-61 | every citation of a document's leaf heading is listed |
| EditMap.TitlesSnoc | app/llm_pipelines/edit_map/pipeline.py:19-22 | the next concept adds its title and then the titles below it |
| EditMap.FlattenMap | app/llm_pipelines/edit_map/pipeline.py:13-24 | the set of all titles at any depth, and empty for a missing or empty list |
| EditMap.ParentWrites | app/llm_pipelines/edit_map/pipeline.py:30-38 | definition: the `parents_map` writes of a list, in walk order |
| EditMap.ParentsMap | app/llm_pipelines/edit_map/pipeline.py:27-41 | definition: the dict those writes leave, the last write to a title winning |
| EditMap.ParentWritesAppend | app/llm_pipelines/edit_map/pipeline.py:34-38 | the writes of a split list are those of each part, in order |
| EditMap.TraverseParents | app/llm_pipelines/edit_map/pipeline.py:30-38 | the closure stores exactly the ancestor-chain writes of the list, in walk order |
| EditMap.ParentStep | app/llm_pipelines/edit_map/pipeline.py:34-38 | one more concept adds its own write and then those below it |
| EditMap.GetParentsMapFromList | app/llm_pipelines/edit_map/pipeline.py:27-41 | the dict built equals the parents map of the forest |
| EditMap.ParentWritesKeys | app/llm_pipelines/edit_map/pipeline.py:34-38 | one write per title, in pre-order |
| EditMap.ParentWritesBelowKeys | app/llm_pipelines/edit_map/pipeline.py:36-38 | the writes below a concept are keyed by the titles below it |
| EditMap.ParentsMapKeys | app/llm_pipelines/edit_map/pipeline.py:27-41 | the parents map has exactly the titles of the forest as keys |
| EditMap.ParentWritesOfMember | app/llm_pipelines/edit_map/pipeline.py:34-38 | a listed concept writes its title with the current path, and so does everything below it |
| EditMap.ChildWriteBelow | app/llm_pipelines/edit_map/pipeline.py:35-38 | a direct child is written with the path extended by its parent's title |
| EditMap.ParentWriteOf | app/llm_pipelines/edit_map/pipeline.py:30-38 | a node at any depth is written with a chain that extends the start path, and its children with that chain plus its title |
| EditMap.ParentsMapRoot | app/llm_pipelines/edit_map/pipeline.py:35-40 | with distinct titles, a top-level concept maps to the empty chain |
| EditMap.ParentsMapChild | app/llm_pipelines/edit_map/pipeline.py:35-38 | with distinct titles, a child's chain is its parent's chain plus the parent's title |
| EditMap.AncestorInParents | app/llm_pipelines/edit_map/pipeline.py:27-41 | with distinct titles, every ancestor of a node is in its chain |
| EditMap.ChildWrites | app/llm_pipelines/edit_map/pipeline.py:47-62 | definition: the `children_map` writes of a list, below-first, in walk order |
| EditMap.ChildrenMap | app/llm_pipelines/edit_map/pipeline.py:44-65 | definition: the dict those writes leave |
| EditMap.ChildWritesAppend | app/llm_pipelines/edit_map/pipeline.py:52-60 | the writes of a split list are those of each part, in order |
| EditMap.TraverseChildren | app/llm_pipelines/edit_map/pipeline.py:47-62 | the closure stores exactly the descendant writes and returns all titles of the subtree in pre-order |
| EditMap.ChildStep | app/llm_pipelines/edit_map/pipeline.py:52-60 | one more concept adds the writes below it and then its own |
| EditMap.GetChildrenMapFromList | app/llm_pipelines/edit_map/pipeline.py:44-65 | the dict built equals the children map of the forest |
| EditMap.ChildWritesKeys | app/llm_pipelines/edit_map/pipeline.py:52-62 | one write per title |
| EditMap.ChildWritesBelowKeys | app/llm_pipelines/edit_map/pipeline.py:55-60 | the writes below a concept are keyed by the titles below it |
| EditMap.ChildrenMapKeys | app/llm_pipelines/edit_map/pipeline.py:44-65 | the children map has exactly the titles of the forest as keys |
| EditMap.ChildWriteOf | app/llm_pipelines/edit_map/pipeline.py:55-60 | every node at any depth is written with all the titles below it |
| EditMap.ChildrenMapDescendants | app/llm_pipelines/edit_map/pipeline.py:55-60 | with distinct titles, a node maps to all its descendants in pre-order, and a leaf maps to the empty list |
| EditMap.FormatSegments | app/llm_pipelines/edit_map/pipeline.py:80 | at most one slug per segment, none with a space or parenthesis |
| EditMap.FixSourceName | app/llm_pipelines/edit_map/pipeline.py:74-81 | the result starts with the file part and either ends there or goes on with `#` and a non-empty header path; a source without `#` is unchanged |
| EditMap.FormatSegmentsCanonical | app/llm_pipelines/edit_map/pipeline.py:80 | non-empty segments that are already slugs are unchanged |
| EditMap.FixSourceNameCanonical | app/llm_pipelines/edit_map/pipeline.py:74-81 | a file name, and a file with a canonical header path, are fixed points |
| EditMap.FixSourceNameNoSegments | app/llm_pipelines/edit_map/pipeline.py:74-81 | when every `/`-segment after `#` is empty, the result is the file part alone |
| EditMap.FixSourceNameSlugs | app/llm_pipelines/edit_map/pipeline.py:74-81 | when the result goes on after the file part, it is `#` followed by a path that splits at `/` into exactly the slugs of the non-empty segments, in order |
| EditMap.EmptySlugFallsBack | app/llm_pipelines/edit_map/pipeline.py:74-90 | a heading that slugs to nothing puts `//` in the indexed path; the normaliser turns that allowed citation into `a/b`, which is not allowed, so it falls back to the file |
| EditMap.IndexedTargetNotCanonical | app/llm_pipelines/edit_map/pipeline.py:74-90 | for a document `d` with headings `# a`, `## ()`, `### b`, the listed target `d#a//b` is rewritten to `d#a/b` and falls back to `d` |
| EditMap.SpacedHeadingFallsBack | app/llm_pipelines/edit_map/pipeline.py:74-81 | a heading with a space normalises to its space-free slug, while the index holds the dashed slug |
| EditMap.FixHallucinatedSource | app/llm_pipelines/edit_map/pipeline.py:83-92 | the result is allowed and is the source or its file part; an allowed source is kept; None exactly when neither is allowed |
| EditMap.FixHallucinatedIdempotent | app/llm_pipelines/edit_map/pipeline.py:83-92 | checking a kept source again keeps it unchanged |
| EditMap.KeptSource | app/llm_pipelines/edit_map/pipeline.py:102-105 | at most one kept entry, allowed and non-empty |
| EditMap.KeptSources | app/llm_pipelines/edit_map/pipeline.py:102-105 | no more entries than sources, each allowed and non-empty |
| EditMap.KeptSourcesAppend | app/llm_pipelines/edit_map/pipeline.py:102-105 | sources are kept one by one, in order |
| EditMap.KeptSourceMembers | app/llm_pipelines/edit_map/pipeline.py:102-105 | a source yields x exactly when normalising and checking it gives a non-empty x |
| EditMap.KeptSourcesMembers | app/llm_pipelines/edit_map/pipeline.py:102-105 | x is kept exactly when some source yields it |
| EditMap.NewSources | app/llm_pipelines/edit_map/pipeline.py:100-105 | new sources are None or a non-empty list of allowed, non-empty citations; a missing or empty list gives None |
| EditMap.KeepRelated | app/llm_pipelines/edit_map/pipeline.py:115-120 | definition: an existing title that is not the concept, an ancestor or a descendant |
| EditMap.NewRelated | app/llm_pipelines/edit_map/pipeline.py:107-122 | new related titles are None or a non-empty list, each an existing title other than the concept, its ancestors and its descendants |
| EditMap.ProcessList | app/llm_pipelines/edit_map/pipeline.py:94-96 | a missing or empty list becomes None; otherwise the list keeps its length |
| EditMap.ProcessEach | app/llm_pipelines/edit_map/pipeline.py:98-135 | one processed concept per concept |
| EditMap.ProcessConcept | app/llm_pipelines/edit_map/pipeline.py:124-132 | title and description are copied unchanged |
| EditMap.PreprocessEditedMap | app/llm_pipelines/edit_map/pipeline.py:68-139 | the result is the preprocessed map, with as many top-level concepts as the input |
| EditMap.ContextOf | app/llm_pipelines/edit_map/pipeline.py:69-72 | definition: the title set, the two maps and the allowed set built from the forest |
| EditMap.Preprocessed | app/llm_pipelines/edit_map/pipeline.py:68-139 | definition: the rebuilt top-level list, or empty |
| EditMap.ProcessKeepsSkeletons | app/llm_pipelines/edit_map/pipeline.py:126-132 | titles, descriptions, tree shape and child order are kept; only sources, related titles and an empty sub-list (which becomes None) change |
| EditMap.ProcessKeepsSkeleton | app/llm_pipelines/edit_map/pipeline.py:126-132 | the same, for one concept |
| EditMap.ProcessKeepsSkeletonList | app/llm_pipelines/edit_map/pipeline.py:124 | the same, for an optional sub-list |
| EditMap.ProcessKeepsTitles | app/llm_pipelines/edit_map/pipeline.py:94-135 | all titles are kept, in pre-order |
| EditMap.ProcessKeepsTitlesBelow | app/llm_pipelines/edit_map/pipeline.py:124-132 | the titles below a concept are kept |
| EditMap.ProcessEachAt | app/llm_pipelines/edit_map/pipeline.py:98-133 | the i-th output is the i-th input processed |
| EditMap.ProcessedOrigin | app/llm_pipelines/edit_map/pipeline.py:94-135 | every output node is some input node processed |
| EditMap.ProcessedImage | app/llm_pipelines/edit_map/pipeline.py:94-135 | every input node, processed, is in the output |
| EditMap.PreprocessedNode | app/llm_pipelines/edit_map/pipeline.py:100-124 | at every depth: sources are None or non-empty allowed citations, related is None or non-empty, and sub-lists are never empty |
| EditMap.RelatedRespectsHierarchy | app/llm_pipelines/edit_map/pipeline.py:107-122 | with distinct titles, kept related titles are a subsequence of the original, each an existing title that is not the concept, a descendant or an ancestor |
| EditMap.PreprocessedEmpty | app/llm_pipelines/edit_map/pipeline.py:137-139 | the result is empty exactly when the input is |
| EditMap.PreprocessedShape | app/llm_pipelines/edit_map/pipeline.py:126-139 | the result has the input's shape and titles |
| EditMap.ProcessKeepsParentWrites | app/llm_pipelines/edit_map/pipeline.py:30-38 | the rebuilt forest makes the same `parents_map` writes |
| EditMap.ProcessKeepsChildWrites | app/llm_pipelines/edit_map/pipeline.py:47-62 | the rebuilt forest makes the same `children_map` writes |
| EditMap.ProcessKeepsContext | app/llm_pipelines/edit_map/pipeline.py:68-72 | a second run over the rebuilt forest builds the same titles, parents map and children map |
| EditMap.KeptSourcesFixed | app/llm_pipelines/edit_map/pipeline.py:100-105 | sources that are allowed, non-empty and already normalised all survive, in order |
| EditMap.ProcessEachTwice | app/llm_pipelines/edit_map/pipeline.py:94-135 | with the same context and normalised allowed citations, rebuilding twice is rebuilding once |
| EditMap.PreprocessedIdempotent | app/llm_pipelines/edit_map/pipeline.py:68-139 | when every allowed citation is already normalised, preprocessing a preprocessed map changes nothing |
| EditMap.SourcesCiteMaterial | app/llm_pipelines/edit_map/pipeline.py:100-105 | with the material's allowed sources, every kept source names a document or a leaf heading of one |
| Hierarchy.Flatten | app/llm_pipelines/build_map/pipeline.py:56-66 | definition: a name yields itself; a list yields its items in turn; a dict yields each key and then its value |
| Hierarchy.FlattenItems | app/llm_pipelines/build_map/pipeline.py:58-60 | definition: the flattening of each item, in order |
| Hierarchy.FlattenEntries | app/llm_pipelines/build_map/pipeline.py:61-64 | definition: each key followed by the flattening of its value, in order |
| Hierarchy.FlattenItemsAppend | app/llm_pipelines/build_map/pipeline.py:58-60 | a split list flattens to the two flattenings, in order |
| Hierarchy.FlattenEntriesAppend | app/llm_pipelines/build_map/pipeline.py:61-64 | a split dict flattens to the two flattenings, in order |
| Hierarchy.FlattenCounts | app/llm_pipelines/build_map/pipeline.py:56-66 | the flattening holds each dict key and each string leaf as often as it occurs, and nothing else |
| Hierarchy.FlattenItemsCounts | app/llm_pipelines/build_map/pipeline.py:58-60 | the same, for a list |
| Hierarchy.FlattenEntriesCounts | app/llm_pipelines/build_map/pipeline.py:61-64 | the same, for a dict |
| Hierarchy.FlattenMembers | app/llm_pipelines/build_map/pipeline.py:56-66 | a name is yielded exactly when it is a key or a leaf |
| Hierarchy.AllowedPrerequisitePairs | app/llm_pipelines/build_map/pipeline.py:152-154 | one entry per name, holding every other name and never the name itself |
| Hierarchy.PrerequisitePairsOfHierarchy | app/llm_pipelines/build_map/pipeline.py:150-154 | a is paired with b exactly when they differ and both are names of the hierarchy |
| Hierarchy.PrerequisitePairsSymmetric | app/llm_pipelines/build_map/pipeline.py:152-154 | pairing is symmetric and pairs exactly distinct names |
| RoadmapLogic.Roadmap.constructor | app/logic.py:171-177 | the record holds the given fields |
| RoadmapLogic.InferLevelFromText | app/logic.py:124-135 | intermediate exactly when an intermediate or CTE keyword occurs in the lower-cased first 5000 characters; advanced exactly when only an advanced keyword does; beginner otherwise |
| RoadmapLogic.LevelWindow | app/logic.py:125 | definition: the lower-cased first 5000 characters of the space-joined texts |
| RoadmapLogic.InferLevelIgnoresTail | app/logic.py:125 | text after the first 5000 characters does not change the level |
| RoadmapLogic.TotalHoursAppend | app/logic.py:170 | the total of two lists is the sum of their totals |
| RoadmapLogic.SumHours | app/logic.py:170 | the loop computes the total hours |
| RoadmapLogic.TotalHours | app/logic.py:170 | definition: the sum of the milestones' hours |
| RoadmapLogic.TotalHoursPointwise | app/logic.py:170 | lists with equal hours have equal totals |
| RoadmapLogic.TotalHoursUpdate | app/logic.py:170 | replacing one milestone changes the total by the difference in hours |
| RoadmapLogic.RoundHalfEven | app/logic.py:261 | the nearest integer to the ratio, ties to even |
| RoadmapLogic.RoundRatio | app/logic.py:258-261 | `round(h * target / current)` for either sign of the divisor: nearest, ties to even |
| RoadmapLogic.Scaled | app/logic.py:254-264 | a zero total leaves the milestones unchanged; otherwise only hours change, each is at least 1, and each is 1 or the rounded share of the target |
| RoadmapLogic.ScaleHours | app/logic.py:254-264 | the roadmap's milestones become the scaled ones; the total field and the other fields are untouched |
| RoadmapLogic.Prioritised | app/logic.py:164-168 | hours raised to at least 6 and a `priority` tag appended only when missing; nothing else changes |
| RoadmapLogic.Apply | app/logic.py:143-248 | no edit changes a milestone's id, title, summary or topics |
| RoadmapLogic.EditEach | app/logic.py:144-168 | the loop applies the edit to every milestone |
| RoadmapLogic.ApplyAllKeepsMilestones | app/logic.py:143-248 | every edit keeps the milestones and only appends resources |
| RoadmapLogic.PostgresDocsUrl | app/logic.py:197 | the PostgreSQL docs url contains `postgresql` |
| RoadmapLogic.MySqlDocsUrl | app/logic.py:208 | the MySQL docs url contains `mysql` |
| RoadmapLogic.PostgresDocsOnce | app/logic.py:190-200 | the docs link is appended exactly to the index and window milestones that have no PostgreSQL url; afterwards they have one; applying twice is applying once |
| RoadmapLogic.MySqlDocsOnce | app/logic.py:201-211 | the same for the MySQL link and the index milestone |
| RoadmapLogic.AnalyticsPriority | app/logic.py:243-248 | analytics and window milestones get at least 6 hours and at least one `priority` tag, with none added if one is there; resources and other milestones are unchanged; applying twice is applying once |
| RoadmapLogic.ApplyTextHints | app/logic.py:143-168 | the three loops compute the generated milestones from the base list |
| RoadmapLogic.GenerateFrom | app/logic.py:142-168 | definition: the PostgreSQL, MySQL and analytics passes, in that order, each applied only under its hint |
| RoadmapLogic.GeneratedMilestones | app/logic.py:140-168 | definition: those passes over the default milestones with the hints of the texts |
| RoadmapLogic.GenerateSqlRoadmap | app/logic.py:138-177 | title and notes as given, level inferred, milestones generated from the untouched defaults, total is their sum |
| RoadmapLogic.ResourceEditsKeepRest | app/logic.py:143-162 | the resource edits only extend resources |
| RoadmapLogic.ResourcePasses | app/logic.py:143-162 | after both resource passes, each milestone differs only by extended resources |
| RoadmapLogic.GenerateFromKeeps | app/logic.py:143-168 | each generated milestone keeps id, title, summary and topics, extends resources, and changes hours and tags only for the window milestone under an analytics hint |
| RoadmapLogic.GenerateFromAnalytics | app/logic.py:163-168 | under an analytics hint the window milestone has at least 6 hours and a `priority` tag, with no duplicate added |
| RoadmapLogic.RaisedTotal | app/logic.py:166-170 | raising the one window milestone raises the total by exactly its increase |
| RoadmapLogic.GeneratedKeepsDefaults | app/logic.py:140-168 | a generated roadmap has the eight default milestones, in order, with their resources extended |
| RoadmapLogic.BasicTotal | app/logic.py:8-121 | the defaults total 42 hours |
| RoadmapLogic.GeneratedAnalytics | app/logic.py:163-168 | an analytics hint gives the window milestone at least 6 hours and one `priority` tag |
| RoadmapLogic.GeneratedTotal | app/logic.py:163-170 | the generated total is 43 with an analytics hint and 42 without |
| RoadmapLogic.GenerateFromIndexResources | app/logic.py:143-162 | the index milestone gains the EXPLAIN link for PostgreSQL and then the optimizer link for MySQL |
| RoadmapLogic.GeneratedIndexResources | app/logic.py:140-162 | every call's index milestone holds the default resources plus only that call's hint links |
| RoadmapLogic.SharedDefaults.constructor | app/logic.py:8 | the shared list starts as the defaults |
| RoadmapLogic.SharedDefaults.Generate | app/logic.py:138-177 | as written: the edits land in the shared defaults, which the roadmap returns; its title is `SQL Roadmap` and its notes the generated-notes text |
| RoadmapLogic.SecondCallRepeatsExplain | app/logic.py:140-152 | as written, a second PostgreSQL call gives the index milestone the EXPLAIN link twice |
| RoadmapLogic.PromptLevel | app/logic.py:183-188 | beginner keywords win over advanced ones, which win over intermediate ones; without any the level is kept |
| RoadmapLogic.RewriteLevel | app/logic.py:183-188 | the level branch sets the prompt's level; milestones, total, title and notes are unchanged |
| RoadmapLogic.EditWhen | app/logic.py:190-248 | a conditional loop edits every milestone exactly when its condition holds; level, total, title and notes are unchanged |
| RoadmapLogic.RescaleForBudget | app/logic.py:213-221 | weeks win over hours: rescale to 7 hours per week, else to the hours, else keep; level, total, title and notes are unchanged |
| RoadmapLogic.ScaleTarget | app/logic.py:213-221 | definition: seven hours per week when weeks are given, else the hours, else none |
| RoadmapLogic.ScaledTo | app/logic.py:215-221 | definition: the milestones scaled to the target, or unchanged without one |
| RoadmapLogic.RemovalKeywords | app/logic.py:234-236 | definition: the stripped, lower-cased captures |
| RoadmapLogic.KeepsMilestone | app/logic.py:240 | definition: no keyword occurs in the lower-cased title or summary |
| RoadmapLogic.RemoveMilestones | app/logic.py:234-241 | definition: without captures the list is kept; otherwise the milestones that keep, in order |
| RoadmapLogic.RemovalExact | app/logic.py:234-241 | a milestone survives exactly when no stripped, lower-cased capture occurs in its lower-cased title or summary; order is kept; no capture removes nothing |
| RoadmapLogic.BlankRemovalEmptiesRoadmap | app/logic.py:234-241 | a capture of only whitespace removes every milestone |
| RoadmapLogic.RemoveByKeywords | app/logic.py:234-241 | the removal branch keeps exactly the surviving milestones; level, total, title and notes are unchanged |
| RoadmapLogic.AnalyticsFloorAll | app/logic.py:243-248 | after the analytics pass every analytics or window milestone has at least 6 hours and a `priority` tag |
| RoadmapLogic.RewriteAnalyticsFloor | app/logic.py:243-248 | after an analytics prompt, every remaining analytics or window milestone has at least 6 hours and a `priority` tag |
| RoadmapLogic.RewrittenMilestones | app/logic.py:190-248 | definition: the milestones after every step of the rewrite, in the source's order |
| RoadmapLogic.RewriteRoadmapWithPrompt | app/logic.py:180-251 | the roadmap's level and milestones become those the prompt asks for, step by step; the total is the sum of the new hours; title and notes are kept |

## Left out

- The LLM calls are not modelled because they need the network and a model: the pipeline classes `EditMapPipeline.edit`, `BuildMapPipeline._build_hierarchy`, `_link_related` and `build`, and the prompts.
- The `Roadmap`, `Milestone` and `Resource` records come from a models module that is not part of this model. Minimal records with the fields the code uses are declared instead.
- `Milestone` and `Resource` are values. `Roadmap` is a class.
- The rewrite's in-place appends reach objects shared with the default list; that aliasing is not modelled. The generator's aliasing is modelled separately; see Findings.
- HeaderIndex.ParseHeading: the regex is applied line by line. A `\s+` that runs across a newline, taking the heading text from the next line, is not modelled.
- Text.Lower: lower-casing covers ASCII and the Cyrillic capitals U+0400..U+042F only. Whitespace is the six ASCII whitespace characters. No other Unicode case mapping is modelled.
- RoadmapLogic.RoundRatio: models Python's `round` of the float quotient as exact round-half-even on rationals; float rounding error is not modelled.
- RoadmapLogic.RewriteRoadmapWithPrompt: the weeks, hours and removal regular expressions are not modelled. Their captures are parameters: the weeks and hours numbers as optional naturals, the removal captures as strings.
- RoadmapLogic.GenerateSqlRoadmap: models each call starting from untouched defaults, the evidently intended behaviour. The code as written is modelled by RoadmapLogic.SharedDefaults.Generate (see Findings).
- EditMap.ParentsMapChild, EditMap.ParentsMapRoot, EditMap.ChildrenMapDescendants, EditMap.AncestorInParents and EditMap.RelatedRespectsHierarchy assume distinct titles. With repeated titles the dict keeps the last write; the write-order functions model that, but no lemma describes the result.
- EditMap.FixHallucinatedIdempotent: states that checking a kept source again keeps it. Idempotence of the whole normaliser holds when every allowed citation is a fixed point of the source-name normalisation (EditMap.PreprocessedIdempotent). EditMap.EmptySlugFallsBack shows an indexed citation that is not such a fixed point. This is modelled as written.
- EditMap.SpacedHeadingFallsBack: heading slugs in the index keep `-` for spaces, while the normaliser drops spaces. A cited heading that contains a space therefore does not match and falls back to its file. This is modelled as written.
- Pydantic validation and `model_copy` are reduced to datatype updates.

## Findings

| source | as written | input that shows it | evidently intended | confidence | as-written member | corrected member |
|---|---|---|---|---|---|---|
| app/logic.py:140-168 | `list(BASIC_MILESTONES)` copies only the list. The resource appends, hour raises and tag appends change the shared default milestones, so they accumulate from call to call. | two calls to `generate_sql_roadmap` with text `postgres`: the second roadmap's index milestone lists the EXPLAIN link twice | every call starts from the untouched defaults and adds only its own hint links | not executed | RoadmapLogic.SecondCallRepeatsExplain | RoadmapLogic.GeneratedIndexResources |
