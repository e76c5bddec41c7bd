/**
 * The citation-target indexer (app/llm_pipelines/utils.py): markdown headings
 * are turned into slugs, a stack of open headings is kept truncated to each
 * heading's level, and every leaf heading contributes the `/`-joined path of
 * that stack. A document contributes its own id and `id#path` for each leaf.
 */
module HeaderIndex {
  import opened Wrappers
  import opened Text
  import opened Seqs

  /** Heading levels the pattern `#{1,6}` admits. */
  type Level = l: int | 1 <= l <= 6 witness 1

  /** A heading line: its level (number of `#`) and its text, stripped and
      with spaces replaced by `-`. */
  datatype Heading = Heading(level: Level, text: string)

  /** A document: its id (the key of the material dict) and its text. */
  type Document = (string, string)

  /** The characters `format_header` deletes. */
  predicate IsSlugBreaker(c: char) {
    c == ' ' || c == '(' || c == ')'
  }

  /** `format_header`: delete spaces, then `(`, then `)`. */
  function FormatHeader(header: string): (slug: string)
    ensures forall i :: 0 <= i < |slug| ==> !IsSlugBreaker(slug[i])
    ensures |slug| <= |header|
    ensures forall c :: c in slug ==> c in header
  {
    var noSpace := Delete(header, ' ');
    var noOpen := Delete(noSpace, '(');
    assert forall c :: c in noOpen ==> c in noSpace;
    Delete(noOpen, ')')
  }

  /** A string is its own slug exactly when it holds none of the deleted
      characters. */
  lemma FormatHeaderFixedPoint(header: string)
    ensures FormatHeader(header) == header <==> forall i :: 0 <= i < |header| ==> !IsSlugBreaker(header[i])
  {
    if forall i :: 0 <= i < |header| ==> !IsSlugBreaker(header[i]) {
      DeleteAbsent(header, ' ');
      DeleteAbsent(header, '(');
      DeleteAbsent(header, ')');
    }
  }

  lemma FormatHeaderIdempotent(header: string)
    ensures FormatHeader(FormatHeader(header)) == FormatHeader(header)
  {
    FormatHeaderFixedPoint(FormatHeader(header));
  }

  /** `format_header` keeps every character it does not delete, as often as
      it occurs. */
  lemma FormatHeaderCount(header: string, c: char)
    requires !IsSlugBreaker(c)
    ensures multiset(FormatHeader(header))[c] == multiset(header)[c]
  {
    DeleteCount(header, ' ', c);
    DeleteCount(Delete(header, ' '), '(', c);
    DeleteCount(Delete(Delete(header, ' '), '('), ')', c);
  }

  /** Number of `#` characters a line starts with. */
  function HashRun(line: string): (n: nat)
    ensures n <= |line|
    ensures forall i :: 0 <= i < n ==> line[i] == '#'
    ensures n < |line| ==> line[n] != '#'
  {
    if line != [] && line[0] == '#' then 1 + HashRun(line[1..]) else 0
  }

  /** One line matched against `^(#{1,6})\s+(.*)`: a run of one to six `#`
      followed by whitespace; the text is the rest of the line, stripped,
      with spaces replaced by `-`. */
  function ParseHeading(line: string): (h: Option<Heading>)
    ensures h.Some? <==> 1 <= HashRun(line) <= 6 && HashRun(line) < |line| && IsSpace(line[HashRun(line)])
    ensures h.Some? ==> h.value.level == HashRun(line) && ' ' !in h.value.text
  {
    var n := HashRun(line);
    if 1 <= n <= 6 && n < |line| && IsSpace(line[n]) then
      Some(Heading(n, ReplaceChar(Strip(line[n..]), ' ', '-')))
    else
      None
  }

  /** The headings among `lines`, in order. */
  function HeadingsOf(lines: seq<string>): (hs: seq<Heading>)
    ensures |hs| <= |lines|
  {
    if lines == [] then []
    else
      HeadingsOf(lines[..|lines| - 1]) +
      match ParseHeading(lines[|lines| - 1])
      case Some(h) => [h]
      case None => []
  }

  /** The headings of a markdown text (the pattern is anchored at line starts). */
  function Headings(text: string): seq<Heading> {
    HeadingsOf(Split(text, '\n'))
  }

  /** A text has no headings exactly when none of its lines is a heading line. */
  lemma {:induction false} NoHeadingLines(lines: seq<string>)
    ensures HeadingsOf(lines) == [] <==> forall k :: 0 <= k < |lines| ==> ParseHeading(lines[k]).None?
  {
    if lines != [] {
      var init := lines[..|lines| - 1];
      NoHeadingLines(init);
      assert forall k :: 0 <= k < |init| ==> init[k] == lines[k];
    }
  }

  /** The stack of heading texts after the first `n` headings: each heading
      first cuts the stack to fewer than its level entries, then is pushed. */
  function StackAfter(hs: seq<Heading>, n: nat): (stack: seq<string>)
    requires n <= |hs|
    ensures n > 0 ==> 1 <= |stack| <= hs[n - 1].level && stack[|stack| - 1] == hs[n - 1].text
  {
    if n == 0 then []
    else
      var prev := StackAfter(hs, n - 1);
      var keep := if |prev| < hs[n - 1].level then |prev| else hs[n - 1].level - 1;
      prev[..keep] + [hs[n - 1].text]
  }

  /** A heading is a leaf when it is the last one or the next one is not deeper. */
  predicate IsLeaf(hs: seq<Heading>, i: nat)
    requires i < |hs|
  {
    i == |hs| - 1 || hs[i + 1].level <= hs[i].level
  }

  /** `map(format_header, path)`. */
  function Slugs(path: seq<string>): (segments: seq<string>)
    ensures |segments| == |path|
    ensures forall i :: 0 <= i < |path| ==> segments[i] == FormatHeader(path[i])
  {
    seq(|path|, i requires 0 <= i < |path| => FormatHeader(path[i]))
  }

  /** `'/'.join(map(format_header, path))`. */
  function PathString(path: seq<string>): string {
    Join("/", Slugs(path))
  }

  /** Positions of the leaf headings among the first `n`, in increasing order. */
  function LeafIndices(hs: seq<Heading>, n: nat): (idx: seq<nat>)
    requires n <= |hs|
    ensures forall j :: 0 <= j < |idx| ==> idx[j] < n && IsLeaf(hs, idx[j])
  {
    if n == 0 then []
    else LeafIndices(hs, n - 1) + (if IsLeaf(hs, n - 1) then [n - 1] else [])
  }

  /** The paths of the headings at positions `idx`. */
  function PathsAt(hs: seq<Heading>, idx: seq<nat>): (paths: seq<string>)
    requires forall j :: 0 <= j < |idx| ==> idx[j] < |hs|
    ensures |paths| == |idx|
    ensures forall j :: 0 <= j < |idx| ==> paths[j] == PathString(StackAfter(hs, idx[j] + 1))
  {
    seq(|idx|, j requires 0 <= j < |idx| => PathString(StackAfter(hs, idx[j] + 1)))
  }

  /** What the indexer emits for a list of headings: the path of every leaf,
      in heading order. */
  function LeafPaths(hs: seq<Heading>): seq<string> {
    PathsAt(hs, LeafIndices(hs, |hs|))
  }

  /** Exactly the leaves are emitted, each once, in order. */
  lemma {:induction false} LeafIndicesExact(hs: seq<Heading>, n: nat)
    requires n <= |hs|
    ensures forall i: nat :: i in LeafIndices(hs, n) <==> i < n && IsLeaf(hs, i)
    ensures forall j, k :: 0 <= j < k < |LeafIndices(hs, n)| ==> LeafIndices(hs, n)[j] < LeafIndices(hs, n)[k]
    ensures |LeafIndices(hs, n)| <= n
  {
    if n > 0 {
      LeafIndicesExact(hs, n - 1);
    }
  }

  /** The last heading is always a leaf, and its path is emitted last. */
  lemma LastHeadingEmitted(hs: seq<Heading>)
    requires hs != []
    ensures LeafPaths(hs) != []
    ensures LeafPaths(hs)[|LeafPaths(hs)| - 1] == PathString(StackAfter(hs, |hs|))
  {
    var idx := LeafIndices(hs, |hs|);
    assert IsLeaf(hs, |hs| - 1);
    assert idx == LeafIndices(hs, |hs| - 1) + [|hs| - 1];
  }

  /** With at least one heading, between one and that many paths are emitted. */
  lemma LeafPathCount(hs: seq<Heading>)
    requires hs != []
    ensures 1 <= |LeafPaths(hs)| <= |hs|
  {
    LeafIndicesExact(hs, |hs|);
    LastHeadingEmitted(hs);
  }

  /** Each emitted path belongs to a leaf, has at most as many segments as that
      heading's level, and ends with that heading's slug. */
  lemma LeafPathShape(hs: seq<Heading>, j: nat)
    requires j < |LeafPaths(hs)|
    ensures var i := LeafIndices(hs, |hs|)[j];
            var segments := Slugs(StackAfter(hs, i + 1));
            && IsLeaf(hs, i)
            && LeafPaths(hs)[j] == Join("/", segments)
            && 1 <= |segments| <= hs[i].level
            && segments[|segments| - 1] == FormatHeader(hs[i].text)
  {
    LeafPathOf(hs, j);
    SlugsOfStack(hs, LeafIndices(hs, |hs|)[j]);
  }

  lemma LeafPathOf(hs: seq<Heading>, j: nat)
    requires j < |LeafPaths(hs)|
    ensures var i := LeafIndices(hs, |hs|)[j];
            i < |hs| && IsLeaf(hs, i) && LeafPaths(hs)[j] == PathString(StackAfter(hs, i + 1))
  {
  }

  lemma SlugsOfStack(hs: seq<Heading>, i: nat)
    requires i < |hs|
    ensures var segments := Slugs(StackAfter(hs, i + 1));
            1 <= |segments| <= hs[i].level && segments[|segments| - 1] == FormatHeader(hs[i].text)
  {
    var stack := StackAfter(hs, i + 1);
    assert stack[|stack| - 1] == hs[i].text;
  }

  lemma {:induction false} HeadingsOfAppend(a: seq<string>, b: seq<string>)
    ensures HeadingsOf(a + b) == HeadingsOf(a) + HeadingsOf(b)
  {
    if b != [] {
      var n := |b| - 1;
      assert (a + b)[..|a + b| - 1] == a + b[..n];
      assert (a + b)[|a + b| - 1] == b[n];
      HeadingsOfAppend(a, b[..n]);
    } else {
      assert a + b == a;
    }
  }

  /** The headings of two texts joined by a newline are the headings of the
      first followed by those of the second. */
  lemma HeadingsAppend(x: string, y: string)
    ensures Headings(x + "\n" + y) == Headings(x) + Headings(y)
  {
    SplitAppend(x, '\n', y);
    HeadingsOfAppend(Split(x, '\n'), Split(y, '\n'));
  }

  lemma ThreeHeadingLeaves(hs: seq<Heading>)
    requires |hs| == 3 && hs[0].level == 1 && hs[1].level == 2 && hs[2].level == 1
    ensures LeafIndices(hs, 3) == [1, 2]
  {
    assert !IsLeaf(hs, 0) && IsLeaf(hs, 1) && IsLeaf(hs, 2);
    assert LeafIndices(hs, 1) == [];
    assert LeafIndices(hs, 2) == [1];
  }

  lemma ThreeHeadingStacks(hs: seq<Heading>)
    requires |hs| == 3 && hs[0].level == 1 && hs[1].level == 2 && hs[2].level == 1
    ensures StackAfter(hs, 2) == [hs[0].text, hs[1].text]
    ensures StackAfter(hs, 3) == [hs[2].text]
  {
    assert StackAfter(hs, 1) == [hs[0].text];
  }

  /** Headings at levels 1, 2, 3 give one path, through all three. */
  lemma NestedHeadingPath(a: string, t: string, b: string)
    ensures LeafPaths([Heading(1, a), Heading(2, t), Heading(3, b)]) == [PathString([a, t, b])]
  {
    var hs := [Heading(1, a), Heading(2, t), Heading(3, b)];
    assert !IsLeaf(hs, 0) && !IsLeaf(hs, 1) && IsLeaf(hs, 2);
    assert LeafIndices(hs, 2) == [];
    assert LeafIndices(hs, 3) == [2];
    assert StackAfter(hs, 1) == [a];
    assert StackAfter(hs, 2) == [a, t];
    assert StackAfter(hs, 3) == [a, t, b];
  }

  lemma TwoSegmentPath(a: string, b: string)
    ensures PathString([a, b]) == FormatHeader(a) + "/" + FormatHeader(b)
  {
    assert Slugs([a, b]) == [FormatHeader(a), FormatHeader(b)];
    assert Join("/", [FormatHeader(b)]) == FormatHeader(b);
  }

  lemma OneSegmentPath(c: string)
    ensures PathString([c]) == FormatHeader(c)
  {
    assert Slugs([c]) == [FormatHeader(c)];
  }

  lemma ThreeHeadingPathsOf(hs: seq<Heading>)
    requires |hs| == 3 && hs[0].level == 1 && hs[1].level == 2 && hs[2].level == 1
    ensures LeafPaths(hs) == [PathString([hs[0].text, hs[1].text]), PathString([hs[2].text])]
  {
    ThreeHeadingLeaves(hs);
    ThreeHeadingStacks(hs);
    PathsAtTwo(hs, 1, 2);
  }

  lemma PathsAtTwo(hs: seq<Heading>, i: nat, j: nat)
    requires i < |hs| && j < |hs|
    ensures PathsAt(hs, [i, j]) == [PathString(StackAfter(hs, i + 1)), PathString(StackAfter(hs, j + 1))]
  {
    var paths := PathsAt(hs, [i, j]);
    assert paths == [paths[0], paths[1]];
  }

  /** Headings at levels 1, 2, 1 give two paths: the second heading under the
      first, then the third alone; the first has a deeper successor and is
      not emitted on its own. */
  lemma ThreeHeadingPaths(a: string, b: string, c: string)
    ensures LeafPaths([Heading(1, a), Heading(2, b), Heading(1, c)]) ==
      [FormatHeader(a) + "/" + FormatHeader(b), FormatHeader(c)]
  {
    ThreeHeadingPathsOf([Heading(1, a), Heading(2, b), Heading(1, c)]);
    TwoSegmentPath(a, b);
    OneSegmentPath(c);
  }

  lemma HeadingsOfStep(lines: seq<string>, k: nat)
    requires k < |lines|
    ensures HeadingsOf(lines[..k + 1]) ==
      HeadingsOf(lines[..k]) + match ParseHeading(lines[k]) case Some(h) => [h] case None => []
  {
    assert lines[..k + 1][..k] == lines[..k];
  }

  lemma PathsAtStep(hs: seq<Heading>, i: nat)
    requires i < |hs|
    ensures PathsAt(hs, LeafIndices(hs, i + 1)) ==
      PathsAt(hs, LeafIndices(hs, i)) + if IsLeaf(hs, i) then [PathString(StackAfter(hs, i + 1))] else []
  {
  }

  /** Popping while the stack holds at least `level` entries, then pushing,
      gives the next stack. */
  lemma StackStep(hs: seq<Heading>, i: nat, popped: seq<string>)
    requires i < |hs|
    requires |popped| <= |StackAfter(hs, i)| && popped == StackAfter(hs, i)[..|popped|]
    requires |popped| < hs[i].level
    requires |popped| >= hs[i].level - 1 || |popped| == |StackAfter(hs, i)|
    ensures popped + [hs[i].text] == StackAfter(hs, i + 1)
  {
  }

  /** The first half of `get_markdown_header_paths`: every line of the text
      that matches the heading pattern, in order. */
  method CollectHeadings(markdownText: string) returns (headers: seq<Heading>)
    ensures headers == Headings(markdownText)
  {
    var lines := Split(markdownText, '\n');
    headers := [];
    for k := 0 to |lines|
      invariant headers == HeadingsOf(lines[..k])
    {
      HeadingsOfStep(lines, k);
      match ParseHeading(lines[k]) {
        case Some(h) => headers := headers + [h];
        case None =>
      }
    }
    assert lines[..|lines|] == lines;
  }

  /** Pops the stack while it holds at least `level` entries. */
  method PopToLevel(path: seq<string>, level: Level) returns (kept: seq<string>)
    ensures |kept| <= |path| && kept == path[..|kept|]
    ensures |kept| < level
    ensures |kept| >= level - 1 || kept == path
  {
    kept := path;
    while |kept| >= level
      invariant |kept| <= |path| && kept == path[..|kept|]
      invariant |kept| >= level - 1 || kept == path
      decreases |kept|
    {
      kept := kept[..|kept| - 1];
    }
  }

  /** `get_markdown_header_paths`: collect the headings, then walk them with
      a stack of open heading texts, emitting the path of every leaf. */
  method GetMarkdownHeaderPaths(markdownText: string) returns (resultPaths: seq<string>)
    ensures resultPaths == LeafPaths(Headings(markdownText))
  {
    var headers := CollectHeadings(markdownText);
    if headers == [] {
      return [];
    }

    resultPaths := [];
    var currentPath: seq<string> := [];
    for i := 0 to |headers|
      invariant currentPath == StackAfter(headers, i)
      invariant resultPaths == PathsAt(headers, LeafIndices(headers, i))
    {
      var level := headers[i].level;
      var text := headers[i].text;
      currentPath := PopToLevel(currentPath, level);
      StackStep(headers, i, currentPath);
      currentPath := currentPath + [text];

      var isLastHeader := i == |headers| - 1;
      var isLeaf := isLastHeader || headers[i + 1].level <= level;
      PathsAtStep(headers, i);
      if isLeaf {
        resultPaths := resultPaths + [PathString(currentPath)];
      }
    }
  }

  /** Every document id, in order. */
  function DocIds(material: seq<Document>): (ids: seq<string>)
    ensures |ids| == |material|
    ensures forall d :: 0 <= d < |material| ==> ids[d] == material[d].0
  {
    seq(|material|, d requires 0 <= d < |material| => material[d].0)
  }

  /** `f'{name}#{path}'` for each path. */
  function Citations(name: string, paths: seq<string>): (cites: seq<string>)
    ensures |cites| == |paths|
    ensures forall k :: 0 <= k < |paths| ==> cites[k] == name + "#" + paths[k]
  {
    seq(|paths|, k requires 0 <= k < |paths| => name + "#" + paths[k])
  }

  /** The heading-scoped targets of one document: `name#path` for each of
      its leaf paths. */
  function DocTargets(doc: Document): seq<string> {
    Citations(doc.0, LeafPaths(Headings(doc.1)))
  }

  /** The heading-scoped citation targets of the documents, document by
      document. */
  function HeadingCitations(material: seq<Document>): seq<string> {
    if material == [] then []
    else HeadingCitations(material[..|material| - 1]) + DocTargets(material[|material| - 1])
  }

  /** Total number of leaf paths over all documents. */
  function LeafPathTotal(material: seq<Document>): nat {
    if material == [] then 0
    else LeafPathTotal(material[..|material| - 1]) + |LeafPaths(Headings(material[|material| - 1].1))|
  }

  /** `s` is the document's id, `#` and one of its leaf paths. */
  predicate CitesHeading(doc: Document, s: string) {
    exists p :: p in LeafPaths(Headings(doc.1)) && s == doc.0 + "#" + p
  }

  /** A string is a citation target of the material: a document id, or a
      document id, `#` and one of that document's leaf paths. */
  predicate IsCitationTarget(material: seq<Document>, s: string) {
    || (exists d :: 0 <= d < |material| && s == material[d].0)
    || (exists d :: 0 <= d < |material| && CitesHeading(material[d], s))
  }

  lemma HeadingCitationsStep(material: seq<Document>, d: nat)
    requires d < |material|
    ensures HeadingCitations(material[..d + 1]) == HeadingCitations(material[..d]) + DocTargets(material[d])
  {
    assert material[..d + 1][..d] == material[..d];
  }

  lemma CitationsStep(name: string, paths: seq<string>, k: nat)
    requires k < |paths|
    ensures Citations(name, paths[..k + 1]) == Citations(name, paths[..k]) + [name + "#" + paths[k]]
  {
  }

  /** The inner loop of `get_allowed_sources`: append `name#path` for each
      path. */
  method AppendCitations(values: seq<string>, name: string, headerPaths: seq<string>) returns (r: seq<string>)
    ensures r == values + Citations(name, headerPaths)
  {
    r := values;
    for k := 0 to |headerPaths|
      invariant r == values + Citations(name, headerPaths[..k])
    {
      CitationsStep(name, headerPaths, k);
      r := r + [name + "#" + headerPaths[k]];
    }
    assert headerPaths[..|headerPaths|] == headerPaths;
  }

  /** `get_allowed_sources`: all document ids, then each document's
      heading-scoped targets. */
  method GetAllowedSources(material: seq<Document>) returns (values: seq<string>)
    ensures values == DocIds(material) + HeadingCitations(material)
  {
    values := DocIds(material);
    for d := 0 to |material|
      invariant values == DocIds(material) + HeadingCitations(material[..d])
    {
      values := AppendDocTargets(values, material[d]);
      HeadingCitationsStep(material, d);
      AppendAssoc(DocIds(material), HeadingCitations(material[..d]), DocTargets(material[d]));
    }
    assert material[..|material|] == material;
  }

  /** One round of the outer loop of `get_allowed_sources`: the document's
      header paths, each cited as `name#path`. */
  method AppendDocTargets(values: seq<string>, doc: Document) returns (r: seq<string>)
    ensures r == values + DocTargets(doc)
  {
    var name := doc.0;
    var content := doc.1;
    var headerPaths := GetMarkdownHeaderPaths(content);
    r := AppendCitations(values, name, headerPaths);
  }

  /** The allowed list is as long as the documents plus all their leaf paths. */
  lemma {:induction false} AllowedSourcesLength(material: seq<Document>)
    ensures |DocIds(material) + HeadingCitations(material)| == |material| + LeafPathTotal(material)
  {
    if material != [] {
      AllowedSourcesLength(material[..|material| - 1]);
    }
  }

  /** The allowed list holds exactly the citation targets of the material. */
  lemma AllowedSourcesAreTargets(material: seq<Document>, s: string)
    ensures s in DocIds(material) + HeadingCitations(material) <==> IsCitationTarget(material, s)
  {
    if s in DocIds(material) + HeadingCitations(material) {
      AllowedSourcesSound(material, s);
    }
    if IsCitationTarget(material, s) {
      AllowedSourcesComplete(material, s);
    }
  }

  lemma AllowedSourcesSound(material: seq<Document>, s: string)
    requires s in DocIds(material) + HeadingCitations(material)
    ensures IsCitationTarget(material, s)
  {
    var ids := DocIds(material);
    if s in ids {
      var d :| 0 <= d < |material| && ids[d] == s;
      assert s == material[d].0;
    } else {
      HeadingCitationsSound(material, s);
    }
  }

  lemma AllowedSourcesComplete(material: seq<Document>, s: string)
    requires IsCitationTarget(material, s)
    ensures s in DocIds(material) + HeadingCitations(material)
  {
    var ids := DocIds(material);
    if exists d :: 0 <= d < |material| && s == material[d].0 {
      var d :| 0 <= d < |material| && s == material[d].0;
      assert ids[d] == s;
    } else {
      var d :| 0 <= d < |material| && CitesHeading(material[d], s);
      HeadingCitationsComplete(material, d, s);
    }
  }

  /** The citations of a list of paths are exactly `name#p` for its paths. */
  lemma CitationsMembers(name: string, paths: seq<string>, s: string)
    ensures s in Citations(name, paths) <==> exists p :: p in paths && s == name + "#" + p
  {
    var cites := Citations(name, paths);
    if s in cites {
      var k :| 0 <= k < |cites| && cites[k] == s;
      assert paths[k] in paths;
    }
    if exists p :: p in paths && s == name + "#" + p {
      var p :| p in paths && s == name + "#" + p;
      var k :| 0 <= k < |paths| && paths[k] == p;
      assert cites[k] == s;
    }
  }

  /** One document's targets are exactly the strings citing one of its
      headings. */
  lemma DocTargetsMembers(doc: Document, s: string)
    ensures s in DocTargets(doc) <==> CitesHeading(doc, s)
  {
    CitationsMembers(doc.0, LeafPaths(Headings(doc.1)), s);
  }

  /** Every heading-scoped target cites a heading of some document. */
  lemma {:induction false} HeadingCitationsSound(material: seq<Document>, s: string)
    requires s in HeadingCitations(material)
    ensures exists d :: 0 <= d < |material| && CitesHeading(material[d], s)
  {
    var n := |material| - 1;
    var init := material[..n];
    if s in HeadingCitations(init) {
      HeadingCitationsSound(init, s);
      var d :| 0 <= d < |init| && CitesHeading(init[d], s);
      assert material[d] == init[d];
    } else {
      DocTargetsMembers(material[n], s);
    }
  }

  /** Every string citing a heading of some document is a heading-scoped
      target. */
  lemma {:induction false} HeadingCitationsComplete(material: seq<Document>, d: nat, s: string)
    requires d < |material| && CitesHeading(material[d], s)
    ensures s in HeadingCitations(material)
  {
    var n := |material| - 1;
    if d == n {
      DocTargetsMembers(material[n], s);
    } else {
      var init := material[..n];
      assert init[d] == material[d];
      HeadingCitationsComplete(init, d, s);
    }
  }
}
