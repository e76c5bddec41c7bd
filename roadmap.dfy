/**
 * The heuristic SQL roadmap of app/logic.py: a fixed list of eight
 * milestones, a reading level guessed from keywords of the uploaded text,
 * extra resources and an hour floor for PostgreSQL, MySQL and analytics
 * hints, and a rewrite step that follows keywords of a free-text prompt
 * (level, docs, a time budget, extra resources, removals, analytics
 * priority).
 */
module RoadmapLogic {
  import opened Wrappers
  import opened Text
  import opened Seqs

  datatype Resource = Resource(title: string, url: Option<string>, kind: string)

  datatype Milestone = Milestone(
    id: string,
    title: string,
    summary: string,
    topics: seq<string>,
    resources: seq<Resource>,
    estimatedHours: int,
    tags: seq<string>)

  /** The roadmap record; `rewrite_roadmap_with_prompt` updates it in place. */
  class Roadmap {
    var title: string
    var level: string
    var totalEstimatedHours: int
    var milestones: seq<Milestone>
    var notes: string

    constructor (title: string, level: string, totalEstimatedHours: int,
                 milestones: seq<Milestone>, notes: string)
      ensures this.title == title && this.level == level
      ensures this.totalEstimatedHours == totalEstimatedHours
      ensures this.milestones == milestones && this.notes == notes
    {
      this.title := title;
      this.level := level;
      this.totalEstimatedHours := totalEstimatedHours;
      this.milestones := milestones;
      this.notes := notes;
    }
  }

  const BEGINNER: string := "beginner"
  const INTERMEDIATE: string := "intermediate"
  const ADVANCED: string := "advanced"

  const INDEXES_PERF: string := "indexes-perf"
  const WINDOW_FUNCS: string := "window-funcs"
  const PRIORITY: string := "priority"

  const SQL_BASICS: Milestone :=
    Milestone("sql-basics", "Основы SQL и селекты",
      "SELECT, FROM, WHERE, базовые типы данных, NULL.",
      ["SELECT", "FROM", "WHERE", "Типы данных", "NULL", "Операторы сравнения"],
      [Resource("Mode: SQL Tutorial", Some("https://mode.com/sql-tutorial/"), "course")],
      6, ["core"])
  const JOINS_AGG: Milestone :=
    Milestone("joins-agg", "JOIN и агрегации",
      "INNER/LEFT/RIGHT/FULL JOIN, GROUP BY, HAVING.",
      ["JOIN", "GROUP BY", "HAVING", "DISTINCT"],
      [Resource("PostgreSQL docs: SELECT",
        Some("https://www.postgresql.org/docs/current/queries-select.html"), "doc")],
      6, ["core"])
  const SUBQUERIES_CTES: Milestone :=
    Milestone("subqueries-ctes", "Подзапросы и CTE",
      "Подзапросы в SELECT/WHERE, WITH/CTE, рекурсивные CTE.",
      ["Subquery", "CTE", "WITH RECURSIVE"],
      [Resource("CTE Explained", Some("https://www.sqltutorial.org/sql-cte/"), "article")],
      5, ["core"])
  const INDEXES_MILESTONE: Milestone :=
    Milestone(INDEXES_PERF, "Индексы и производительность",
      "Индексы, планы выполнения, оптимизация запросов.",
      ["Indexes", "EXPLAIN/EXPLAIN ANALYZE", "Query Tuning"],
      [Resource("Use The Index, Luke!", Some("https://use-the-index-luke.com/"), "book")],
      6, ["perf"])
  const TRANSACTIONS: Milestone :=
    Milestone("transactions", "Транзакции и блокировки",
      "ACID, уровни изоляции, блокировки, deadlocks.",
      ["ACID", "Isolation Levels", "Locks", "Deadlocks"],
      [Resource("PostgreSQL Concurrency Control",
        Some("https://www.postgresql.org/docs/current/mvcc.html"), "doc")],
      4, ["db-theory"])
  const WINDOW_MILESTONE: Milestone :=
    Milestone(WINDOW_FUNCS, "Оконные функции",
      "OVER, PARTITION BY, ORDER BY, ROW_NUMBER, LAG/LEAD.",
      ["Window Functions", "OVER()", "PARTITION BY", "LAG/LEAD"],
      [Resource("PostgreSQL: Window Functions",
        Some("https://www.postgresql.org/docs/current/functions-window.html"), "doc")],
      5, ["analytics"])
  const DATA_MODELING: Milestone :=
    Milestone("data-modeling", "Моделирование и нормализация",
      "Нормальные формы, денормализация, проектирование схем.",
      ["1NF/2NF/3NF", "Star/Snowflake", "Keys"],
      [Resource("Intro to Data Modeling",
        Some("https://www.kimballgroup.com/data-warehouse-business-intelligence-resources/"),
        "article")],
      4, ["modeling"])
  const PRACTICE: Milestone :=
    Milestone("practice", "Практика и проекты",
      "Практические задачи и мини-проекты.",
      ["LeetSQL", "Kaggle Datasets + SQL", "Toy BI dashboard"],
      [Resource("SQLBolt Exercises", Some("https://sqlbolt.com/"), "exercise")],
      6, ["practice"])

  /** The eight default milestones, in their fixed order. */
  const BASIC_MILESTONES: seq<Milestone> :=
    [SQL_BASICS, JOINS_AGG, SUBQUERIES_CTES, INDEXES_MILESTONE, TRANSACTIONS, WINDOW_MILESTONE,
     DATA_MODELING, PRACTICE]

  const GENERATED_NOTES: string :=
    "Сгенерировано эвристиками на основе загруженных файлов (если были)."

  const PG_EXPLAIN: Resource :=
    Resource("PG: EXPLAIN", Some("https://www.postgresql.org/docs/current/using-explain.html"), "doc")
  const MYSQL_OPTIMIZER: Resource :=
    Resource("MySQL Optimizer",
      Some("https://dev.mysql.com/doc/refman/8.0/en/optimizer-statistics.html"), "doc")
  const POSTGRES_DOCS_URL: string := "https://www." + "postgresql" + ".org/docs/current/"
  const POSTGRES_DOCS: Resource := Resource("PostgreSQL Docs", Some(POSTGRES_DOCS_URL), "doc")
  const MYSQL_DOCS_URL: string := "https://dev." + "mysql" + ".com/doc/refman/8.0/en/"
  const MYSQL_DOCS: Resource := Resource("MySQL 8.0 Reference", Some(MYSQL_DOCS_URL), "doc")
  const EXTRA_RESOURCES: seq<Resource> := [
    Resource("SQLZoo", Some("https://sqlzoo.net/"), "exercise"),
    Resource("w3schools SQL", Some("https://www.w3schools.com/sql/"), "doc")
  ]

  /* ---------------------------------------------------------------- */
  /* Reading level of the uploaded text                                */
  /* ---------------------------------------------------------------- */

  const INTERMEDIATE_HINTS: seq<string> :=
    ["window function", "окн", "explain analyze", "индекс", "изоляц"]
  const CTE_HINTS: seq<string> := ["cte", "подзапрос", "recursive"]
  const ADVANCED_HINTS: seq<string> := ["partition", "shard", "mvcc", "deadlock"]

  /** The text the level heuristics look at: the blobs joined by spaces, cut
      to 5000 characters, lower-cased. */
  function LevelWindow(blobs: seq<string>): string {
    Lower(Prefix(Join(" ", blobs), 5000))
  }

  /** `_infer_level_from_text`: intermediate as soon as an intermediate or a
      CTE hint occurs, else advanced when an advanced hint occurs, else
      beginner. */
  function InferLevelFromText(blobs: seq<string>): (level: string)
    ensures var w := LevelWindow(blobs);
            level == INTERMEDIATE <==> ContainsAny(w, INTERMEDIATE_HINTS) || ContainsAny(w, CTE_HINTS)
    ensures var w := LevelWindow(blobs);
            level == ADVANCED <==>
              !ContainsAny(w, INTERMEDIATE_HINTS) && !ContainsAny(w, CTE_HINTS) && ContainsAny(w, ADVANCED_HINTS)
    ensures var w := LevelWindow(blobs);
            level == BEGINNER <==>
              !ContainsAny(w, INTERMEDIATE_HINTS) && !ContainsAny(w, CTE_HINTS) && !ContainsAny(w, ADVANCED_HINTS)
  {
    var text := LevelWindow(blobs);
    if ContainsAny(text, INTERMEDIATE_HINTS) then INTERMEDIATE
    else if ContainsAny(text, CTE_HINTS) then INTERMEDIATE
    else if ContainsAny(text, ADVANCED_HINTS) then ADVANCED
    else BEGINNER
  }

  /** Only the first 5000 characters count: once the joined text is that
      long, further blobs never change the level. */
  lemma InferLevelIgnoresTail(blobs: seq<string>, more: seq<string>)
    requires |Join(" ", blobs)| >= 5000
    ensures InferLevelFromText(blobs + more) == InferLevelFromText(blobs)
  {
    JoinPrefix(" ", blobs, more);
    var a := Join(" ", blobs);
    var b := Join(" ", blobs + more);
    assert Prefix(b, 5000) == b[..5000] == a[..5000] == Prefix(a, 5000);
  }

  /* ---------------------------------------------------------------- */
  /* Hours                                                             */
  /* ---------------------------------------------------------------- */

  /** `sum(m.estimated_hours for m in milestones)`. */
  function TotalHours(ms: seq<Milestone>): int {
    if ms == [] then 0 else ms[0].estimatedHours + TotalHours(ms[1..])
  }

  lemma {:induction false} TotalHoursAppend(a: seq<Milestone>, b: seq<Milestone>)
    ensures TotalHours(a + b) == TotalHours(a) + TotalHours(b)
  {
    if a != [] {
      assert (a + b)[0] == a[0] && (a + b)[1..] == a[1..] + b;
      TotalHoursAppend(a[1..], b);
    } else {
      assert a + b == b;
    }
  }

  method SumHours(ms: seq<Milestone>) returns (total: int)
    ensures total == TotalHours(ms)
  {
    total := 0;
    var i := 0;
    while i < |ms|
      invariant 0 <= i <= |ms|
      invariant total == TotalHours(ms[..i])
    {
      TotalHoursAppend(ms[..i], [ms[i]]);
      assert ms[..i + 1] == ms[..i] + [ms[i]];
      total := total + ms[i].estimatedHours;
      i := i + 1;
    }
    assert ms[..i] == ms;
  }

  function Max(a: int, b: int): (m: int)
    ensures m >= a && m >= b && (m == a || m == b)
  {
    if a >= b then a else b
  }

  function Abs(x: int): (a: nat)
    ensures a == x || a == -x
  {
    if x < 0 then -x else x
  }

  /** Python's `round(num / den)` for a positive denominator, on exact
      rationals: the nearest integer, ties to the even one. */
  function RoundHalfEven(num: int, den: int): (r: int)
    requires den > 0
    ensures 2 * Abs(num - r * den) <= den
    ensures 2 * Abs(num - r * den) == den ==> r % 2 == 0
  {
    var q := num / den;
    var rem := num % den;
    DivModDistance(num, den);
    if 2 * rem < den then q
    else if 2 * rem > den then q + 1
    else if q % 2 == 0 then q
    else q + 1
  }

  /** How far `num` is from the multiples of `den` just below and above it. */
  lemma DivModDistance(num: int, den: int)
    requires den > 0
    ensures 0 <= num % den < den
    ensures num - (num / den) * den == num % den
    ensures num - (num / den + 1) * den == num % den - den
  {
    var q := num / den;
    assert num == q * den + num % den;
    assert (q + 1) * den == q * den + den;
  }

  lemma NegateFactor(r: int, den: int)
    ensures r * -den == -(r * den)
  {
  }

  /** `round(num / den)` for a non-zero denominator of either sign. */
  function RoundRatio(num: int, den: int): (r: int)
    requires den != 0
    ensures 2 * Abs(num - r * den) <= Abs(den)
    ensures 2 * Abs(num - r * den) == Abs(den) ==> r % 2 == 0
  {
    if den > 0 then RoundHalfEven(num, den)
    else
      var r := RoundHalfEven(-num, -den);
      NegateFactor(r, den);
      r
  }

  /** The milestones after `_scale_hours(roadmap, target)`: unchanged when
      their hours sum to zero, otherwise each one's hours become
      `max(1, round(hours * target / total))`. */
  function Scaled(ms: seq<Milestone>, target: int): (r: seq<Milestone>)
    ensures |r| == |ms|
    ensures TotalHours(ms) == 0 ==> r == ms
    ensures TotalHours(ms) != 0 ==>
              forall i :: 0 <= i < |ms| ==>
                && r[i] == ms[i].(estimatedHours := r[i].estimatedHours)
                && r[i].estimatedHours >= 1
                && (r[i].estimatedHours == 1 ||
                    2 * Abs(ms[i].estimatedHours * target - r[i].estimatedHours * TotalHours(ms))
                      <= Abs(TotalHours(ms)))
  {
    var total := TotalHours(ms);
    if total == 0 then ms
    else seq(|ms|, i requires 0 <= i < |ms| =>
           ms[i].(estimatedHours := Max(1, RoundRatio(ms[i].estimatedHours * target, total))))
  }

  /** `_scale_hours`: rescales every milestone's hours towards `target`,
      keeping at least one hour each, and leaves a roadmap without hours as
      it is. */
  method ScaleHours(roadmap: Roadmap, targetTotal: int)
    modifies roadmap
    ensures roadmap.milestones == Scaled(old(roadmap.milestones), targetTotal)
    ensures roadmap.title == old(roadmap.title) && roadmap.level == old(roadmap.level)
    ensures roadmap.totalEstimatedHours == old(roadmap.totalEstimatedHours)
    ensures roadmap.notes == old(roadmap.notes)
  {
    var current := SumHours(roadmap.milestones);
    if current == 0 {
      return;
    }
    var ms := roadmap.milestones;
    var updated: seq<Milestone> := [];
    var i := 0;
    while i < |ms|
      invariant 0 <= i <= |ms|
      invariant updated == Scaled(ms, targetTotal)[..i]
    {
      var newHours := Max(1, RoundRatio(ms[i].estimatedHours * targetTotal, current));
      updated := updated + [ms[i].(estimatedHours := newHours)];
      i := i + 1;
    }
    roadmap.milestones := updated;
  }

  /* ---------------------------------------------------------------- */
  /* Per-milestone edits                                               */
  /* ---------------------------------------------------------------- */

  /** The loop bodies of app/logic.py that change one milestone at a time. */
  datatype Edit =
    | AddPgExplain        // generate: PostgreSQL mentioned
    | AddMySqlOptimizer   // generate: MySQL mentioned
    | RaiseWindowFuncs    // generate: analytics mentioned
    | AddPostgresDocs     // rewrite: PostgreSQL asked for
    | AddMySqlDocs        // rewrite: MySQL asked for
    | AddExtraResources   // rewrite: more resources asked for
    | PrioritiseAnalytics // rewrite: analytics asked for

  /** Some resource's url (`r.url or ''`) contains `sub`. */
  predicate AnyUrlContains(resources: seq<Resource>, sub: string) {
    exists r :: r in resources && Contains(r.url.GetOr(""), sub)
  }

  /** At least six hours and a `priority` tag, appended only when missing. */
  function Prioritised(m: Milestone): (r: Milestone)
    ensures r == m.(estimatedHours := r.estimatedHours, tags := r.tags)
    ensures r.estimatedHours == Max(m.estimatedHours, 6)
    ensures PRIORITY in r.tags
    ensures PRIORITY in m.tags ==> r.tags == m.tags
    ensures PRIORITY !in m.tags ==> r.tags == m.tags + [PRIORITY]
  {
    m.(estimatedHours := Max(m.estimatedHours, 6),
       tags := if PRIORITY in m.tags then m.tags else m.tags + [PRIORITY])
  }

  function Apply(edit: Edit, m: Milestone): (r: Milestone)
    ensures r.id == m.id && r.title == m.title && r.summary == m.summary && r.topics == m.topics
  {
    match edit
    case AddPgExplain =>
      if m.id in {INDEXES_PERF, WINDOW_FUNCS} then m.(resources := m.resources + [PG_EXPLAIN]) else m
    case AddMySqlOptimizer =>
      if m.id == INDEXES_PERF then m.(resources := m.resources + [MYSQL_OPTIMIZER]) else m
    case RaiseWindowFuncs =>
      if m.id == WINDOW_FUNCS then Prioritised(m) else m
    case AddPostgresDocs =>
      if m.id in {INDEXES_PERF, WINDOW_FUNCS} && !AnyUrlContains(m.resources, "postgresql")
      then m.(resources := m.resources + [POSTGRES_DOCS])
      else m
    case AddMySqlDocs =>
      if m.id == INDEXES_PERF && !AnyUrlContains(m.resources, "mysql")
      then m.(resources := m.resources + [MYSQL_DOCS])
      else m
    case AddExtraResources =>
      m.(resources := m.resources + EXTRA_RESOURCES)
    case PrioritiseAnalytics =>
      if "analytics" in m.tags || m.id == WINDOW_FUNCS then Prioritised(m) else m
  }

  /** `edit` applied to every milestone, in place. */
  function ApplyAll(edit: Edit, ms: seq<Milestone>): (r: seq<Milestone>)
    ensures |r| == |ms|
    ensures forall i :: 0 <= i < |ms| ==> r[i] == Apply(edit, ms[i])
  {
    seq(|ms|, i requires 0 <= i < |ms| => Apply(edit, ms[i]))
  }

  /** `for m in milestones: <edit m>`. */
  method EditEach(ms: seq<Milestone>, edit: Edit) returns (updated: seq<Milestone>)
    ensures updated == ApplyAll(edit, ms)
  {
    updated := ms;
    var i := 0;
    while i < |updated|
      invariant 0 <= i <= |updated| == |ms|
      invariant forall j :: 0 <= j < i ==> updated[j] == Apply(edit, ms[j])
      invariant forall j :: i <= j < |ms| ==> updated[j] == ms[j]
    {
      updated := updated[i := Apply(edit, updated[i])];
      i := i + 1;
    }
  }

  /** Every edit keeps the milestones, their order and what identifies
      them; only resources, hours and tags change. */
  lemma ApplyAllKeepsMilestones(edit: Edit, ms: seq<Milestone>)
    ensures |ApplyAll(edit, ms)| == |ms|
    ensures forall i :: 0 <= i < |ms| ==>
              var m := ApplyAll(edit, ms)[i];
              m.id == ms[i].id && m.title == ms[i].title && m.summary == ms[i].summary
              && m.topics == ms[i].topics && ms[i].resources <= m.resources
  {
  }

  /** `(head + mid + tail)` contains `mid`. */
  lemma ContainsMiddle(head: string, mid: string, tail: string)
    ensures Contains(head + mid + tail, mid)
  {
    assert (head + mid + tail)[|head|..|head| + |mid|] == mid;
    ContainsAt(head + mid + tail, mid, |head|);
  }

  lemma PostgresDocsUrl()
    ensures Contains(POSTGRES_DOCS_URL, "postgresql")
  {
    ContainsMiddle("https://www.", "postgresql", ".org/docs/current/");
  }

  lemma MySqlDocsUrl()
    ensures Contains(MYSQL_DOCS_URL, "mysql")
  {
    ContainsMiddle("https://dev.", "mysql", ".com/doc/refman/8.0/en/");
  }

  /** The PostgreSQL docs are added to the index and window-function
      milestones exactly when none of their resources already points into
      postgresql, so afterwards every such milestone has one; a second
      application adds nothing. */
  lemma PostgresDocsOnce(m: Milestone)
    ensures var r := Apply(AddPostgresDocs, m);
            r.resources == m.resources + [POSTGRES_DOCS] <==>
              m.id in {INDEXES_PERF, WINDOW_FUNCS} && !AnyUrlContains(m.resources, "postgresql")
    ensures var r := Apply(AddPostgresDocs, m);
            m.id in {INDEXES_PERF, WINDOW_FUNCS} ==> AnyUrlContains(r.resources, "postgresql")
    ensures Apply(AddPostgresDocs, Apply(AddPostgresDocs, m)) == Apply(AddPostgresDocs, m)
  {
    PostgresDocsUrl();
    var r := Apply(AddPostgresDocs, m);
    if m.id in {INDEXES_PERF, WINDOW_FUNCS} && !AnyUrlContains(m.resources, "postgresql") {
      assert POSTGRES_DOCS in r.resources;
    } else {
      assert |r.resources| != |m.resources + [POSTGRES_DOCS]|;
    }
  }

  /** The same for the MySQL reference on the index milestone. */
  lemma MySqlDocsOnce(m: Milestone)
    ensures var r := Apply(AddMySqlDocs, m);
            r.resources == m.resources + [MYSQL_DOCS] <==>
              m.id == INDEXES_PERF && !AnyUrlContains(m.resources, "mysql")
    ensures var r := Apply(AddMySqlDocs, m);
            m.id == INDEXES_PERF ==> AnyUrlContains(r.resources, "mysql")
    ensures Apply(AddMySqlDocs, Apply(AddMySqlDocs, m)) == Apply(AddMySqlDocs, m)
  {
    MySqlDocsUrl();
    var r := Apply(AddMySqlDocs, m);
    if m.id == INDEXES_PERF && !AnyUrlContains(m.resources, "mysql") {
      assert MYSQL_DOCS in r.resources;
    } else {
      assert |r.resources| != |m.resources + [MYSQL_DOCS]|;
    }
  }

  /** Analytics priority: every milestone tagged `analytics` and the window
      functions milestone end with at least six hours and one `priority`
      tag more than before only when they had none; the others are
      untouched; and a second application changes nothing. */
  lemma AnalyticsPriority(m: Milestone)
    ensures var r := Apply(PrioritiseAnalytics, m);
            if "analytics" in m.tags || m.id == WINDOW_FUNCS then
              && r.estimatedHours == Max(m.estimatedHours, 6)
              && multiset(r.tags)[PRIORITY] == Max(multiset(m.tags)[PRIORITY], 1)
              && r.resources == m.resources
            else r == m
    ensures Apply(PrioritiseAnalytics, Apply(PrioritiseAnalytics, m)) == Apply(PrioritiseAnalytics, m)
  {
    if "analytics" in m.tags || m.id == WINDOW_FUNCS {
      var r := Prioritised(m);
      if PRIORITY !in m.tags {
        assert multiset(r.tags) == multiset(m.tags) + multiset{PRIORITY};
      }
      assert "analytics" in r.tags || r.id == WINDOW_FUNCS;
    }
  }

  /* ---------------------------------------------------------------- */
  /* generate_sql_roadmap                                              */
  /* ---------------------------------------------------------------- */

  /** `if cond: for m in milestones: <edit m>`. */
  function ApplyWhen(cond: bool, edit: Edit, ms: seq<Milestone>): seq<Milestone> {
    if cond then ApplyAll(edit, ms) else ms
  }

  const ANALYTICS_TEXT_HINTS: seq<string> := ["analytics", "bi", "аналит"]

  predicate MentionsPostgres(text: string) {
    Contains(text, "postgres") || Contains(text, "postgresql")
  }

  /** Which of the three hint-driven passes the uploaded text asks for. */
  datatype Hints = Hints(postgres: bool, mysql: bool, analytics: bool)

  /** The hints found in the lower-cased joined text. */
  function TextHints(joined: string): (h: Hints)
    ensures h.postgres <==> Contains(joined, "postgres") || Contains(joined, "postgresql")
    ensures h.mysql <==> Contains(joined, "mysql")
    ensures h.analytics <==> exists k :: k in ANALYTICS_TEXT_HINTS && Contains(joined, k)
  {
    Hints(MentionsPostgres(joined), Contains(joined, "mysql"), ContainsAny(joined, ANALYTICS_TEXT_HINTS))
  }

  /** The hint-driven additions of `generate_sql_roadmap` to a list of
      milestones. */
  function GenerateFrom(base: seq<Milestone>, hints: Hints): seq<Milestone> {
    var withPg := ApplyWhen(hints.postgres, AddPgExplain, base);
    var withMySql := ApplyWhen(hints.mysql, AddMySqlOptimizer, withPg);
    ApplyWhen(hints.analytics, RaiseWindowFuncs, withMySql)
  }

  /** The hints of the uploaded text. */
  function BlobHints(blobs: seq<string>): Hints {
    TextHints(Lower(Join(" ", blobs)))
  }

  /** The milestones `generate_sql_roadmap` returns for the uploaded text. */
  function GeneratedMilestones(blobs: seq<string>): seq<Milestone> {
    GenerateFrom(BASIC_MILESTONES, BlobHints(blobs))
  }

  /** `generate_sql_roadmap`: a new roadmap whose level comes from the
      text, whose milestones are the default ones with the hint-driven
      additions, and whose total is the sum of their hours. */
  method GenerateSqlRoadmap(textBlobs: seq<string>) returns (roadmap: Roadmap)
    ensures roadmap.title == "SQL Roadmap" && roadmap.notes == GENERATED_NOTES
    ensures roadmap.level == InferLevelFromText(textBlobs)
    ensures roadmap.milestones == GeneratedMilestones(textBlobs)
    ensures roadmap.totalEstimatedHours == TotalHours(roadmap.milestones)
  {
    var level := InferLevelFromText(textBlobs);
    var joinedText := Lower(Join(" ", textBlobs));
    var milestones := ApplyTextHints(BASIC_MILESTONES, TextHints(joinedText));
    var total := SumHours(milestones);
    roadmap := new Roadmap("SQL Roadmap", level, total, milestones, GENERATED_NOTES);
  }

  /** The three hint-driven passes of `generate_sql_roadmap` over the
      milestones, each run only when the text asks for it. */
  method ApplyTextHints(base: seq<Milestone>, hints: Hints) returns (milestones: seq<Milestone>)
    ensures milestones == GenerateFrom(base, hints)
  {
    milestones := base;
    if hints.postgres {
      milestones := EditEach(milestones, AddPgExplain);
    }
    if hints.mysql {
      milestones := EditEach(milestones, AddMySqlOptimizer);
    }
    if hints.analytics {
      milestones := EditEach(milestones, RaiseWindowFuncs);
    }
  }

  /** The PostgreSQL and MySQL additions touch resources only. */
  lemma ResourceEditsKeepRest(edit: Edit, ms: seq<Milestone>)
    requires edit == AddPgExplain || edit == AddMySqlOptimizer
    ensures forall i :: 0 <= i < |ms| ==>
              var r := ApplyAll(edit, ms)[i];
              r == ms[i].(resources := r.resources) && ms[i].resources <= r.resources
  {
  }

  /** The PostgreSQL and MySQL passes of the generation change resources
      only, by appending. */
  lemma ResourcePasses(base: seq<Milestone>, hints: Hints)
    ensures var withPg := ApplyWhen(hints.postgres, AddPgExplain, base);
            var withMySql := ApplyWhen(hints.mysql, AddMySqlOptimizer, withPg);
            && |withMySql| == |base|
            && forall i :: 0 <= i < |base| ==>
                 withMySql[i] == base[i].(resources := withMySql[i].resources)
                 && base[i].resources <= withMySql[i].resources
  {
    var withPg := ApplyWhen(hints.postgres, AddPgExplain, base);
    ResourceEditsKeepRest(AddPgExplain, base);
    ResourceEditsKeepRest(AddMySqlOptimizer, withPg);
  }

  /** What the generation does to any list of milestones: it keeps them,
      their order and their identifying fields, only appends resources, and
      raises the window functions milestone to six hours and a `priority`
      tag when the text mentions analytics. */
  lemma GenerateFromKeeps(base: seq<Milestone>, hints: Hints)
    ensures var r := GenerateFrom(base, hints);
            && |r| == |base|
            && forall i :: 0 <= i < |base| ==>
                 var raise := base[i].id == WINDOW_FUNCS && hints.analytics;
                 && r[i].id == base[i].id && r[i].title == base[i].title
                 && r[i].summary == base[i].summary && r[i].topics == base[i].topics
                 && base[i].resources <= r[i].resources
                 && r[i].estimatedHours == (if raise then Max(base[i].estimatedHours, 6) else base[i].estimatedHours)
                 && r[i].tags == (if raise && PRIORITY !in base[i].tags then base[i].tags + [PRIORITY] else base[i].tags)
  {
    ResourcePasses(base, hints);
  }

  /** With an analytics hint every window functions milestone ends with at
      least six hours and at least one `priority` tag, added only when it
      had none. */
  lemma GenerateFromAnalytics(base: seq<Milestone>, hints: Hints)
    requires hints.analytics
    ensures var r := GenerateFrom(base, hints);
            forall i :: 0 <= i < |base| && base[i].id == WINDOW_FUNCS ==>
              && r[i].estimatedHours >= 6
              && multiset(r[i].tags)[PRIORITY] ==
                   if PRIORITY in base[i].tags then multiset(base[i].tags)[PRIORITY] else 1
  {
    GenerateFromKeeps(base, hints);
  }

  /** Raising the one window functions milestone to at least six hours
      changes the total by exactly that raise. */
  lemma {:induction false} RaisedTotal(base: seq<Milestone>, ms: seq<Milestone>, k: int, raise: bool)
    requires 0 <= k < |base| && |ms| == |base|
    requires forall i :: 0 <= i < |base| ==> (base[i].id == WINDOW_FUNCS <==> i == k)
    requires forall i :: 0 <= i < |base| ==>
               ms[i].estimatedHours ==
                 if base[i].id == WINDOW_FUNCS && raise
                 then Max(base[i].estimatedHours, 6) else base[i].estimatedHours
    ensures TotalHours(ms) ==
              TotalHours(base) + if raise then Max(base[k].estimatedHours, 6) - base[k].estimatedHours else 0
  {
    if raise {
      var raised := base[k := base[k].(estimatedHours := Max(base[k].estimatedHours, 6))];
      TotalHoursUpdate(base, k, raised[k]);
      forall i | 0 <= i < |ms|
        ensures ms[i].estimatedHours == raised[i].estimatedHours
      {
        if i != k {
          assert raised[i] == base[i];
        }
      }
      TotalHoursPointwise(ms, raised);
    } else {
      TotalHoursPointwise(ms, base);
    }
  }

  /** `generate_sql_roadmap` returns the eight default milestones in their
      order, each with its default resources first; only the window
      functions milestone's hours and tags depend on an analytics hint. */
  lemma GeneratedKeepsDefaults(blobs: seq<string>)
    ensures var ms := GeneratedMilestones(blobs);
            && |ms| == |BASIC_MILESTONES|
            && forall i :: 0 <= i < |ms| ==>
                 && ms[i].id == BASIC_MILESTONES[i].id
                 && ms[i].title == BASIC_MILESTONES[i].title
                 && ms[i].summary == BASIC_MILESTONES[i].summary
                 && ms[i].topics == BASIC_MILESTONES[i].topics
                 && BASIC_MILESTONES[i].resources <= ms[i].resources
  {
    GenerateFromKeeps(BASIC_MILESTONES, BlobHints(blobs));
  }

  /** Among the defaults only the sixth milestone is the window functions
      one, at five hours and without a `priority` tag. */
  lemma BasicWindowFuncs(i: int)
    requires 0 <= i < |BASIC_MILESTONES|
    ensures BASIC_MILESTONES[i].id == WINDOW_FUNCS <==> i == 5
    ensures i == 5 ==> BASIC_MILESTONES[i].estimatedHours == 5 && BASIC_MILESTONES[i].tags == ["analytics"]
  {
  }

  /** With an analytics hint the window functions milestone ends with at
      least six hours and its `priority` tag appended once. */
  lemma GeneratedAnalytics(blobs: seq<string>)
    requires ContainsAny(Lower(Join(" ", blobs)), ANALYTICS_TEXT_HINTS)
    ensures var ms := GeneratedMilestones(blobs);
            forall i :: 0 <= i < |ms| && ms[i].id == WINDOW_FUNCS ==>
              ms[i].estimatedHours >= 6 && multiset(ms[i].tags)[PRIORITY] == 1
  {
    var ms := GeneratedMilestones(blobs);
    GenerateFromKeeps(BASIC_MILESTONES, BlobHints(blobs));
    GenerateFromAnalytics(BASIC_MILESTONES, BlobHints(blobs));
    forall i | 0 <= i < |ms| && ms[i].id == WINDOW_FUNCS
      ensures ms[i].estimatedHours >= 6 && multiset(ms[i].tags)[PRIORITY] == 1
    {
      BasicWindowFuncs(i);
    }
  }

  /** The default milestones add up to 42 hours. */
  lemma BasicTotal()
    ensures TotalHours(BASIC_MILESTONES) == 42
  {
    var b := BASIC_MILESTONES;
    assert TotalHours(b[8..]) == 0;
    assert b[7..][1..] == b[8..];
    assert TotalHours(b[7..]) == 6;
    assert b[6..][1..] == b[7..];
    assert TotalHours(b[6..]) == 10;
    assert b[5..][1..] == b[6..];
    assert TotalHours(b[5..]) == 15;
    assert b[4..][1..] == b[5..];
    assert TotalHours(b[4..]) == 19;
    assert b[3..][1..] == b[4..];
    assert TotalHours(b[3..]) == 25;
    assert b[2..][1..] == b[3..];
    assert TotalHours(b[2..]) == 30;
    assert b[1..][1..] == b[2..];
    assert TotalHours(b[1..]) == 36;
    assert b[0..] == b;
  }

  /** A milestone list's total depends only on its hours. */
  lemma {:induction false} TotalHoursPointwise(a: seq<Milestone>, b: seq<Milestone>)
    requires |a| == |b| && forall i :: 0 <= i < |a| ==> a[i].estimatedHours == b[i].estimatedHours
    ensures TotalHours(a) == TotalHours(b)
  {
    if a != [] {
      TotalHoursPointwise(a[1..], b[1..]);
    }
  }

  /** Changing one milestone changes the total by the change in its hours. */
  lemma {:induction false} TotalHoursUpdate(ms: seq<Milestone>, k: int, m: Milestone)
    requires 0 <= k < |ms|
    ensures TotalHours(ms[k := m]) == TotalHours(ms) - ms[k].estimatedHours + m.estimatedHours
  {
    if k > 0 {
      assert ms[k := m][1..] == ms[1..][k - 1 := m];
      TotalHoursUpdate(ms[1..], k - 1, m);
    } else {
      assert ms[k := m][1..] == ms[1..];
    }
  }

  /** The default milestones add up to 42 hours, and an analytics hint
      raises the total to 43. */
  lemma GeneratedTotal(blobs: seq<string>)
    ensures TotalHours(GeneratedMilestones(blobs)) ==
              if ContainsAny(Lower(Join(" ", blobs)), ANALYTICS_TEXT_HINTS) then 43 else 42
  {
    forall i | 0 <= i < |BASIC_MILESTONES|
      ensures BASIC_MILESTONES[i].id == WINDOW_FUNCS <==> i == 5
    {
      BasicWindowFuncs(i);
    }
    BasicWindowFuncs(5);
    BasicTotal();
    GenerateFromKeeps(BASIC_MILESTONES, BlobHints(blobs));
    RaisedTotal(BASIC_MILESTONES, GeneratedMilestones(blobs), 5, BlobHints(blobs).analytics);
  }

  /** The PostgreSQL and MySQL passes append their resource to the indexes
      milestone, once each and in that order. */
  lemma GenerateFromIndexResources(base: seq<Milestone>, hints: Hints, k: int)
    requires 0 <= k < |base| && base[k].id == INDEXES_PERF
    ensures |GenerateFrom(base, hints)| == |base|
    ensures GenerateFrom(base, hints)[k].resources ==
              base[k].resources + (if hints.postgres then [PG_EXPLAIN] else [])
              + (if hints.mysql then [MYSQL_OPTIMIZER] else [])
  {
    var withPg := ApplyWhen(hints.postgres, AddPgExplain, base);
    var withMySql := ApplyWhen(hints.mysql, AddMySqlOptimizer, withPg);
    assert withPg[k].resources == base[k].resources + (if hints.postgres then [PG_EXPLAIN] else []);
    assert withMySql[k].resources == withPg[k].resources + (if hints.mysql then [MYSQL_OPTIMIZER] else []);
  }

  /** Each call starts from the untouched defaults: the indexes milestone
      (the fourth) holds its default resource, then `PG: EXPLAIN` for a
      PostgreSQL text and `MySQL Optimizer` for a MySQL text, nothing more. */
  lemma GeneratedIndexResources(blobs: seq<string>)
    ensures var ms := GeneratedMilestones(blobs);
            |ms| == 8 && ms[3].id == INDEXES_PERF &&
            ms[3].resources == BASIC_MILESTONES[3].resources
              + (if BlobHints(blobs).postgres then [PG_EXPLAIN] else [])
              + (if BlobHints(blobs).mysql then [MYSQL_OPTIMIZER] else [])
  {
    GenerateFromKeeps(BASIC_MILESTONES, BlobHints(blobs));
    GenerateFromIndexResources(BASIC_MILESTONES, BlobHints(blobs), 3);
  }

  /** The defaults as `generate_sql_roadmap` actually treats them:
      `list(BASIC_MILESTONES)` copies the list but not the milestones, so
      the in-place edits of every call land in the shared defaults and the
      returned roadmap holds those same milestones. */
  class SharedDefaults {
    var milestones: seq<Milestone>

    constructor ()
      ensures milestones == BASIC_MILESTONES
    {
      milestones := BASIC_MILESTONES;
    }

    /** `generate_sql_roadmap` as written: the edits of this call are
        applied to the milestones left by the previous calls. */
    method Generate(textBlobs: seq<string>) returns (roadmap: Roadmap)
      modifies this
      ensures milestones == GenerateFrom(old(milestones), BlobHints(textBlobs))
      ensures roadmap.title == "SQL Roadmap" && roadmap.notes == GENERATED_NOTES
      ensures roadmap.milestones == milestones
      ensures roadmap.level == InferLevelFromText(textBlobs)
      ensures roadmap.totalEstimatedHours == TotalHours(milestones)
    {
      var level := InferLevelFromText(textBlobs);
      var joinedText := Lower(Join(" ", textBlobs));
      milestones := ApplyTextHints(milestones, TextHints(joinedText));
      var total := SumHours(milestones);
      roadmap := new Roadmap("SQL Roadmap", level, total, milestones, GENERATED_NOTES);
    }
  }

  /** With the shared defaults a second call on a PostgreSQL text (that
      does not mention MySQL) returns the indexes milestone with
      `PG: EXPLAIN` twice: the first call's edit is still there. */
  lemma SecondCallRepeatsExplain(blobs: seq<string>)
    requires BlobHints(blobs).postgres && !BlobHints(blobs).mysql
    ensures var second := GenerateFrom(GeneratedMilestones(blobs), BlobHints(blobs));
            |second| == 8 &&
            second[3].resources == BASIC_MILESTONES[3].resources + [PG_EXPLAIN, PG_EXPLAIN]
  {
    var first := GeneratedMilestones(blobs);
    GeneratedIndexResources(blobs);
    GenerateFromIndexResources(first, BlobHints(blobs), 3);
  }

  /* ---------------------------------------------------------------- */
  /* rewrite_roadmap_with_prompt                                       */
  /* ---------------------------------------------------------------- */

  const BEGINNER_HINTS: seq<string> := ["beginner", "нович", "начина"]
  const ADVANCED_PROMPT_HINTS: seq<string> := ["advanced", "продвин"]
  const INTERMEDIATE_PROMPT_HINTS: seq<string> := ["intermediate", "средн"]
  const EXTRA_RESOURCE_HINTS: seq<string> := ["добавь ресурсы", "more resources", "extra resources"]
  const ANALYTICS_PROMPT_HINTS: seq<string> := ["аналит", "analytics", "bi", "data analyst"]

  /** The level after the prompt `p`: a beginner hint wins over an advanced
      one, which wins over an intermediate one; without any the level is
      kept. */
  function PromptLevel(p: string, level: string): (r: string)
    ensures ContainsAny(p, BEGINNER_HINTS) ==> r == BEGINNER
    ensures !ContainsAny(p, BEGINNER_HINTS) && ContainsAny(p, ADVANCED_PROMPT_HINTS) ==> r == ADVANCED
    ensures (!ContainsAny(p, BEGINNER_HINTS) && !ContainsAny(p, ADVANCED_PROMPT_HINTS)
             && ContainsAny(p, INTERMEDIATE_PROMPT_HINTS)) ==> r == INTERMEDIATE
    ensures (!ContainsAny(p, BEGINNER_HINTS) && !ContainsAny(p, ADVANCED_PROMPT_HINTS)
             && !ContainsAny(p, INTERMEDIATE_PROMPT_HINTS)) ==> r == level
  {
    if ContainsAny(p, BEGINNER_HINTS) then BEGINNER
    else if ContainsAny(p, ADVANCED_PROMPT_HINTS) then ADVANCED
    else if ContainsAny(p, INTERMEDIATE_PROMPT_HINTS) then INTERMEDIATE
    else level
  }

  /** The removal keywords: every capture stripped and lower-cased. */
  function RemovalKeywords(captures: seq<string>): set<string> {
    set x | x in captures :: Lower(Strip(x))
  }

  /** No removal keyword occurs in the lower-cased title or summary. */
  predicate KeepsMilestone(keywords: set<string>, m: Milestone) {
    forall kw :: kw in keywords ==> !Contains(Lower(m.title), kw) && !Contains(Lower(m.summary), kw)
  }

  /** `if rm: milestones = [m for m in milestones if ...]`. */
  function RemoveMilestones(ms: seq<Milestone>, captures: seq<string>): seq<Milestone> {
    if captures == [] then ms
    else
      var keywords := RemovalKeywords(captures);
      Filter(m => KeepsMilestone(keywords, m), ms)
  }

  /** The removal keeps exactly the milestones in whose lower-cased title
      and summary no keyword occurs, in their order; without captures it
      keeps everything. */
  lemma RemovalExact(ms: seq<Milestone>, captures: seq<string>, m: Milestone)
    ensures m in RemoveMilestones(ms, captures) <==>
              m in ms && forall x :: x in captures ==>
                !Contains(Lower(m.title), Lower(Strip(x))) && !Contains(Lower(m.summary), Lower(Strip(x)))
    ensures IsSubsequence(RemoveMilestones(ms, captures), ms)
    ensures captures == [] ==> RemoveMilestones(ms, captures) == ms
  {
    if captures == [] {
      IsSubsequenceRefl(ms);
    } else {
      var keywords := RemovalKeywords(captures);
      var keep := (m: Milestone) => KeepsMilestone(keywords, m);
      FilterIsSubsequence(keep, ms);
      if m in Filter(keep, ms) {
        var r := Filter(keep, ms);
        var i :| 0 <= i < |r| && r[i] == m;
        assert keep(r[i]);
        forall x | x in captures
          ensures !Contains(Lower(m.title), Lower(Strip(x))) && !Contains(Lower(m.summary), Lower(Strip(x)))
        {
          assert Lower(Strip(x)) in keywords;
        }
      }
    }
  }

  lemma {:induction false} IsSubsequenceRefl<T>(s: seq<T>)
    ensures IsSubsequence(s, s)
  {
    if s != [] {
      IsSubsequenceRefl(s[1..]);
    }
  }

  /** A capture of only whitespace becomes the empty keyword, which occurs
      in every title: nothing is left. */
  lemma BlankRemovalEmptiesRoadmap(ms: seq<Milestone>, captures: seq<string>, x: string)
    requires x in captures && Strip(x) == ""
    ensures RemoveMilestones(ms, captures) == []
  {
    var keywords := RemovalKeywords(captures);
    assert Lower(Strip(x)) == "" && "" in keywords;
    var keep := (m: Milestone) => KeepsMilestone(keywords, m);
    forall m | m in ms
      ensures !keep(m)
    {
      ContainsEmpty(Lower(m.title));
    }
    FilterNone(keep, ms);
  }

  /** The rescaling target: seven hours per requested week, else the
      requested hours, else none. */
  function ScaleTarget(weeks: Option<nat>, hours: Option<nat>): Option<int> {
    if weeks.Some? then Some(weeks.value * 7)
    else if hours.Some? then Some(hours.value)
    else None
  }

  function ScaledTo(target: Option<int>, ms: seq<Milestone>): seq<Milestone> {
    if target.Some? then Scaled(ms, target.value) else ms
  }

  /** The milestones of the rewrite just before the analytics step. */
  function BeforeAnalytics(ms: seq<Milestone>, p: string, weeks: Option<nat>, hours: Option<nat>,
                           captures: seq<string>): seq<Milestone>
  {
    var withPg := ApplyWhen(MentionsPostgres(p), AddPostgresDocs, ms);
    var withMySql := ApplyWhen(Contains(p, "mysql"), AddMySqlDocs, withPg);
    var scaled := ScaledTo(ScaleTarget(weeks, hours), withMySql);
    var extended := ApplyWhen(ContainsAny(p, EXTRA_RESOURCE_HINTS), AddExtraResources, scaled);
    RemoveMilestones(extended, captures)
  }

  /** The milestones after `rewrite_roadmap_with_prompt` with the
      normalised prompt `p`; `weeks`, `hours` and `captures` are what its
      regular expressions extract from `p`. */
  function RewrittenMilestones(ms: seq<Milestone>, p: string, weeks: Option<nat>, hours: Option<nat>,
                               captures: seq<string>): seq<Milestone>
  {
    ApplyWhen(ContainsAny(p, ANALYTICS_PROMPT_HINTS), PrioritiseAnalytics,
              BeforeAnalytics(ms, p, weeks, hours, captures))
  }

  /** The level branch of the rewrite. */
  method RewriteLevel(roadmap: Roadmap, p: string)
    modifies roadmap
    ensures roadmap.level == PromptLevel(p, old(roadmap.level))
    ensures roadmap.milestones == old(roadmap.milestones)
    ensures roadmap.title == old(roadmap.title) && roadmap.notes == old(roadmap.notes)
    ensures roadmap.totalEstimatedHours == old(roadmap.totalEstimatedHours)
  {
    if ContainsAny(p, BEGINNER_HINTS) {
      roadmap.level := BEGINNER;
    } else if ContainsAny(p, ADVANCED_PROMPT_HINTS) {
      roadmap.level := ADVANCED;
    } else if ContainsAny(p, INTERMEDIATE_PROMPT_HINTS) {
      roadmap.level := INTERMEDIATE;
    }
  }

  /** `if cond: for m in roadmap.milestones: <edit m>`. */
  method EditWhen(roadmap: Roadmap, cond: bool, edit: Edit)
    modifies roadmap
    ensures roadmap.milestones == ApplyWhen(cond, edit, old(roadmap.milestones))
    ensures roadmap.level == old(roadmap.level)
    ensures roadmap.title == old(roadmap.title) && roadmap.notes == old(roadmap.notes)
    ensures roadmap.totalEstimatedHours == old(roadmap.totalEstimatedHours)
  {
    if cond {
      roadmap.milestones := EditEach(roadmap.milestones, edit);
    }
  }

  /** The time-budget branch of the rewrite. */
  method RescaleForBudget(roadmap: Roadmap, weeks: Option<nat>, hours: Option<nat>)
    modifies roadmap
    ensures roadmap.milestones == ScaledTo(ScaleTarget(weeks, hours), old(roadmap.milestones))
    ensures roadmap.level == old(roadmap.level)
    ensures roadmap.title == old(roadmap.title) && roadmap.notes == old(roadmap.notes)
    ensures roadmap.totalEstimatedHours == old(roadmap.totalEstimatedHours)
  {
    if weeks.Some? {
      ScaleHours(roadmap, weeks.value * 7);
    } else if hours.Some? {
      ScaleHours(roadmap, hours.value);
    }
  }

  /** The removal branch of the rewrite. */
  method RemoveByKeywords(roadmap: Roadmap, captures: seq<string>)
    modifies roadmap
    ensures roadmap.milestones == RemoveMilestones(old(roadmap.milestones), captures)
    ensures roadmap.level == old(roadmap.level)
    ensures roadmap.title == old(roadmap.title) && roadmap.notes == old(roadmap.notes)
    ensures roadmap.totalEstimatedHours == old(roadmap.totalEstimatedHours)
  {
    if captures != [] {
      var keywords := RemovalKeywords(captures);
      roadmap.milestones := Filter(m => KeepsMilestone(keywords, m), roadmap.milestones);
    }
  }

  /** `rewrite_roadmap_with_prompt`: updates the roadmap in place as the
      normalised prompt asks and recomputes its total. */
  method RewriteRoadmapWithPrompt(roadmap: Roadmap, prompt: string, weeks: Option<nat>,
                                  hours: Option<nat>, captures: seq<string>)
    modifies roadmap
    ensures var p := Strip(Lower(prompt));
            && roadmap.level == PromptLevel(p, old(roadmap.level))
            && roadmap.milestones == RewrittenMilestones(old(roadmap.milestones), p, weeks, hours, captures)
    ensures roadmap.totalEstimatedHours == TotalHours(roadmap.milestones)
    ensures roadmap.title == old(roadmap.title) && roadmap.notes == old(roadmap.notes)
  {
    var p := Strip(Lower(prompt));
    RewriteLevel(roadmap, p);
    EditWhen(roadmap, MentionsPostgres(p), AddPostgresDocs);
    EditWhen(roadmap, Contains(p, "mysql"), AddMySqlDocs);
    RescaleForBudget(roadmap, weeks, hours);
    EditWhen(roadmap, ContainsAny(p, EXTRA_RESOURCE_HINTS), AddExtraResources);
    RemoveByKeywords(roadmap, captures);
    EditWhen(roadmap, ContainsAny(p, ANALYTICS_PROMPT_HINTS), PrioritiseAnalytics);
    roadmap.totalEstimatedHours := SumHours(roadmap.milestones);
  }

  /** After the analytics step every milestone tagged `analytics` and the
      window functions one have at least six hours and a `priority` tag. */
  lemma AnalyticsFloorAll(ms: seq<Milestone>)
    ensures var r := ApplyAll(PrioritiseAnalytics, ms);
            forall i :: 0 <= i < |r| && ("analytics" in r[i].tags || r[i].id == WINDOW_FUNCS) ==>
              r[i].estimatedHours >= 6 && PRIORITY in r[i].tags
  {
    var r := ApplyAll(PrioritiseAnalytics, ms);
    forall i | 0 <= i < |r| && ("analytics" in r[i].tags || r[i].id == WINDOW_FUNCS)
      ensures r[i].estimatedHours >= 6 && PRIORITY in r[i].tags
    {
      AnalyticsPriority(ms[i]);
      if !("analytics" in ms[i].tags || ms[i].id == WINDOW_FUNCS) {
        assert r[i] == ms[i];
      }
    }
  }

  /** After an analytics prompt every milestone left that is tagged
      `analytics` or is the window functions one has at least six hours and
      a `priority` tag. */
  lemma RewriteAnalyticsFloor(ms: seq<Milestone>, p: string, weeks: Option<nat>, hours: Option<nat>,
                              captures: seq<string>)
    requires ContainsAny(p, ANALYTICS_PROMPT_HINTS)
    ensures var r := RewrittenMilestones(ms, p, weeks, hours, captures);
            forall i :: 0 <= i < |r| && ("analytics" in r[i].tags || r[i].id == WINDOW_FUNCS) ==>
              r[i].estimatedHours >= 6 && PRIORITY in r[i].tags
  {
    AnalyticsFloorAll(BeforeAnalytics(ms, p, weeks, hours, captures));
  }
}
