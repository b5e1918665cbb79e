/**
 * The three tables of the practice application (Problem, Schema and
 * Solution) as rows; the constraints the database enforces on them
 * (unique titles of at most 200 characters, at most one solution per
 * problem, unique (problem, order) pairs among schemas); the queries the
 * request handler and the seed command make; and the string forms of
 * the rows.
 */
module Models {

  datatype Option<+T> = None | Some(value: T)

  type ProblemId = nat

  /** `max_length` of the title column. */
  const MaxTitleLength: nat := 200

  datatype Problem = Problem(id: ProblemId, title: string, description: string, solutionExplanation: string)

  /** One schema script of a problem; `order` is the position it runs at. */
  datatype Schema = Schema(problem: ProblemId, script: string, order: nat)

  /** The reference query of a problem. */
  datatype Solution = Solution(problem: ProblemId, query: string)

  /** The stored rows of the three tables; `nextId` is the id the next new problem receives. */
  datatype Tables = Tables(problems: seq<Problem>, schemas: seq<Schema>, solutions: seq<Solution>, nextId: ProblemId)

  // ---------------------------------------------------------------------
  // Table constraints
  // ---------------------------------------------------------------------

  predicate HasProblem(t: Tables, id: ProblemId) {
    exists p <- t.problems :: p.id == id
  }

  /** Primary keys are unique and below `nextId`; titles are unique and fit the column. */
  predicate ProblemsValid(t: Tables) {
    && (forall p <- t.problems :: p.id < t.nextId && |p.title| <= MaxTitleLength)
    && (forall i, j :: 0 <= i < j < |t.problems| ==> t.problems[i].id != t.problems[j].id)
    && (forall i, j :: 0 <= i < j < |t.problems| ==> t.problems[i].title != t.problems[j].title)
  }

  /** The one-to-one link: every solution names an existing problem, and no problem has two. */
  predicate SolutionsValid(t: Tables) {
    && (forall s <- t.solutions :: HasProblem(t, s.problem))
    && (forall i, j :: 0 <= i < j < |t.solutions| ==> t.solutions[i].problem != t.solutions[j].problem)
  }

  /** `unique_together = ('problem', 'order')`: no two rows share both. */
  predicate UniquePairs(schemas: seq<Schema>) {
    forall i, j :: 0 <= i < j < |schemas| ==>
      schemas[i].problem != schemas[j].problem || schemas[i].order != schemas[j].order
  }

  predicate SchemasValid(t: Tables) {
    && (forall s <- t.schemas :: HasProblem(t, s.problem))
    && UniquePairs(t.schemas)
  }

  predicate Valid(t: Tables) {
    ProblemsValid(t) && SolutionsValid(t) && SchemasValid(t)
  }

  // ---------------------------------------------------------------------
  // Queries
  // ---------------------------------------------------------------------

  /** The problem with primary key `id`, or None where the lookup raises DoesNotExist. */
  function FindProblem(problems: seq<Problem>, id: ProblemId): (r: Option<Problem>)
    ensures r.Some? ==> r.value in problems && r.value.id == id
    ensures r.None? ==> forall p <- problems :: p.id != id
  {
    if problems == [] then None
    else if problems[0].id == id then Some(problems[0])
    else FindProblem(problems[1..], id)
  }

  /** With unique primary keys, the lookup returns the one row that has the key. */
  lemma {:induction false} FindProblemUnique(t: Tables, p: Problem)
    requires ProblemsValid(t) && p in t.problems
    ensures FindProblem(t.problems, p.id) == Some(p)
  {
    var r := FindProblem(t.problems, p.id);
    var i :| 0 <= i < |t.problems| && t.problems[i] == p;
    var j :| 0 <= j < |t.problems| && t.problems[j] == r.value;
    assert i == j;
  }

  /** `problem.solution`, or None where the reverse one-to-one accessor finds no row. */
  function FindSolution(solutions: seq<Solution>, id: ProblemId): (r: Option<Solution>)
    ensures r.Some? ==> r.value in solutions && r.value.problem == id
    ensures r.None? ==> forall s <- solutions :: s.problem != id
  {
    if solutions == [] then None
    else if solutions[0].problem == id then Some(solutions[0])
    else FindSolution(solutions[1..], id)
  }

  /** The schema rows of one problem, in table order. */
  function OfProblem(schemas: seq<Schema>, id: ProblemId): (r: seq<Schema>)
    ensures forall s :: s in r <==> s in schemas && s.problem == id
  {
    if schemas == [] then []
    else if schemas[0].problem == id then [schemas[0]] + OfProblem(schemas[1..], id)
    else OfProblem(schemas[1..], id)
  }

  predicate Ascending(s: seq<Schema>) {
    forall i, j :: 0 <= i < j < |s| ==> s[i].order <= s[j].order
  }

  predicate StrictlyAscending(s: seq<Schema>) {
    forall i, j :: 0 <= i < j < |s| ==> s[i].order < s[j].order
  }

  predicate DistinctOrders(s: seq<Schema>) {
    forall i, j :: 0 <= i < j < |s| ==> s[i].order != s[j].order
  }

  /** Places `x` before the first row of `s` whose order is not below its own. */
  function InsertByOrder(x: Schema, s: seq<Schema>): seq<Schema> {
    if s == [] then [x]
    else if x.order <= s[0].order then [x] + s
    else [s[0]] + InsertByOrder(x, s[1..])
  }

  lemma {:induction false} InsertByOrderElements(x: Schema, s: seq<Schema>)
    ensures multiset(InsertByOrder(x, s)) == multiset(s) + multiset{x}
    ensures forall y <- InsertByOrder(x, s) :: y == x || y in s
  {
    if s != [] {
      assert s == [s[0]] + s[1..];
      if x.order > s[0].order {
        InsertByOrderElements(x, s[1..]);
      }
    }
  }

  lemma AscendingCons(y: Schema, rest: seq<Schema>)
    requires Ascending(rest) && forall z <- rest :: y.order <= z.order
    ensures Ascending([y] + rest)
  {
    var r := [y] + rest;
    forall i, j | 0 <= i < j < |r| ensures r[i].order <= r[j].order {
      if i == 0 {
        assert r[j] == rest[j - 1] && rest[j - 1] in rest;
      } else {
        assert r[i] == rest[i - 1] && r[j] == rest[j - 1];
      }
    }
  }

  lemma {:induction false} InsertByOrderSorts(x: Schema, s: seq<Schema>)
    requires Ascending(s)
    ensures Ascending(InsertByOrder(x, s))
    ensures multiset(InsertByOrder(x, s)) == multiset(s) + multiset{x}
    ensures forall y <- InsertByOrder(x, s) :: y == x || y in s
  {
    InsertByOrderElements(x, s);
    if s != [] {
      if x.order <= s[0].order {
        forall z <- s ensures x.order <= z.order {
          var j :| 0 <= j < |s| && s[j] == z;
        }
        AscendingCons(x, s);
      } else {
        var rest := InsertByOrder(x, s[1..]);
        InsertByOrderSorts(x, s[1..]);
        forall z <- rest ensures s[0].order <= z.order {
          if z != x {
            var j :| 1 <= j < |s| && s[j] == z;
          }
        }
        AscendingCons(s[0], rest);
      }
    }
  }

  /** `ORDER BY "order"`: a permutation of `s` listed by ascending order. */
  function SortByOrder(s: seq<Schema>): (r: seq<Schema>)
    ensures Ascending(r) && multiset(r) == multiset(s)
  {
    if s == [] then []
    else
      assert s == [s[0]] + s[1..];
      InsertByOrderSorts(s[0], SortByOrder(s[1..]));
      InsertByOrder(s[0], SortByOrder(s[1..]))
  }

  /** `problem.schemas.all()`: the problem's rows, sorted as `Meta.ordering = ['order']` asks. */
  function SchemasOf(t: Tables, id: ProblemId): seq<Schema> {
    SortByOrder(OfProblem(t.schemas, id))
  }

  /** `problem.solution`. */
  function SolutionOf(t: Tables, id: ProblemId): Option<Solution> {
    FindSolution(t.solutions, id)
  }

  lemma {:induction false} InsertStrict(x: Schema, s: seq<Schema>)
    requires StrictlyAscending(s)
    requires forall y <- s :: y.order != x.order
    ensures StrictlyAscending(InsertByOrder(x, s))
  {
    if s != [] {
      if x.order > s[0].order {
        InsertStrict(x, s[1..]);
        assert StrictlyAscending(s[1..]);
        InsertByOrderSorts(x, s[1..]);
        var rest := InsertByOrder(x, s[1..]);
        var r := [s[0]] + rest;
        forall i, j | 0 <= i < j < |r| ensures r[i].order < r[j].order {
          if i == 0 {
            assert r[j] in rest;
          }
        }
      } else {
        assert s[0] in s;
      }
    }
  }

  lemma {:induction false} SortStrict(s: seq<Schema>)
    requires DistinctOrders(s)
    ensures StrictlyAscending(SortByOrder(s))
  {
    if s != [] {
      var tail := SortByOrder(s[1..]);
      SortStrict(s[1..]);
      forall y | y in tail
        ensures y.order != s[0].order
      {
        assert y in multiset(tail);
        var k :| 0 <= k < |s[1..]| && s[1..][k] == y;
        assert s[k + 1] == y;
      }
      InsertStrict(s[0], tail);
    }
  }

  lemma {:induction false} OfProblemDistinct(schemas: seq<Schema>, id: ProblemId)
    requires UniquePairs(schemas)
    ensures DistinctOrders(OfProblem(schemas, id))
  {
    if schemas != [] {
      OfProblemDistinct(schemas[1..], id);
      var rest := OfProblem(schemas[1..], id);
      if schemas[0].problem == id {
        forall y | y in rest
          ensures y.order != schemas[0].order
        {
          var k :| 0 <= k < |schemas[1..]| && schemas[1..][k] == y;
          assert schemas[k + 1] == y;
        }
      }
    }
  }

  /**
   * What `Meta.ordering` and `unique_together` give the request handler:
   * a problem's schemas are exactly its rows, each once, listed in
   * strictly ascending order.
   */
  lemma SchemasOfOrdered(t: Tables, id: ProblemId)
    requires SchemasValid(t)
    ensures StrictlyAscending(SchemasOf(t, id))
    ensures multiset(SchemasOf(t, id)) == multiset(OfProblem(t.schemas, id))
    ensures forall s :: s in SchemasOf(t, id) <==> s in t.schemas && s.problem == id
  {
    OfProblemDistinct(t.schemas, id);
    SortStrict(OfProblem(t.schemas, id));
    var r := SchemasOf(t, id);
    forall s ensures s in r <==> s in OfProblem(t.schemas, id) {
      assert s in r <==> s in multiset(r);
    }
  }

  // ---------------------------------------------------------------------
  // String forms (`__str__`)
  // ---------------------------------------------------------------------

  predicate IsDigit(c: char) { '0' <= c <= '9' }

  function DigitChar(d: nat): (c: char)
    requires d < 10
    ensures IsDigit(c)
  {
    (d + '0' as int) as char
  }

  /** Decimal digits as Python's `str` prints them: at least one, and no leading zero. */
  predicate Canonical(s: string) {
    && |s| >= 1
    && (forall c <- s :: IsDigit(c))
    && (s[0] == '0' ==> |s| == 1)
  }

  /** Python's `str(n)` for a non-negative integer. */
  function DecimalString(n: nat): (r: string)
    ensures |r| >= 1 && forall c <- r :: IsDigit(c)
    ensures r[0] == '0' ==> n == 0
    ensures Canonical(r)
  {
    if n < 10 then [DigitChar(n)] else DecimalString(n / 10) + [DigitChar(n % 10)]
  }

  /** Reads back a string of decimal digits. */
  function ParseDecimal(s: string): nat
    requires forall c <- s :: IsDigit(c)
  {
    if s == [] then 0
    else
      var last := s[|s| - 1];
      assert last in s;
      assert IsDigit(last);
      10 * ParseDecimal(s[..|s| - 1]) + (last as int - '0' as int)
  }

  lemma {:induction false} DecimalRoundTrip(n: nat)
    ensures ParseDecimal(DecimalString(n)) == n
  {
    if n >= 10 {
      var s := DecimalString(n);
      assert s[..|s| - 1] == DecimalString(n / 10);
      DecimalRoundTrip(n / 10);
    }
  }

  /** A canonical digit string with a non-zero first digit reads as a positive number. */
  lemma {:induction false} LeadingDigitPositive(s: string)
    requires |s| >= 1 && (forall c <- s :: IsDigit(c)) && s[0] != '0'
    ensures ParseDecimal(s) >= 1
  {
    if |s| > 1 {
      var front := s[..|s| - 1];
      assert front[0] == s[0];
      assert forall c <- front :: c in s;
      LeadingDigitPositive(front);
      assert s[|s| - 1] in s;
      assert ParseDecimal(s) == 10 * ParseDecimal(front) + (s[|s| - 1] as int - '0' as int);
    }
  }

  /** `str(n)` is the only canonical digit string that reads as `n`. */
  lemma {:induction false} DecimalUnique(s: string, n: nat)
    requires Canonical(s) && ParseDecimal(s) == n
    ensures s == DecimalString(n)
  {
    var last := s[|s| - 1];
    assert last in s;
    var d := last as int - '0' as int;
    if |s| == 1 {
      assert n == d;
      assert DigitChar(d) == last;
    } else {
      var front := s[..|s| - 1];
      assert front[0] == s[0];
      assert forall c <- front :: c in s;
      LeadingDigitPositive(front);
      assert n / 10 == ParseDecimal(front) && n % 10 == d;
      DecimalUnique(front, n / 10);
      assert s == front + [last];
    }
  }

  /** `str(problem)`. */
  function ProblemLabel(p: Problem): string {
    p.title
  }

  /** With unique titles, two problems of the table print the same exactly when they are the same row. */
  lemma ProblemLabelsDistinguishProblems(t: Tables, p: Problem, q: Problem)
    requires ProblemsValid(t) && p in t.problems && q in t.problems
    ensures ProblemLabel(p) == ProblemLabel(q) <==> p == q
  {
    if ProblemLabel(p) == ProblemLabel(q) {
      var i :| 0 <= i < |t.problems| && t.problems[i] == p;
      var j :| 0 <= j < |t.problems| && t.problems[j] == q;
      assert i == j;
    }
  }

  /** `str(schema)`; `p` is the row's problem. */
  function SchemaLabel(p: Problem, s: Schema): string
    requires s.problem == p.id
  {
    "Schema for " + p.title + " (Order: " + DecimalString(s.order) + ")"
  }

  /** `str(solution)`; `p` is the row's problem. */
  function SolutionLabel(p: Problem, s: Solution): string
    requires s.problem == p.id
  {
    "Solution for " + p.title
  }

  /**
   * The order written in a schema's text is canonical decimal (at least
   * one digit, no leading zero) and reads back as that order; by
   * `DecimalUnique` no other digit string has both properties.
   */
  lemma SchemaLabelReadsBack(p: Problem, s: Schema)
    requires s.problem == p.id
    ensures var text := SchemaLabel(p, s);
            var start := |"Schema for " + p.title + " (Order: "|;
            && start < |text|
            && text[..start] == "Schema for " + p.title + " (Order: "
            && text[|text| - 1] == ')'
            && (forall c <- text[start..|text| - 1] :: IsDigit(c))
            && (text[start] == '0' ==> start + 1 == |text| - 1)
            && Canonical(text[start..|text| - 1])
            && ParseDecimal(text[start..|text| - 1]) == s.order
  {
    var text := SchemaLabel(p, s);
    var prefix := "Schema for " + p.title + " (Order: ";
    assert text == prefix + DecimalString(s.order) + ")";
    assert text[|prefix|..|text| - 1] == DecimalString(s.order);
    DecimalRoundTrip(s.order);
  }

  /** Two schemas of one problem have the same text exactly when they have the same order. */
  lemma SchemaLabelsDistinguishOrders(p: Problem, a: Schema, b: Schema)
    requires a.problem == p.id && b.problem == p.id
    ensures SchemaLabel(p, a) == SchemaLabel(p, b) <==> a.order == b.order
  {
    if SchemaLabel(p, a) == SchemaLabel(p, b) {
      SchemaLabelReadsBack(p, a);
      SchemaLabelReadsBack(p, b);
    }
  }

  /** With unique titles, a solution's text names its problem unambiguously. */
  lemma SolutionLabelsDistinguishProblems(t: Tables, p: Problem, q: Problem, s: Solution, u: Solution)
    requires ProblemsValid(t) && p in t.problems && q in t.problems
    requires s.problem == p.id && u.problem == q.id
    ensures SolutionLabel(p, s) == SolutionLabel(q, u) <==> p == q
  {
    var prefix := "Solution for ";
    if SolutionLabel(p, s) == SolutionLabel(q, u) {
      assert p.title == SolutionLabel(p, s)[|prefix|..];
      assert q.title == SolutionLabel(q, u)[|prefix|..];
      var i :| 0 <= i < |t.problems| && t.problems[i] == p;
      var j :| 0 <= j < |t.problems| && t.problems[j] == q;
      assert i == j;
    }
  }
}
