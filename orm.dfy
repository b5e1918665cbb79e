/**
 * The writes the seed command makes through Django's object managers:
 * `update_or_create` on Problem (keyed on the title) and on Solution
 * (keyed on the problem), `delete()` of a problem's schemas and
 * `create` of one schema row. Each write is a pure function on the
 * tables; the class `Database` holds the tables and performs the writes
 * in place, rejecting a write that breaks one of the modelled
 * constraints: a title over 200 characters, a missing problem, an order
 * already used.
 */
module Orm {
  import opened Models

  /** Position of the problem row whose title is `title`, if any. */
  function IndexOfTitle(problems: seq<Problem>, title: string): (r: Option<nat>)
    ensures r.Some? ==> r.value < |problems| && problems[r.value].title == title
    ensures r.None? ==> forall p <- problems :: p.title != title
  {
    if problems == [] then None
    else if problems[0].title == title then Some(0)
    else match IndexOfTitle(problems[1..], title)
      case None => None
      case Some(k) => Some(k + 1)
  }

  /** Position of the solution row of problem `id`, if any. */
  function IndexOfSolution(solutions: seq<Solution>, id: ProblemId): (r: Option<nat>)
    ensures r.Some? ==> r.value < |solutions| && solutions[r.value].problem == id
    ensures r.None? ==> forall s <- solutions :: s.problem != id
  {
    if solutions == [] then None
    else if solutions[0].problem == id then Some(0)
    else match IndexOfSolution(solutions[1..], id)
      case None => None
      case Some(k) => Some(k + 1)
  }

  /**
   * `Problem.objects.update_or_create(title=title, defaults=...)`: the row
   * with this title takes the new texts and keeps its id, or a new row is
   * added under `nextId`. Gives the tables and the row's id.
   */
  function UpsertProblem(t: Tables, title: string, description: string, explanation: string): (Tables, ProblemId) {
    match IndexOfTitle(t.problems, title)
    case Some(k) =>
      var id := t.problems[k].id;
      (t.(problems := t.problems[k := Problem(id, title, description, explanation)]), id)
    case None =>
      (t.(problems := t.problems + [Problem(t.nextId, title, description, explanation)], nextId := t.nextId + 1), t.nextId)
  }

  /** `Solution.objects.update_or_create(problem=id, defaults={'query': query})`. */
  function UpsertSolution(t: Tables, id: ProblemId, query: string): Tables {
    match IndexOfSolution(t.solutions, id)
    case Some(k) => t.(solutions := t.solutions[k := Solution(id, query)])
    case None => t.(solutions := t.solutions + [Solution(id, query)])
  }

  /** The schema rows that do not belong to problem `id`, in table order. */
  function Without(schemas: seq<Schema>, id: ProblemId): (r: seq<Schema>)
    ensures forall s :: s in r <==> s in schemas && s.problem != id
    ensures UniquePairs(schemas) ==> UniquePairs(r)
  {
    if schemas == [] then []
    else if schemas[0].problem == id then Without(schemas[1..], id)
    else
      var rest := Without(schemas[1..], id);
      assert UniquePairs(schemas) ==> UniquePairs(schemas[1..]);
      assert UniquePairs(schemas) ==> forall y <- rest ::
        y.problem != schemas[0].problem || y.order != schemas[0].order by {
        if UniquePairs(schemas) {
          forall y | y in rest
            ensures y.problem != schemas[0].problem || y.order != schemas[0].order
          {
            var k :| 0 <= k < |schemas[1..]| && schemas[1..][k] == y;
            assert schemas[k + 1] == y;
          }
        }
      }
      [schemas[0]] + rest
  }

  /** `problem.schemas.all().delete()`. */
  function ClearSchemas(t: Tables, id: ProblemId): Tables {
    t.(schemas := Without(t.schemas, id))
  }

  /** True when problem `id` already has a schema row at `order`. */
  predicate OrderTaken(t: Tables, id: ProblemId, order: nat) {
    exists s <- t.schemas :: s.problem == id && s.order == order
  }

  /** `Schema.objects.create(...)`: appends one row. */
  function AddSchema(t: Tables, s: Schema): Tables {
    t.(schemas := t.schemas + [s])
  }

  /**
   * The Problem upsert keeps the constraints, and afterwards exactly one
   * row carries the title: the returned one, holding the new texts, with
   * the id the title already had if it had one. Other problems' rows and
   * the other tables are untouched.
   */
  lemma UpsertProblemEffect(t: Tables, title: string, description: string, explanation: string)
    requires Valid(t) && |title| <= MaxTitleLength
    ensures var (t', id) := UpsertProblem(t, title, description, explanation);
      && Valid(t')
      && FindProblem(t'.problems, id) == Some(Problem(id, title, description, explanation))
      && (forall p <- t'.problems :: p.title == title ==> p.id == id)
      && (forall p <- t.problems :: p.title == title ==> p.id == id)
      && (forall p <- t.problems :: p.title != title ==> p in t'.problems)
      && (forall p <- t'.problems :: p.title != title ==> p in t.problems)
      && t'.schemas == t.schemas && t'.solutions == t.solutions
  {
    match IndexOfTitle(t.problems, title)
    case Some(k) =>
      ReplaceProblemEffect(t, k, Problem(t.problems[k].id, title, description, explanation));
    case None =>
      AppendProblemEffect(t, Problem(t.nextId, title, description, explanation));
  }

  /** The update branch of the Problem upsert. */
  lemma ReplaceProblemEffect(t: Tables, k: nat, row: Problem)
    requires Valid(t) && k < |t.problems|
    requires row.id == t.problems[k].id && row.title == t.problems[k].title
    ensures var t' := t.(problems := t.problems[k := row]);
      && Valid(t')
      && FindProblem(t'.problems, row.id) == Some(row)
      && (forall p <- t'.problems :: p.title == row.title ==> p.id == row.id)
      && (forall p <- t.problems :: p.title == row.title ==> p.id == row.id)
      && (forall p <- t.problems :: p.title != row.title ==> p in t'.problems)
      && (forall p <- t'.problems :: p.title != row.title ==> p in t.problems)
  {
    var t' := t.(problems := t.problems[k := row]);
    ReplaceProblemRow(t, k, row);
    forall p | p in t.problems && p.title == row.title ensures p.id == row.id {
      var i :| 0 <= i < |t.problems| && t.problems[i] == p;
      assert i == k;
    }
    forall p | p in t.problems && p.title != row.title ensures p in t'.problems {
      var i :| 0 <= i < |t.problems| && t.problems[i] == p;
      assert t'.problems[i] == p;
    }
    forall p | p in t'.problems && p.title != row.title ensures p in t.problems {
      var i :| 0 <= i < |t'.problems| && t'.problems[i] == p;
      assert t.problems[i] == p;
    }
    assert t'.problems[k] == row;
    FindProblemUnique(t', row);
  }

  /** The create branch of the Problem upsert. */
  lemma AppendProblemEffect(t: Tables, row: Problem)
    requires Valid(t) && row.id == t.nextId && |row.title| <= MaxTitleLength
    requires forall p <- t.problems :: p.title != row.title
    ensures var t' := t.(problems := t.problems + [row], nextId := t.nextId + 1);
      && Valid(t')
      && FindProblem(t'.problems, row.id) == Some(row)
      && (forall p <- t'.problems :: p.title == row.title ==> p.id == row.id)
      && (forall p <- t.problems :: p in t'.problems)
      && (forall p <- t'.problems :: p.title != row.title ==> p in t.problems)
  {
    var t' := t.(problems := t.problems + [row], nextId := t.nextId + 1);
    AppendProblemRow(t, row);
    assert t'.problems[|t.problems|] == row;
    FindProblemUnique(t', row);
  }

  /** Replacing a problem row by one with the same id and title keeps the constraints. */
  lemma ReplaceProblemRow(t: Tables, k: nat, row: Problem)
    requires Valid(t) && k < |t.problems|
    requires row.id == t.problems[k].id && row.title == t.problems[k].title
    ensures Valid(t.(problems := t.problems[k := row]))
  {
    var t' := t.(problems := t.problems[k := row]);
    forall id | HasProblem(t, id) ensures HasProblem(t', id) {
      var p :| p in t.problems && p.id == id;
      var i :| 0 <= i < |t.problems| && t.problems[i] == p;
      assert t'.problems[i].id == id;
    }
  }

  /** Appending a row under `nextId` with a title not yet used keeps the constraints. */
  lemma AppendProblemRow(t: Tables, row: Problem)
    requires Valid(t) && row.id == t.nextId && |row.title| <= MaxTitleLength
    requires forall p <- t.problems :: p.title != row.title
    ensures Valid(t.(problems := t.problems + [row], nextId := t.nextId + 1))
  {
    var t' := t.(problems := t.problems + [row], nextId := t.nextId + 1);
    forall id | HasProblem(t, id) ensures HasProblem(t', id) {
      var p :| p in t.problems && p.id == id;
      assert p in t'.problems;
    }
    forall i, j | 0 <= i < j < |t'.problems|
      ensures t'.problems[i].id != t'.problems[j].id && t'.problems[i].title != t'.problems[j].title
    {
      if j == |t.problems| {
        assert t'.problems[i] in t.problems;
      }
    }
  }

  /**
   * The Solution upsert keeps the constraints and leaves the problem with
   * exactly the given solution; other problems' solutions are untouched.
   */
  lemma UpsertSolutionEffect(t: Tables, id: ProblemId, query: string)
    requires Valid(t) && HasProblem(t, id)
    ensures var t' := UpsertSolution(t, id, query);
      && Valid(t')
      && SolutionOf(t', id) == Some(Solution(id, query))
      && (forall other: ProblemId :: other != id ==> SolutionOf(t', other) == SolutionOf(t, other))
      && t'.problems == t.problems && t'.schemas == t.schemas
  {
    var t' := UpsertSolution(t, id, query);
    var row := Solution(id, query);
    match IndexOfSolution(t.solutions, id)
    case Some(k) =>
      assert t'.solutions == t.solutions[k := row];
      assert t'.solutions[k] == row;
      SolutionOfUnique(t', row);
      forall other: ProblemId | other != id ensures SolutionOf(t', other) == SolutionOf(t, other) {
        SolutionOfElsewhere(t.solutions, k, row, other);
      }
    case None =>
      assert t'.solutions == t.solutions + [row];
      SolutionOfUnique(t', row);
      forall other: ProblemId | other != id ensures SolutionOf(t', other) == SolutionOf(t, other) {
        SolutionOfAppended(t.solutions, row, other);
      }
  }

  lemma {:induction false} SolutionOfUnique(t: Tables, s: Solution)
    requires forall i, j :: 0 <= i < j < |t.solutions| ==> t.solutions[i].problem != t.solutions[j].problem
    requires s in t.solutions
    ensures SolutionOf(t, s.problem) == Some(s)
  {
    var r := SolutionOf(t, s.problem);
    var i :| 0 <= i < |t.solutions| && t.solutions[i] == s;
    var j :| 0 <= j < |t.solutions| && t.solutions[j] == r.value;
    assert i == j;
  }

  lemma {:induction false} SolutionOfElsewhere(solutions: seq<Solution>, k: nat, row: Solution, other: ProblemId)
    requires k < |solutions| && solutions[k].problem == row.problem && row.problem != other
    ensures FindSolution(solutions[k := row], other) == FindSolution(solutions, other)
  {
    if k > 0 {
      assert solutions[k := row][1..] == solutions[1..][k - 1 := row];
      SolutionOfElsewhere(solutions[1..], k - 1, row, other);
    }
  }

  lemma {:induction false} SolutionOfAppended(solutions: seq<Solution>, row: Solution, other: ProblemId)
    requires row.problem != other
    ensures FindSolution(solutions + [row], other) == FindSolution(solutions, other)
  {
    if solutions != [] {
      assert (solutions + [row])[1..] == solutions[1..] + [row];
      SolutionOfAppended(solutions[1..], row, other);
    }
  }

  /** Deleting a problem's schemas keeps the constraints and leaves it with none. */
  lemma DeleteSchemasEffect(t: Tables, id: ProblemId)
    requires Valid(t)
    ensures var t' := ClearSchemas(t, id);
      && Valid(t')
      && (forall s <- t'.schemas :: s.problem != id)
      && (forall s <- t.schemas :: s.problem != id ==> s in t'.schemas)
      && t'.problems == t.problems && t'.solutions == t.solutions
  {
  }

  /** Creating a schema row that clashes with none keeps the constraints. */
  lemma AddSchemaValid(t: Tables, s: Schema)
    requires Valid(t) && HasProblem(t, s.problem) && !OrderTaken(t, s.problem, s.order)
    ensures Valid(AddSchema(t, s))
  {
    var t' := AddSchema(t, s);
    forall i, j | 0 <= i < j < |t'.schemas|
      ensures t'.schemas[i].problem != t'.schemas[j].problem || t'.schemas[i].order != t'.schemas[j].order
    {
      if j == |t.schemas| {
        assert t'.schemas[i] in t.schemas;
      }
    }
  }

  /**
   * The application's tables, updated in place. Each write either is
   * accepted and changes the tables as the matching function says, or is
   * rejected for breaking a modelled constraint and changes nothing.
   */
  class Database {
    var problems: seq<Problem>
    var schemas: seq<Schema>
    var solutions: seq<Solution>
    var nextId: ProblemId

    function Snapshot(): Tables
      reads this
    {
      Tables(problems, schemas, solutions, nextId)
    }

    predicate Valid()
      reads this
    {
      Models.Valid(Snapshot())
    }

    /** Empty tables; ids start at 1. */
    constructor ()
      ensures Valid() && Snapshot() == Tables([], [], [], 1)
    {
      problems, schemas, solutions, nextId := [], [], [], 1;
    }

    /** Fails, changing nothing, for a title longer than the column allows. */
    method UpdateOrCreateProblem(title: string, description: string, explanation: string) returns (id: Option<ProblemId>)
      requires Valid()
      modifies this
      ensures Valid()
      ensures |title| > MaxTitleLength ==> id == None && Snapshot() == old(Snapshot())
      ensures |title| <= MaxTitleLength ==>
        var (t', k) := UpsertProblem(old(Snapshot()), title, description, explanation);
        id == Some(k) && Snapshot() == t'
    {
      if |title| > MaxTitleLength {
        return None;
      }
      UpsertProblemEffect(Snapshot(), title, description, explanation);
      var (t', k) := UpsertProblem(Snapshot(), title, description, explanation);
      problems, nextId := t'.problems, t'.nextId;
      id := Some(k);
    }

    /** Fails, changing nothing, when the problem does not exist. */
    method UpdateOrCreateSolution(id: ProblemId, query: string) returns (ok: bool)
      requires Valid()
      modifies this
      ensures Valid()
      ensures ok == HasProblem(old(Snapshot()), id)
      ensures Snapshot() == if ok then UpsertSolution(old(Snapshot()), id, query) else old(Snapshot())
    {
      ok := HasProblem(Snapshot(), id);
      if ok {
        UpsertSolutionEffect(Snapshot(), id, query);
        solutions := UpsertSolution(Snapshot(), id, query).solutions;
      }
    }

    method DeleteSchemas(id: ProblemId)
      requires Valid()
      modifies this
      ensures Valid()
      ensures Snapshot() == ClearSchemas(old(Snapshot()), id)
    {
      DeleteSchemasEffect(Snapshot(), id);
      schemas := Without(schemas, id);
    }

    /** Fails, changing nothing, for a missing problem or an order the problem already uses. */
    method CreateSchema(id: ProblemId, script: string, order: nat) returns (ok: bool)
      requires Valid()
      modifies this
      ensures Valid()
      ensures ok == (HasProblem(old(Snapshot()), id) && !OrderTaken(old(Snapshot()), id, order))
      ensures Snapshot() == if ok then AddSchema(old(Snapshot()), Schema(id, script, order)) else old(Snapshot())
    {
      ok := HasProblem(Snapshot(), id) && !OrderTaken(Snapshot(), id, order);
      if ok {
        AddSchemaValid(Snapshot(), Schema(id, script, order));
        schemas := schemas + [Schema(id, script, order)];
      }
    }
  }
}
