/**
 * The problem page of the practice application (`problem_detail`): a GET
 * shows the problem; "run" executes the problem's schema scripts and the
 * user's query and shows the rows or the error; "submit" does the same,
 * then runs the reference solution and records a verdict message.
 *
 * The database is an oracle: given the statements that are already in
 * effect (those committed so far followed by those of the open
 * transaction) and a statement's text, it answers with an error or with a
 * column description and the outcome of fetching the rows.
 */
module Views {
  import opened Models

  // ---------------------------------------------------------------------
  // The database as an oracle
  // ---------------------------------------------------------------------

  /** A value of a fetched row, as the driver hands it to Python. */
  datatype Value = Null | Bool(b: bool) | Int(i: int) | Text(s: string)

  /** A fetched row: a Python tuple. */
  type Row = seq<Value>

  /** One entry of `cursor.description`; `name` is its first component. */
  datatype Column = Column(name: string, typeCode: int)

  /** The outcome of `cursor.fetchall()` after a statement that executed. */
  datatype Fetch = Rows(rows: seq<Row>) | FetchFailed(message: string)

  /** What the database answers to one `cursor.execute`. */
  datatype StatementResult =
    | Failed(message: string)
    | Succeeded(description: Option<seq<Column>>, fetch: Fetch)

  /** The database: the statements in effect, and the statement to execute. */
  type Oracle = (seq<string>, string) -> StatementResult

  // ---------------------------------------------------------------------
  // Executing the schema scripts and a query in one transaction
  // ---------------------------------------------------------------------

  /** How far a list of scripts got: all of them, or stopped where script `at` failed. */
  datatype Trace = Completed | Stopped(at: nat, message: string)

  /** The scripts executed in order on top of `base`, stopping at the first error. */
  function RunScripts(oracle: Oracle, base: seq<string>, scripts: seq<string>): (r: Trace)
    ensures r.Stopped? ==> r.at < |scripts|
  {
    if scripts == [] then Completed
    else
      var n := |scripts| - 1;
      var before := RunScripts(oracle, base, scripts[..n]);
      if before.Stopped? then before
      else if oracle(base + scripts[..n], scripts[n]).Failed? then Stopped(n, oracle(base + scripts[..n], scripts[n]).message)
      else Completed
  }

  /** True when script `i` executes without error after the scripts before it. */
  predicate ScriptSucceeds(oracle: Oracle, base: seq<string>, scripts: seq<string>, i: nat)
    requires i < |scripts|
  {
    oracle(base + scripts[..i], scripts[i]).Succeeded?
  }

  /**
   * The scripts complete exactly when each succeeds on top of those
   * before it; otherwise they stop at the first script that fails, with
   * its message.
   */
  lemma {:induction false} RunScriptsSpec(oracle: Oracle, base: seq<string>, scripts: seq<string>)
    ensures var r := RunScripts(oracle, base, scripts);
      && (r.Completed? <==> forall i :: 0 <= i < |scripts| ==> ScriptSucceeds(oracle, base, scripts, i))
      && (r.Stopped? ==>
            && r.at < |scripts|
            && (forall i :: 0 <= i < r.at ==> ScriptSucceeds(oracle, base, scripts, i))
            && oracle(base + scripts[..r.at], scripts[r.at]) == Failed(r.message))
  {
    if scripts != [] {
      var n := |scripts| - 1;
      var prefix := scripts[..n];
      RunScriptsSpec(oracle, base, prefix);
      forall i | 0 <= i < n
        ensures ScriptSucceeds(oracle, base, prefix, i) == ScriptSucceeds(oracle, base, scripts, i)
      {
        assert prefix[..i] == scripts[..i];
      }
      var before := RunScripts(oracle, base, prefix);
      if before.Stopped? {
        assert prefix[..before.at] == scripts[..before.at];
        assert !ScriptSucceeds(oracle, base, scripts, before.at);
      } else if !ScriptSucceeds(oracle, base, scripts, n) {
        assert RunScripts(oracle, base, scripts) == Stopped(n, oracle(base + prefix, scripts[n]).message);
      }
    }
  }

  /** Once a prefix of the scripts stops, the whole list stops at the same script. */
  lemma {:induction false} RunScriptsStopped(oracle: Oracle, base: seq<string>, scripts: seq<string>, k: nat)
    requires k <= |scripts| && RunScripts(oracle, base, scripts[..k]).Stopped?
    ensures RunScripts(oracle, base, scripts) == RunScripts(oracle, base, scripts[..k])
  {
    if k < |scripts| {
      var n := |scripts| - 1;
      assert scripts[..n][..k] == scripts[..k];
      RunScriptsStopped(oracle, base, scripts[..n], k);
    } else {
      assert scripts[..k] == scripts;
    }
  }

  /** The outcome of the user's query: its rows, or the text of the database error. */
  datatype Outcome = Fetched(description: Option<seq<Column>>, rows: seq<Row>) | DbError(message: string)

  /** The statements sent to the database, and the outcome. */
  datatype Attempt = Attempt(sent: seq<string>, outcome: Outcome)

  /** The schema scripts, then the query, then fetching its rows, on top of `base`. */
  function Query(oracle: Oracle, base: seq<string>, scripts: seq<string>, query: string): Attempt {
    match RunScripts(oracle, base, scripts)
    case Stopped(at, message) => Attempt(scripts[..at + 1], DbError(message))
    case Completed =>
      var sent := scripts + [query];
      match oracle(base + scripts, query)
      case Failed(message) => Attempt(sent, DbError(message))
      case Succeeded(description, Rows(rows)) => Attempt(sent, Fetched(description, rows))
      case Succeeded(_, FetchFailed(message)) => Attempt(sent, DbError(message))
  }

  /**
   * The statements are sent in order, scripts first and the query last,
   * and nothing is sent after the first error: the rows are fetched
   * exactly when every script and the query execute and the fetch works;
   * otherwise the error is the one of the last statement sent.
   */
  lemma QuerySpec(oracle: Oracle, base: seq<string>, scripts: seq<string>, query: string)
    ensures var a := Query(oracle, base, scripts, query);
      && 0 < |a.sent| <= |scripts| + 1
      && a.sent == (scripts + [query])[..|a.sent|]
      && (forall i :: 0 <= i < |a.sent| - 1 ==> oracle(base + a.sent[..i], a.sent[i]).Succeeded?)
      && (a.outcome.Fetched? <==>
            && (forall i :: 0 <= i < |scripts| ==> ScriptSucceeds(oracle, base, scripts, i))
            && oracle(base + scripts, query).Succeeded?
            && oracle(base + scripts, query).fetch.Rows?)
      && (a.outcome.Fetched? ==>
            && a.sent == scripts + [query]
            && oracle(base + scripts, query) == Succeeded(a.outcome.description, Rows(a.outcome.rows)))
      && (a.outcome.DbError? ==>
            var last := |a.sent| - 1;
            var r := oracle(base + a.sent[..last], a.sent[last]);
            r == Failed(a.outcome.message) || (last == |scripts| && r.Succeeded? && r.fetch == FetchFailed(a.outcome.message)))
  {
    RunScriptsSpec(oracle, base, scripts);
    var a := Query(oracle, base, scripts, query);
    var all := scripts + [query];
    assert all[..|scripts|] == scripts;
    forall i | 0 <= i < |a.sent|
      ensures a.sent[..i] == scripts[..i] || i == |scripts|
    {
      if i < |scripts| {
        assert a.sent[..i] == all[..i];
      }
    }
    forall i | 0 <= i < |a.sent| - 1
      ensures oracle(base + a.sent[..i], a.sent[i]).Succeeded?
    {
      assert a.sent[..i] == scripts[..i] && a.sent[i] == scripts[i];
      assert ScriptSucceeds(oracle, base, scripts, i);
    }
    if a.sent == all {
      assert a.sent[..|a.sent| - 1] == scripts;
    }
  }

  // ---------------------------------------------------------------------
  // The verdict: Python's `==` on the fetched lists
  // ---------------------------------------------------------------------

  /** The number a boolean or integer stands for (`True == 1` in Python). */
  function Numeric(v: Value): int
    requires v.Bool? || v.Int?
  {
    if v.Bool? then (if v.b then 1 else 0) else v.i
  }

  /** Python's `==` on two values: None only equals None, text only text, booleans and integers by number. */
  predicate ValueEq(x: Value, y: Value) {
    match x
    case Null => y.Null?
    case Text(s) => y.Text? && y.s == s
    case _ => (y.Bool? || y.Int?) && Numeric(x) == Numeric(y)
  }

  /**
   * Python's `==` on two lists or tuples: unequal lengths differ;
   * otherwise the items are compared front to back and the first pair
   * that differs decides.
   */
  predicate SeqEq<T>(a: seq<T>, b: seq<T>, eq: (T, T) -> bool) {
    |a| == |b| && (a == [] || (eq(a[0], b[0]) && SeqEq(a[1..], b[1..], eq)))
  }

  /** `==` on two fetched rows (tuples). */
  predicate RowEq(x: Row, y: Row) {
    SeqEq(x, y, ValueEq)
  }

  /** `user_results == solution_results`. */
  predicate RowsEqual(user: seq<Row>, solution: seq<Row>) {
    SeqEq(user, solution, RowEq)
  }

  lemma {:induction false} SeqEqSpec<T>(a: seq<T>, b: seq<T>, eq: (T, T) -> bool)
    ensures SeqEq(a, b, eq) <==> |a| == |b| && forall i :: 0 <= i < |a| ==> eq(a[i], b[i])
  {
    if a != [] && |a| == |b| {
      SeqEqSpec(a[1..], b[1..], eq);
      if forall i :: 0 <= i < |a| ==> eq(a[i], b[i]) {
        assert forall i :: 0 <= i < |a| - 1 ==> eq(a[1..][i], b[1..][i]) by {
          forall i | 0 <= i < |a| - 1 ensures eq(a[1..][i], b[1..][i]) {
            assert eq(a[i + 1], b[i + 1]);
          }
        }
      }
    }
  }

  /**
   * The verdict compares the lists exactly: the same number of rows, and
   * row by row, in order, tuples of the same length whose values are
   * equal as Python compares them.
   */
  lemma RowsEqualSpec(user: seq<Row>, solution: seq<Row>)
    ensures RowsEqual(user, solution) <==>
      && |user| == |solution|
      && forall i :: 0 <= i < |user| ==>
           && |user[i]| == |solution[i]|
           && forall j :: 0 <= j < |user[i]| ==> ValueEq(user[i][j], solution[i][j])
  {
    SeqEqSpec(user, solution, RowEq);
    forall i | 0 <= i < |user| && i < |solution| {
      SeqEqSpec(user[i], solution[i], ValueEq);
    }
  }

  /** The verdict's equality is an equivalence: reflexive, symmetric and transitive. */
  lemma RowsEqualEquivalence(a: seq<Row>, b: seq<Row>, c: seq<Row>)
    ensures RowsEqual(a, a)
    ensures RowsEqual(a, b) ==> RowsEqual(b, a)
    ensures RowsEqual(a, b) && RowsEqual(b, c) ==> RowsEqual(a, c)
  {
    RowsEqualSpec(a, a);
    RowsEqualSpec(a, b);
    RowsEqualSpec(b, a);
    RowsEqualSpec(b, c);
    RowsEqualSpec(a, c);
  }

  /** An example: two lists holding the same rows in another order are judged different. */
  lemma OrderMatters()
    ensures var user := [[Int(2)], [Int(1)]];
      var solution := [[Int(1)], [Int(2)]];
      multiset(user) == multiset(solution) && !RowsEqual(user, solution)
  {
    var user: seq<Row> := [[Int(2)], [Int(1)]];
    var solution: seq<Row> := [[Int(1)], [Int(2)]];
    assert !ValueEq(user[0][0], solution[0][0]);
    calc {
      multiset(user);
      multiset([[Int(2)]]) + multiset([[Int(1)]]);
      multiset(solution);
    }
  }

  /** An example: two lists with the same set of rows but another multiplicity are judged different. */
  lemma DuplicatesMatter()
    ensures var user := [[Int(1)], [Int(2)]];
      var solution := [[Int(1)], [Int(1)], [Int(2)]];
      (set r | r in user) == (set r | r in solution) && !RowsEqual(user, solution)
  {
    var user: seq<Row> := [[Int(1)], [Int(2)]];
    var solution: seq<Row> := [[Int(1)], [Int(1)], [Int(2)]];
    assert |user| != |solution|;
    assert (set r | r in user) == (set r | r in solution) by {
      assert solution[1] == user[0];
    }
  }

  /** Python compares `True` and `1` as equal, so such rows match. */
  lemma BooleanMatchesInteger()
    ensures RowsEqual([[Bool(true), Text("a")]], [[Int(1), Text("a")]])
  {
    var user: seq<Row> := [[Bool(true), Text("a")]];
    var solution: seq<Row> := [[Int(1), Text("a")]];
    RowsEqualSpec(user, solution);
    assert ValueEq(user[0][0], solution[0][0]) && ValueEq(user[0][1], solution[0][1]);
  }

  // ---------------------------------------------------------------------
  // What the page shows and what it reports
  // ---------------------------------------------------------------------

  const UserQueryKey := "user_query"
  const ActionKey := "action"
  const CorrectText := "Correct! Your solution is accurate."
  const IncorrectText := "Incorrect. The results did not match the expected solution."
  const NoSolutionText := "This problem does not have a solution configured yet."
  const DatabaseErrorPrefix := "Database Error: "

  /** The template context. */
  datatype Context = Context(
    problem: Problem,
    userQuery: string,
    queryResults: Option<seq<Row>>,
    columnHeaders: seq<string>,
    queryError: Option<string>)

  datatype Level = Success | Error

  /** A flash message. */
  datatype Message = Message(level: Level, text: string)

  datatype Request = Request(httpMethod: string, post: map<string, string>)

  datatype Response = NotFound | Render(context: Context) | Redirect(problem: ProblemId)

  /** `session.pop('user_query', '')`'s value. */
  function Stored(session: map<string, string>): string {
    if UserQueryKey in session then session[UserQueryKey] else ""
  }

  /** `request.POST.get('user_query', '')`. */
  function Submitted(request: Request): string {
    if UserQueryKey in request.post then request.post[UserQueryKey] else ""
  }

  /** `request.POST.get('action')`. */
  function Action(request: Request): Option<string> {
    if ActionKey in request.post then Some(request.post[ActionKey]) else None
  }

  /** The context every branch starts from. */
  function InitialContext(p: Problem, userQuery: string): Context {
    Context(p, userQuery, None, [], None)
  }

  /** The first component of each description entry; none without a description. */
  function Headers(description: Option<seq<Column>>): seq<string> {
    match description
    case None => []
    case Some(columns) => seq(|columns|, i requires 0 <= i < |columns| => columns[i].name)
  }

  /** The context after "run": the rows and headers, or the error text. */
  function RunContext(p: Problem, userQuery: string, outcome: Outcome): Context {
    match outcome
    case Fetched(description, rows) => InitialContext(p, userQuery).(queryResults := Some(rows), columnHeaders := Headers(description))
    case DbError(message) => InitialContext(p, userQuery).(queryError := Some(message))
  }

  /**
   * The context after "run" shows the submitted query; it holds either
   * the rows with one header per description entry, each that entry's
   * name, or the error text with no rows and no headers, never both.
   */
  lemma RunContextSpec(p: Problem, userQuery: string, outcome: Outcome)
    ensures var c := RunContext(p, userQuery, outcome);
      && c.problem == p && c.userQuery == userQuery
      && (c.queryResults.Some? <==> c.queryError.None?)
      && (outcome.DbError? ==> c.queryError == Some(outcome.message) && c.queryResults.None? && c.columnHeaders == [])
      && (outcome.Fetched? ==>
            && c.queryResults == Some(outcome.rows)
            && (outcome.description.None? ==> c.columnHeaders == [])
            && (outcome.description.Some? ==>
                  && |c.columnHeaders| == |outcome.description.value|
                  && forall i :: 0 <= i < |c.columnHeaders| ==> c.columnHeaders[i] == outcome.description.value[i].name))
  {
  }

  /** What "submit" sends, reports and leaves committed. */
  datatype Submission = Submission(sent: seq<string>, message: Message, committed: seq<string>)

  /**
   * "submit": the scripts and the user's query in one transaction; then,
   * in the same transaction, the reference query when there is a
   * non-empty one. An error rolls everything back; otherwise the
   * transaction commits.
   */
  function Submit(oracle: Oracle, base: seq<string>, scripts: seq<string>, userQuery: string, solution: Option<Solution>): Submission {
    var a := Query(oracle, base, scripts, userQuery);
    match a.outcome
    case DbError(message) => Submission(a.sent, Message(Error, DatabaseErrorPrefix + message), [])
    case Fetched(_, userRows) =>
      if solution.None? || solution.value.query == "" then Submission(a.sent, Message(Error, NoSolutionText), a.sent)
      else
        var reference := solution.value.query;
        var sent := a.sent + [reference];
        match oracle(base + a.sent, reference)
        case Failed(message) => Submission(sent, Message(Error, DatabaseErrorPrefix + message), [])
        case Succeeded(_, FetchFailed(message)) => Submission(sent, Message(Error, DatabaseErrorPrefix + message), [])
        case Succeeded(_, Rows(solutionRows)) =>
          var verdict := if RowsEqual(userRows, solutionRows) then Message(Success, CorrectText) else Message(Error, IncorrectText);
          Submission(sent, verdict, sent)
  }

  /**
   * When a script or the user's query fails, the reference query is
   * never sent, nothing is committed, and the one message is the
   * database error.
   */
  lemma SubmitStopsAtError(oracle: Oracle, base: seq<string>, scripts: seq<string>, userQuery: string, solution: Option<Solution>)
    requires Query(oracle, base, scripts, userQuery).outcome.DbError?
    ensures var r := Submit(oracle, base, scripts, userQuery, solution);
      && r.sent == Query(oracle, base, scripts, userQuery).sent
      && |r.sent| <= |scripts| + 1 && r.sent == (scripts + [userQuery])[..|r.sent|]
      && r.message == Message(Error, DatabaseErrorPrefix + Query(oracle, base, scripts, userQuery).outcome.message)
      && r.committed == []
  {
    QuerySpec(oracle, base, scripts, userQuery);
  }

  /**
   * When the user's query works but the problem has no reference query,
   * or an empty one, nothing more is sent, the scripts and the user's
   * query are committed, and the message says no solution is configured.
   */
  lemma SubmitWithoutSolution(oracle: Oracle, base: seq<string>, scripts: seq<string>, userQuery: string, solution: Option<Solution>)
    requires Query(oracle, base, scripts, userQuery).outcome.Fetched?
    requires solution.None? || solution.value.query == ""
    ensures var r := Submit(oracle, base, scripts, userQuery, solution);
      && r.sent == scripts + [userQuery]
      && r.committed == r.sent
      && r.message == Message(Error, NoSolutionText)
  {
    QuerySpec(oracle, base, scripts, userQuery);
  }

  /**
   * When the user's query and the reference query both yield rows, the
   * reference runs after the user's query in the same transaction, and
   * the message is "Correct" exactly when the two lists are equal, in
   * order and with the same multiplicities; otherwise "Incorrect".
   */
  lemma SubmitVerdict(oracle: Oracle, base: seq<string>, scripts: seq<string>, userQuery: string, solution: Solution)
    requires Query(oracle, base, scripts, userQuery).outcome.Fetched?
    requires solution.query != ""
    requires oracle(base + scripts + [userQuery], solution.query).Succeeded?
    requires oracle(base + scripts + [userQuery], solution.query).fetch.Rows?
    ensures var r := Submit(oracle, base, scripts, userQuery, Some(solution));
      var userRows := Query(oracle, base, scripts, userQuery).outcome.rows;
      var solutionRows := oracle(base + scripts + [userQuery], solution.query).fetch.rows;
      && r.sent == scripts + [userQuery, solution.query]
      && r.committed == r.sent
      && (r.message == Message(Success, CorrectText) <==>
            && |userRows| == |solutionRows|
            && forall i :: 0 <= i < |userRows| ==>
                 && |userRows[i]| == |solutionRows[i]|
                 && forall j :: 0 <= j < |userRows[i]| ==> ValueEq(userRows[i][j], solutionRows[i][j]))
      && (r.message != Message(Success, CorrectText) ==> r.message == Message(Error, IncorrectText))
  {
    QuerySpec(oracle, base, scripts, userQuery);
    assert base + scripts + [userQuery] == base + (scripts + [userQuery]);
    assert scripts + [userQuery] + [solution.query] == scripts + [userQuery, solution.query];
    RowsEqualSpec(Query(oracle, base, scripts, userQuery).outcome.rows, oracle(base + scripts + [userQuery], solution.query).fetch.rows);
  }

  /** The scripts of a problem's schemas, in the order given. */
  function Scripts(schemas: seq<Schema>): (r: seq<string>)
    ensures |r| == |schemas| && forall i :: 0 <= i < |r| ==> r[i] == schemas[i].script
  {
    seq(|schemas|, i requires 0 <= i < |schemas| => schemas[i].script)
  }

  /**
   * The scripts a request runs for a problem: one per schema row of the
   * problem and each such row exactly once, in strictly ascending `order`.
   */
  lemma ProblemScripts(t: Tables, id: ProblemId)
    requires SchemasValid(t)
    ensures var rows := SchemasOf(t, id);
      var r := Scripts(rows);
      && |r| == |OfProblem(t.schemas, id)|
      && (forall i :: 0 <= i < |r| ==> rows[i] in t.schemas && rows[i].problem == id && r[i] == rows[i].script)
      && (forall x :: x in t.schemas && x.problem == id ==> exists i :: 0 <= i < |r| && rows[i] == x && r[i] == x.script)
      && (forall i, j :: 0 <= i < j < |r| ==> rows[i].order < rows[j].order)
  {
    var rows := SchemasOf(t, id);
    SchemasOfOrdered(t, id);
    assert |rows| == |multiset(rows)| == |multiset(OfProblem(t.schemas, id))| == |OfProblem(t.schemas, id)|;
    forall x | x in t.schemas && x.problem == id
      ensures exists i :: 0 <= i < |rows| && rows[i] == x && Scripts(rows)[i] == x.script
    {
      assert x in rows;
      var i :| 0 <= i < |rows| && rows[i] == x;
    }
  }

  // ---------------------------------------------------------------------
  // The request handler
  // ---------------------------------------------------------------------

  /**
   * The state one request handler sees and changes: the session of the
   * requesting user, the flash messages queued for them, the statements
   * committed to the database, those of the open transaction, and a log
   * of every statement sent.
   */
  class Site {
    const oracle: Oracle
    var session: map<string, string>
    var messages: seq<Message>
    var committed: seq<string>
    var pending: seq<string>
    var log: seq<string>

    constructor (oracle: Oracle, session: map<string, string>, committed: seq<string>)
      ensures this.oracle == oracle && this.session == session && this.committed == committed
      ensures messages == [] && pending == [] && log == []
    {
      this.oracle := oracle;
      this.session := session;
      this.committed := committed;
      messages, pending, log := [], [], [];
    }

    /** `cursor.execute` inside the open transaction. */
    method Execute(text: string) returns (r: StatementResult)
      modifies this
      ensures r == oracle(old(committed + pending), text)
      ensures log == old(log) + [text]
      ensures pending == old(pending) + (if r.Succeeded? then [text] else [])
      ensures committed == old(committed) && session == old(session) && messages == old(messages)
    {
      r := oracle(committed + pending, text);
      log := log + [text];
      if r.Succeeded? {
        pending := pending + [text];
      }
    }

    /** The end of an `atomic` block left normally. */
    method Commit()
      modifies this
      ensures committed == old(committed) + old(pending) && pending == []
      ensures log == old(log) && session == old(session) && messages == old(messages)
    {
      committed := committed + pending;
      pending := [];
    }

    /** The end of an `atomic` block left by an exception. */
    method Rollback()
      modifies this
      ensures pending == []
      ensures committed == old(committed) && log == old(log) && session == old(session) && messages == old(messages)
    {
      pending := [];
    }

    /** The schema loop and the user's query, inside a transaction opened with nothing pending. */
    method ExecuteQuery(scripts: seq<string>, query: string) returns (a: Attempt)
      requires pending == []
      modifies this
      ensures a == Query(oracle, old(committed), scripts, query)
      ensures log == old(log) + a.sent && |a.sent| > 0
      ensures a.outcome.Fetched? ==> pending == a.sent
      ensures a.outcome.DbError? ==> pending <= a.sent && |a.sent| - 1 <= |pending|
      ensures a.outcome.DbError? && |pending| < |a.sent| ==> oracle(old(committed) + pending, a.sent[|pending|]).Failed?

      ensures committed == old(committed) && session == old(session) && messages == old(messages)
    {
      ghost var base := committed;
      for i := 0 to |scripts|
        invariant RunScripts(oracle, base, scripts[..i]) == Completed
        invariant pending == scripts[..i] && log == old(log) + scripts[..i]
        invariant committed == base && session == old(session) && messages == old(messages)
      {
        assert scripts[..i + 1][..i] == scripts[..i];
        var r := Execute(scripts[i]);
        if r.Failed? {
          assert RunScripts(oracle, base, scripts[..i + 1]) == Stopped(i, r.message);
          RunScriptsStopped(oracle, base, scripts, i + 1);
          assert scripts[..i + 1] == scripts[..i] + [scripts[i]];
          assert pending == scripts[..i] && scripts[..i + 1][i] == scripts[i];
          return Attempt(scripts[..i + 1], DbError(r.message));
        }
        assert scripts[..i + 1] == scripts[..i] + [scripts[i]];
      }
      assert scripts[..|scripts|] == scripts;
      var r := Execute(query);
      match r
      case Failed(message) =>
        assert pending == scripts && (scripts + [query])[|scripts|] == query;
        a := Attempt(scripts + [query], DbError(message));
      case Succeeded(description, Rows(rows)) =>
        a := Attempt(scripts + [query], Fetched(description, rows));
      case Succeeded(_, FetchFailed(message)) =>
        a := Attempt(scripts + [query], DbError(message));
    }

    /** `request.session.pop('user_query', '')`. */
    method PopUserQuery() returns (userQuery: string)
      modifies this
      ensures userQuery == Stored(old(session))
      ensures session == old(session) - {UserQueryKey}
      ensures messages == old(messages) && committed == old(committed) && pending == old(pending) && log == old(log)
    {
      userQuery := Stored(session);
      session := session - {UserQueryKey};
    }

    /**
     * `problem_detail`. A missing problem is "not found" before the
     * session is touched. Otherwise the stored query leaves the session;
     * a GET renders it and runs nothing; "run" renders the rows or the
     * error; "submit" stores the query back in the session, queues
     * exactly one message and redirects; any other action redirects
     * having run nothing.
     */
    method ProblemDetail(tables: Tables, problemId: ProblemId, request: Request) returns (response: Response)
      requires pending == []
      modifies this
      ensures pending == []
      ensures FindProblem(tables.problems, problemId).None? ==>
        && response == NotFound
        && session == old(session) && messages == old(messages) && committed == old(committed) && log == old(log)
      ensures FindProblem(tables.problems, problemId).Some? && request.httpMethod != "POST" ==>
        && response == Render(InitialContext(FindProblem(tables.problems, problemId).value, Stored(old(session))))
        && session == old(session) - {UserQueryKey}
        && messages == old(messages) && committed == old(committed) && log == old(log)
      ensures FindProblem(tables.problems, problemId).Some? && request.httpMethod == "POST" && Action(request) == Some("run") ==>
        var p := FindProblem(tables.problems, problemId).value;
        var a := Query(oracle, old(committed), Scripts(SchemasOf(tables, p.id)), Submitted(request));
        && response == Render(RunContext(p, Submitted(request), a.outcome))
        && session == old(session) - {UserQueryKey}
        && log == old(log) + a.sent
        && committed == old(committed) + (if a.outcome.Fetched? then a.sent else [])
        && messages == old(messages)
      ensures FindProblem(tables.problems, problemId).Some? && request.httpMethod == "POST" && Action(request) == Some("submit") ==>
        var p := FindProblem(tables.problems, problemId).value;
        var r := Submit(oracle, old(committed), Scripts(SchemasOf(tables, p.id)), Submitted(request), SolutionOf(tables, p.id));
        && response == Redirect(p.id)
        && session == old(session)[UserQueryKey := Submitted(request)]
        && messages == old(messages) + [r.message]
        && log == old(log) + r.sent
        && committed == old(committed) + r.committed
      ensures FindProblem(tables.problems, problemId).Some? && request.httpMethod == "POST" && Action(request) !in {Some("run"), Some("submit")} ==>
        && response == Redirect(problemId)
        && session == old(session) - {UserQueryKey}
        && messages == old(messages) && committed == old(committed) && log == old(log)
    {
      var found := FindProblem(tables.problems, problemId);
      if found.None? {
        return NotFound;
      }
      var p := found.value;
      var stored := PopUserQuery();
      var context := InitialContext(p, stored);
      if request.httpMethod != "POST" {
        return Render(context);
      }
      var submitted := Submitted(request);
      var action := Action(request);
      var scripts := Scripts(SchemasOf(tables, p.id));
      if action == Some("run") {
        context := RunQuery(context.(userQuery := submitted), scripts);
        return Render(context);
      } else if action == Some("submit") {
        session := session[UserQueryKey := submitted];
        assert session == old(session)[UserQueryKey := submitted];
        var message := SubmitQuery(scripts, submitted, SolutionOf(tables, p.id));
        messages := messages + [message];
        return Redirect(p.id);
      }
      return Redirect(p.id);
    }

    /** The `try` block of "run", filling in the context it is given. */
    method RunQuery(context: Context, scripts: seq<string>) returns (shown: Context)
      requires pending == [] && context == InitialContext(context.problem, context.userQuery)
      modifies this
      ensures var a := Query(oracle, old(committed), scripts, context.userQuery);
        && shown == RunContext(context.problem, context.userQuery, a.outcome)
        && log == old(log) + a.sent
        && committed == old(committed) + (if a.outcome.Fetched? then a.sent else [])
      ensures pending == [] && session == old(session) && messages == old(messages)
    {
      var a := ExecuteQuery(scripts, context.userQuery);
      match a.outcome
      case Fetched(description, rows) =>
        Commit();
        shown := context.(queryResults := Some(rows), columnHeaders := Headers(description));
      case DbError(message) =>
        Rollback();
        shown := context.(queryError := Some(message));
    }

    /** The `try` block of "submit": returns the one message it queues. */
    method SubmitQuery(scripts: seq<string>, userQuery: string, solution: Option<Solution>) returns (message: Message)
      requires pending == []
      modifies this
      ensures var r := Submit(oracle, old(committed), scripts, userQuery, solution);
        && message == r.message && log == old(log) + r.sent && committed == old(committed) + r.committed
      ensures pending == [] && session == old(session) && messages == old(messages)
    {
      ghost var base := committed;
      var a := ExecuteQuery(scripts, userQuery);
      if a.outcome.DbError? {
        Rollback();
        return Message(Error, DatabaseErrorPrefix + a.outcome.message);
      }
      if solution.None? || solution.value.query == "" {
        Commit();
        return Message(Error, NoSolutionText);
      }
      assert committed + pending == base + a.sent;
      var r := Execute(solution.value.query);
      match r
      case Failed(m) =>
        Rollback();
        message := Message(Error, DatabaseErrorPrefix + m);
      case Succeeded(_, FetchFailed(m)) =>
        Rollback();
        message := Message(Error, DatabaseErrorPrefix + m);
      case Succeeded(_, Rows(solutionRows)) =>
        Commit();
        if RowsEqual(a.outcome.rows, solutionRows) {
          message := Message(Success, CorrectText);
        } else {
          message := Message(Error, IncorrectText);
        }
    }
  }
}
