/**
 * The `seed_problems` management command. It reads a directory of problem
 * folders, derives each problem's title from its folder name, skips the
 * folders that lack a description or a solution, upserts the Problem and
 * its Solution, and replaces the problem's schema rows with the non-blank
 * `schema*.sql` files, each stored under its index among those files.
 *
 * The filesystem is an input: the listing of the problems directory (None
 * when it is not a directory), each entry with its name, whether it is a
 * directory, and the files it holds with their contents.
 */
module Seeding {
  import opened Models
  import opened Orm

  datatype File = File(name: string, content: string)

  datatype Entry = Entry(name: string, isDir: bool, files: seq<File>)

  /** A schema row to be created: the script and the order it is stored under. */
  datatype Planned = Planned(order: nat, script: string)

  /** What the command writes for one problem folder. */
  datatype Seed = Seed(title: string, description: string, explanation: string, solution: string, plan: seq<Planned>)

  /** The tables after some seeds, and the title whose write the database refused, if any. */
  datatype Progress = Progress(tables: Tables, aborted: Option<string>)

  datatype Outcome = MissingDirectory | Finished | Aborted(title: string)

  const DescriptionFile := "description.md"
  const ExplanationFile := "solution_explanation.md"
  const SolutionFile := "solution.sql"

  // ---------------------------------------------------------------------
  // Names and their order
  // ---------------------------------------------------------------------

  /** Python's `<=` on strings: code point by code point, a prefix first. */
  predicate NameLe(a: string, b: string) {
    a == [] || (b != [] && (a[0] < b[0] || (a[0] == b[0] && NameLe(a[1..], b[1..]))))
  }

  lemma {:induction false} NameLeTotal(a: string, b: string)
    ensures NameLe(a, b) || NameLe(b, a)
  {
    if a != [] && b != [] && a[0] == b[0] {
      NameLeTotal(a[1..], b[1..]);
    }
  }

  lemma {:induction false} NameLeTransitive(a: string, b: string, c: string)
    requires NameLe(a, b) && NameLe(b, c)
    ensures NameLe(a, c)
  {
    if a != [] && b != [] && c != [] && a[0] == b[0] && b[0] == c[0] {
      NameLeTransitive(a[1..], b[1..], c[1..]);
    }
  }

  function EntryName(e: Entry): string { e.name }

  function FileName(f: File): string { f.name }

  predicate SortedBy<T>(s: seq<T>, key: T -> string) {
    forall i, j :: 0 <= i < j < |s| ==> NameLe(key(s[i]), key(s[j]))
  }

  function InsertByName<T>(x: T, s: seq<T>, key: T -> string): seq<T> {
    if s == [] then [x]
    else if NameLe(key(x), key(s[0])) then [x] + s
    else [s[0]] + InsertByName(x, s[1..], key)
  }

  lemma {:induction false} InsertByNameElements<T>(x: T, s: seq<T>, key: T -> string)
    ensures multiset(InsertByName(x, s, key)) == multiset(s) + multiset{x}
    ensures forall y <- InsertByName(x, s, key) :: y == x || y in s
  {
    if s != [] {
      assert s == [s[0]] + s[1..];
      if !NameLe(key(x), key(s[0])) {
        InsertByNameElements(x, s[1..], key);
      }
    }
  }

  lemma SortedCons<T>(y: T, rest: seq<T>, key: T -> string)
    requires SortedBy(rest, key) && forall z <- rest :: NameLe(key(y), key(z))
    ensures SortedBy([y] + rest, key)
  {
    var r := [y] + rest;
    forall i, j | 0 <= i < j < |r| ensures NameLe(key(r[i]), key(r[j])) {
      if i == 0 {
        assert r[j] == rest[j - 1] && rest[j - 1] in rest;
      } else {
        assert r[i] == rest[i - 1] && r[j] == rest[j - 1];
      }
    }
  }

  lemma {:induction false} InsertByNameSorts<T>(x: T, s: seq<T>, key: T -> string)
    requires SortedBy(s, key)
    ensures SortedBy(InsertByName(x, s, key), key)
    ensures multiset(InsertByName(x, s, key)) == multiset(s) + multiset{x}
  {
    InsertByNameElements(x, s, key);
    if s != [] {
      if NameLe(key(x), key(s[0])) {
        forall z <- s ensures NameLe(key(x), key(z)) {
          var j :| 0 <= j < |s| && s[j] == z;
          if j > 0 {
            NameLeTransitive(key(x), key(s[0]), key(z));
          }
        }
        SortedCons(x, s, key);
      } else {
        NameLeTotal(key(x), key(s[0]));
        var rest := InsertByName(x, s[1..], key);
        InsertByNameSorts(x, s[1..], key);
        InsertByNameElements(x, s[1..], key);
        forall z <- rest ensures NameLe(key(s[0]), key(z)) {
          if z != x {
            var j :| 1 <= j < |s| && s[j] == z;
          }
        }
        SortedCons(s[0], rest, key);
      }
    }
  }

  /** Python's `sorted(s, key=key)`: a permutation of `s` in ascending name order. */
  function SortByName<T(==)>(s: seq<T>, key: T -> string): (r: seq<T>)
    ensures SortedBy(r, key) && multiset(r) == multiset(s)
  {
    if s == [] then []
    else
      assert s == [s[0]] + s[1..];
      InsertByNameSorts(s[0], SortByName(s[1..], key), key);
      InsertByName(s[0], SortByName(s[1..], key), key)
  }

  // ---------------------------------------------------------------------
  // Title derivation: `name.replace('_', ' ').title()`
  // ---------------------------------------------------------------------

  predicate IsUpper(c: char) { 'A' <= c <= 'Z' }

  predicate IsLower(c: char) { 'a' <= c <= 'z' }

  /** Cased characters; only the ASCII letters are modelled. */
  predicate IsCased(c: char) { IsUpper(c) || IsLower(c) }

  function ToUpper(c: char): char {
    if IsLower(c) then (c as int - 32) as char else c
  }

  function ToLower(c: char): char {
    if IsUpper(c) then (c as int + 32) as char else c
  }

  function Underscored(name: string): string {
    seq(|name|, i requires 0 <= i < |name| => if name[i] == '_' then ' ' else name[i])
  }

  /**
   * CPython's title-casing loop: a character following a cased one is
   * lowered, any other is raised.
   */
  function TitleFrom(s: string, previousCased: bool): string {
    if s == [] then []
    else
      var c := if previousCased then ToLower(s[0]) else ToUpper(s[0]);
      [c] + TitleFrom(s[1..], IsCased(c))
  }

  function TitleCase(s: string): string {
    TitleFrom(s, false)
  }

  /** The title a problem folder named `name` gets. */
  function ProblemTitle(name: string): string {
    TitleCase(Underscored(name))
  }

  /** Position `i` begins a word: it is first, or follows an uncased character. */
  predicate StartsWord(s: string, i: nat)
    requires i < |s|
  {
    i == 0 || !IsCased(s[i - 1])
  }

  lemma {:induction false} TitleFromAt(s: string, previousCased: bool)
    ensures |TitleFrom(s, previousCased)| == |s|
    ensures forall i :: 0 <= i < |s| ==>
      TitleFrom(s, previousCased)[i] ==
        if (if i == 0 then previousCased else IsCased(s[i - 1])) then ToLower(s[i]) else ToUpper(s[i])
  {
    if s != [] {
      var c := if previousCased then ToLower(s[0]) else ToUpper(s[0]);
      assert IsCased(c) == IsCased(s[0]);
      TitleFromAt(s[1..], IsCased(c));
      var r := TitleFrom(s, previousCased);
      forall i | 0 < i < |s|
        ensures r[i] == if IsCased(s[i - 1]) then ToLower(s[i]) else ToUpper(s[i])
      {
        assert r[i] == TitleFrom(s[1..], IsCased(c))[i - 1];
        if i > 1 {
          assert s[1..][i - 2] == s[i - 1];
        }
      }
    }
  }

  /** Title case, position by position: raised at the start of a word, lowered elsewhere. */
  lemma TitleCaseAt(s: string)
    ensures |TitleCase(s)| == |s|
    ensures forall i :: 0 <= i < |s| ==>
      TitleCase(s)[i] == if StartsWord(s, i) then ToUpper(s[i]) else ToLower(s[i])
  {
    TitleFromAt(s, false);
  }

  /** Title-casing a title changes nothing. */
  lemma TitleCaseIdempotent(s: string)
    ensures TitleCase(TitleCase(s)) == TitleCase(s)
  {
    var r := TitleCase(s);
    TitleCaseAt(s);
    TitleCaseAt(r);
    forall i | 0 <= i < |s| ensures TitleCase(r)[i] == r[i] {
      assert IsCased(r[i]) == IsCased(s[i]);
      if i > 0 {
        assert IsCased(r[i - 1]) == IsCased(s[i - 1]);
      }
    }
  }

  /**
   * A problem's title has the folder name's length and no underscore;
   * each underscore became a space that begins a new word; a character
   * at the start of a word (first, after an underscore or after an
   * uncased character) is raised, and any other is lowered.
   */
  lemma ProblemTitleSpec(name: string)
    ensures var t := ProblemTitle(name);
      && |t| == |name|
      && (forall i :: 0 <= i < |t| ==> t[i] != '_')
      && (forall i :: 0 <= i < |t| ==> (name[i] == '_' <==> t[i] == ' ' && name[i] != ' '))
      && (forall i :: 0 <= i < |t| && IsCased(name[i]) ==>
            (IsUpper(t[i]) <==> i == 0 || name[i - 1] == '_' || !IsCased(name[i - 1])))
      && (forall i :: 0 <= i < |t| ==>
            t[i] == if name[i] == '_' then ' '
                    else if i == 0 || name[i - 1] == '_' || !IsCased(name[i - 1]) then ToUpper(name[i])
                    else ToLower(name[i]))
  {
    var u := Underscored(name);
    TitleCaseAt(u);
  }

  // ---------------------------------------------------------------------
  // Blank scripts: `not content.strip()`
  // ---------------------------------------------------------------------

  /** The characters Python's `str.strip()` removes. */
  predicate IsSpace(c: char) {
    var n := c as int;
    n == 0x20 || 0x09 <= n <= 0x0d || 0x1c <= n <= 0x1f || n == 0x85 || n == 0xa0 || n == 0x1680
    || 0x2000 <= n <= 0x200a || n == 0x2028 || n == 0x2029 || n == 0x202f || n == 0x205f || n == 0x3000
  }

  function StripLeft(s: string): string {
    if s != [] && IsSpace(s[0]) then StripLeft(s[1..]) else s
  }

  function StripRight(s: string): string {
    if s != [] && IsSpace(s[|s| - 1]) then StripRight(s[..|s| - 1]) else s
  }

  function Strip(s: string): string {
    StripRight(StripLeft(s))
  }

  predicate IsBlank(s: string) {
    Strip(s) == []
  }

  lemma {:induction false} StripLeftEmpty(s: string)
    ensures StripLeft(s) == [] <==> forall c <- s :: IsSpace(c)
    ensures StripLeft(s) != [] ==> !IsSpace(StripLeft(s)[0])
  {
    if s != [] && IsSpace(s[0]) {
      StripLeftEmpty(s[1..]);
      assert s == [s[0]] + s[1..];
    }
  }

  lemma {:induction false} StripRightKeepsStart(s: string)
    requires s != [] && !IsSpace(s[0])
    ensures StripRight(s) != []
  {
    if |s| > 1 && IsSpace(s[|s| - 1]) {
      StripRightKeepsStart(s[..|s| - 1]);
    }
  }

  /** A script is blank exactly when every character of it is whitespace. */
  lemma BlankIffAllSpace(s: string)
    ensures IsBlank(s) <==> forall c <- s :: IsSpace(c)
  {
    StripLeftEmpty(s);
    if StripLeft(s) != [] {
      StripRightKeepsStart(StripLeft(s));
    }
  }

  // ---------------------------------------------------------------------
  // The files of one folder
  // ---------------------------------------------------------------------

  /** `folder / name`, when it is a file: the content of the first file so named. */
  function Lookup(files: seq<File>, name: string): (r: Option<string>)
    ensures r.Some? <==> exists f <- files :: f.name == name
    ensures r.Some? ==> File(name, r.value) in files
  {
    if files == [] then None
    else if files[0].name == name then Some(files[0].content)
    else Lookup(files[1..], name)
  }

  /** The glob `schema*.sql`. */
  predicate MatchesSchemaGlob(name: string) {
    |name| >= 10 && name[..6] == "schema" && name[|name| - 4..] == ".sql"
  }

  function GlobSchemas(files: seq<File>): (r: seq<File>)
    ensures forall f :: f in r <==> f in files && MatchesSchemaGlob(f.name)
  {
    if files == [] then []
    else if MatchesSchemaGlob(files[0].name) then [files[0]] + GlobSchemas(files[1..])
    else GlobSchemas(files[1..])
  }

  /** `sorted(folder.glob('schema*.sql'))`. */
  function SchemaFiles(files: seq<File>): seq<File> {
    SortByName(GlobSchemas(files), FileName)
  }

  /**
   * The order-assignment rule: each non-blank file is stored under its
   * index in `files`; blank files are skipped and leave their index unused.
   */
  function Plan(files: seq<File>): seq<Planned> {
    if files == [] then []
    else
      var k := |files| - 1;
      Plan(files[..k]) + (if IsBlank(files[k].content) then [] else [Planned(k, files[k].content)])
  }

  predicate IncreasingOrders(plan: seq<Planned>) {
    forall i, j :: 0 <= i < j < |plan| ==> plan[i].order < plan[j].order
  }

  /** Every entry of `plan` is a non-blank file of `files`, stored under its index. */
  predicate EntriesFromFiles(files: seq<File>, plan: seq<Planned>) {
    forall e <- plan :: e.order < |files| && e.script == files[e.order].content && !IsBlank(e.script)
  }

  /** Every non-blank file of `files` is stored in `plan` under its index. */
  predicate StoresNonBlank(files: seq<File>, plan: seq<Planned>) {
    forall k :: 0 <= k < |files| && !IsBlank(files[k].content) ==> Planned(k, files[k].content) in plan
  }

  /** The entry the last file adds to the plan, if any. */
  function LastEntry(files: seq<File>): seq<Planned>
    requires files != []
  {
    var k := |files| - 1;
    if IsBlank(files[k].content) then [] else [Planned(k, files[k].content)]
  }

  lemma PlanEntriesStep(files: seq<File>)
    requires files != [] && EntriesFromFiles(files[..|files| - 1], Plan(files[..|files| - 1]))
    ensures EntriesFromFiles(files, Plan(files))
  {
    var front := files[..|files| - 1];
    assert Plan(files) == Plan(front) + LastEntry(files);
    forall e <- Plan(files) ensures e.order < |files| && e.script == files[e.order].content && !IsBlank(e.script) {
      if e in Plan(front) {
        assert front[e.order] == files[e.order];
      }
    }
  }

  lemma PlanIncreasingStep(files: seq<File>)
    requires files != []
    requires var front := files[..|files| - 1];
      IncreasingOrders(Plan(front)) && EntriesFromFiles(front, Plan(front))
    ensures IncreasingOrders(Plan(files))
  {
    var front := files[..|files| - 1];
    var plan := Plan(files);
    assert plan == Plan(front) + LastEntry(files);
    forall i, j | 0 <= i < j < |plan| ensures plan[i].order < plan[j].order {
      if j >= |Plan(front)| {
        assert plan[i] in Plan(front);
      }
    }
  }

  /** Appending the last file's entry to a plan of the earlier files stores every non-blank file. */
  lemma StoresAppend(files: seq<File>, earlier: seq<Planned>)
    requires files != [] && StoresNonBlank(files[..|files| - 1], earlier)
    ensures StoresNonBlank(files, earlier + LastEntry(files))
  {
    var k := |files| - 1;
    var front := files[..k];
    var plan := earlier + LastEntry(files);
    forall m | 0 <= m < |files| && !IsBlank(files[m].content) ensures Planned(m, files[m].content) in plan {
      if m < k {
        assert front[m] == files[m];
        assert Planned(m, front[m].content) in earlier;
      } else {
        assert LastEntry(files) == [Planned(k, files[k].content)];
      }
    }
  }

  lemma PlanStoresStep(files: seq<File>)
    requires files != [] && StoresNonBlank(files[..|files| - 1], Plan(files[..|files| - 1]))
    ensures StoresNonBlank(files, Plan(files))
  {
    assert Plan(files) == Plan(files[..|files| - 1]) + LastEntry(files);
    StoresAppend(files, Plan(files[..|files| - 1]));
  }

  /**
   * The plan stores exactly the non-blank files, each under its own
   * index, so orders strictly increase and every stored script is
   * non-blank.
   */
  lemma {:induction false} PlanSpec(files: seq<File>)
    ensures IncreasingOrders(Plan(files))
    ensures forall e <- Plan(files) :: e.order < |files| && e.script == files[e.order].content && !IsBlank(e.script)
    ensures forall k :: 0 <= k < |files| && !IsBlank(files[k].content) ==> Planned(k, files[k].content) in Plan(files)
  {
    if files != [] {
      PlanSpec(files[..|files| - 1]);
      PlanEntriesStep(files);
      PlanIncreasingStep(files);
      PlanStoresStep(files);
    }
  }

  /** Orders have no gaps, running 0, 1, 2, ..., exactly when no file is blank. */
  lemma PlanGaps(files: seq<File>)
    ensures (forall f <- files :: !IsBlank(f.content)) <==>
            (|Plan(files)| == |files| && forall i :: 0 <= i < |files| ==> Plan(files)[i].order == i)
  {
    if forall f <- files :: !IsBlank(f.content) {
      PlanWithoutBlanks(files);
    } else {
      var j :| 0 <= j < |files| && IsBlank(files[j].content);
      PlanSkipsBlank(files, j);
    }
  }

  lemma {:induction false} PlanWithoutBlanks(files: seq<File>)
    requires forall f <- files :: !IsBlank(f.content)
    ensures |Plan(files)| == |files| && forall i :: 0 <= i < |files| ==> Plan(files)[i].order == i
  {
    if files != [] {
      var k := |files| - 1;
      var front := files[..k];
      assert forall f <- front :: f in files;
      assert files[k] in files;
      PlanWithoutBlanks(front);
      assert Plan(files) == Plan(front) + [Planned(k, files[k].content)];
    }
  }

  lemma {:induction false} PlanSkipsBlank(files: seq<File>, j: nat)
    requires j < |files| && IsBlank(files[j].content)
    ensures |Plan(files)| < |files|
  {
    var k := |files| - 1;
    var front := files[..k];
    if j == k {
      PlanLength(front);
      assert Plan(files) == Plan(front);
    } else {
      assert front[j] == files[j];
      PlanSkipsBlank(front, j);
    }
  }

  lemma {:induction false} PlanLength(files: seq<File>)
    ensures |Plan(files)| <= |files|
  {
    if files != [] {
      PlanLength(files[..|files| - 1]);
    }
  }

  // ---------------------------------------------------------------------
  // From folders to seeds
  // ---------------------------------------------------------------------

  /** What the command writes for one directory entry, or None where it skips it. */
  function FolderSeed(e: Entry): Option<Seed> {
    if !e.isDir then None
    else
      match Lookup(e.files, DescriptionFile)
      case None => None
      case Some(description) =>
        match Lookup(e.files, SolutionFile)
        case None => None
        case Some(solution) =>
          var explanation := match Lookup(e.files, ExplanationFile)
            case Some(text) => text
            case None => "";
          Some(Seed(ProblemTitle(e.name), description, explanation, solution, Plan(SchemaFiles(e.files))))
  }

  /**
   * A folder is seeded exactly when it is a directory holding both a
   * description and a solution; its seed carries the folder's title,
   * those files' contents, the explanation or "" when that file is
   * missing, and the plan of its schema files.
   */
  lemma FolderSeedSpec(e: Entry)
    ensures var r := FolderSeed(e);
      && (r.Some? <==> e.isDir && (exists f <- e.files :: f.name == DescriptionFile)
                               && (exists f <- e.files :: f.name == SolutionFile))
      && (r.Some? ==>
            && r.value.title == ProblemTitle(e.name)
            && File(DescriptionFile, r.value.description) in e.files
            && File(SolutionFile, r.value.solution) in e.files
            && (if exists f <- e.files :: f.name == ExplanationFile
                then File(ExplanationFile, r.value.explanation) in e.files
                else r.value.explanation == "")
            && r.value.plan == Plan(SchemaFiles(e.files)))
  {
  }

  /** The seed of one entry, as a sequence of at most one. */
  function EntrySeeds(e: Entry): seq<Seed> {
    match FolderSeed(e)
    case Some(s) => [s]
    case None => []
  }

  /** `f` applied to each element, the results joined in order. */
  function Collect<A, B>(xs: seq<A>, f: A -> seq<B>): seq<B> {
    if xs == [] then [] else Collect(xs[..|xs| - 1], f) + f(xs[|xs| - 1])
  }

  lemma {:induction false} CollectAppend<A, B>(a: seq<A>, b: seq<A>, f: A -> seq<B>)
    ensures Collect(a + b, f) == Collect(a, f) + Collect(b, f)
  {
    if b == [] {
      assert a + b == a;
    } else {
      var k := |b| - 1;
      var ab := a + b;
      assert ab[..|ab| - 1] == a + b[..k];
      assert ab[|ab| - 1] == b[k];
      CollectAppend(a, b[..k], f);
    }
  }

  lemma {:induction false} CollectMembers<A, B>(xs: seq<A>, f: A -> seq<B>)
    ensures forall y :: y in Collect(xs, f) <==> exists x <- xs :: y in f(x)
    ensures (forall x <- xs :: |f(x)| <= 1) ==> |Collect(xs, f)| <= |xs|
  {
    if xs != [] {
      var k := |xs| - 1;
      CollectMembers(xs[..k], f);
      assert xs == xs[..k] + [xs[k]];
    }
  }

  /** The seeds of the entries, in the entries' order. */
  function Seeds(entries: seq<Entry>): seq<Seed> {
    Collect(entries, EntrySeeds)
  }

  /**
   * A seed is produced for exactly the directory entries that hold both a
   * description and a solution, at most one per entry; each seed stores a
   * plan whose orders increase and whose scripts are non-blank.
   */
  lemma SeedsSpec(entries: seq<Entry>)
    ensures forall s <- Seeds(entries) :: exists e <- entries :: FolderSeed(e) == Some(s)
    ensures forall e <- entries :: FolderSeed(e).Some? ==> FolderSeed(e).value in Seeds(entries)
    ensures forall s <- Seeds(entries) :: IncreasingOrders(s.plan) && forall p <- s.plan :: !IsBlank(p.script)
    ensures |Seeds(entries)| <= |entries|
  {
    CollectMembers(entries, EntrySeeds);
    forall e <- entries | FolderSeed(e).Some?
      ensures FolderSeed(e).value in Seeds(entries)
    {
      assert FolderSeed(e).value in EntrySeeds(e);
    }
    forall s <- Seeds(entries)
      ensures exists e <- entries :: FolderSeed(e) == Some(s)
      ensures IncreasingOrders(s.plan) && forall p <- s.plan :: !IsBlank(p.script)
    {
      var e :| e in entries && s in EntrySeeds(e);
      PlanSpec(SchemaFiles(e.files));
    }
  }

  // ---------------------------------------------------------------------
  // The effect of the seeds on the tables
  // ---------------------------------------------------------------------

  function PlanRows(id: ProblemId, plan: seq<Planned>): (r: seq<Schema>)
    ensures |r| == |plan|
    ensures forall i :: 0 <= i < |plan| ==> r[i] == Schema(id, plan[i].script, plan[i].order)
  {
    if plan == [] then []
    else PlanRows(id, plan[..|plan| - 1]) + [Schema(id, plan[|plan| - 1].script, plan[|plan| - 1].order)]
  }

  lemma PlanRowsAppend(id: ProblemId, plan: seq<Planned>, e: Planned)
    ensures PlanRows(id, plan + [e]) == PlanRows(id, plan) + [Schema(id, e.script, e.order)]
  {
    assert (plan + [e])[..|plan|] == plan;
  }

  function AddPlan(t: Tables, id: ProblemId, plan: seq<Planned>): Tables {
    t.(schemas := t.schemas + PlanRows(id, plan))
  }

  /** The writes for one folder: upsert the problem, upsert its solution, clear and re-create its schemas. */
  function ApplySeed(t: Tables, s: Seed): Tables {
    var (t1, id) := UpsertProblem(t, s.title, s.description, s.explanation);
    AddPlan(ClearSchemas(UpsertSolution(t1, id, s.solution), id), id, s.plan)
  }

  /** One seed applied to the progress so far: nothing once aborted; an abort for a title the database refuses. */
  function Step(before: Progress, s: Seed): Progress {
    if before.aborted.Some? then before
    else if |s.title| > MaxTitleLength then Progress(before.tables, Some(s.title))
    else Progress(ApplySeed(before.tables, s), None)
  }

  /** The seeds applied in order, stopping at the first title the database refuses. */
  function RunSeeds(t: Tables, seeds: seq<Seed>): Progress {
    if seeds == [] then Progress(t, None)
    else Step(RunSeeds(t, seeds[..|seeds| - 1]), seeds[|seeds| - 1])
  }

  lemma {:induction false} RunSeedsStaysAborted(t: Tables, a: seq<Seed>, b: seq<Seed>)
    requires RunSeeds(t, a).aborted.Some?
    ensures RunSeeds(t, a + b) == RunSeeds(t, a)
  {
    if b == [] {
      assert a + b == a;
    } else {
      var k := |b| - 1;
      var ab := a + b;
      assert ab[..|ab| - 1] == a + b[..k];
      RunSeedsStaysAborted(t, a, b[..k]);
    }
  }

  lemma {:induction false} OfProblemAppend(a: seq<Schema>, b: seq<Schema>, id: ProblemId)
    ensures OfProblem(a + b, id) == OfProblem(a, id) + OfProblem(b, id)
  {
    if a != [] {
      assert (a + b)[0] == a[0];
      assert (a + b)[1..] == a[1..] + b;
      OfProblemAppend(a[1..], b, id);
    } else {
      assert a + b == b;
    }
  }

  lemma {:induction false} OfProblemWithout(s: seq<Schema>, id: ProblemId, other: ProblemId)
    ensures OfProblem(Without(s, id), other) == if other == id then [] else OfProblem(s, other)
  {
    if s != [] {
      OfProblemWithout(s[1..], id, other);
    }
  }

  lemma {:induction false} OfProblemPlanRows(id: ProblemId, plan: seq<Planned>, other: ProblemId)
    ensures OfProblem(PlanRows(id, plan), other) == if other == id then PlanRows(id, plan) else []
  {
    if plan != [] {
      var k := |plan| - 1;
      OfProblemPlanRows(id, plan[..k], other);
      OfProblemAppend(PlanRows(id, plan[..k]), [Schema(id, plan[k].script, plan[k].order)], other);
    }
  }

  lemma {:induction false} SortAscendingUnchanged(s: seq<Schema>)
    requires Ascending(s)
    ensures SortByOrder(s) == s
  {
    if s != [] {
      SortAscendingUnchanged(s[1..]);
    }
  }

  /** Adding the planned rows of a problem that has no schema rows keeps the constraints. */
  lemma AddPlanValid(t: Tables, id: ProblemId, plan: seq<Planned>)
    requires Valid(t) && HasProblem(t, id) && IncreasingOrders(plan)
    requires forall s <- t.schemas :: s.problem != id
    ensures Valid(AddPlan(t, id, plan))
  {
    var t' := AddPlan(t, id, plan);
    var rows := PlanRows(id, plan);
    forall s1 | s1 in t'.schemas ensures HasProblem(t', s1.problem) {
      if s1 !in t.schemas {
        assert s1 in rows;
      }
    }
    forall i, j | 0 <= i < j < |t'.schemas|
      ensures t'.schemas[i].problem != t'.schemas[j].problem || t'.schemas[i].order != t'.schemas[j].order
    {
      if j >= |t.schemas| {
        if i < |t.schemas| {
          assert t'.schemas[i] in t.schemas;
        } else {
          assert t'.schemas[i] == rows[i - |t.schemas|];
        }
      }
    }
  }

  lemma PlanRowsAscending(id: ProblemId, plan: seq<Planned>)
    requires IncreasingOrders(plan)
    ensures Ascending(PlanRows(id, plan))
  {
    var rows := PlanRows(id, plan);
    forall i, j | 0 <= i < j < |rows| ensures rows[i].order <= rows[j].order {
      assert rows[i].order == plan[i].order && rows[j].order == plan[j].order;
    }
  }

  lemma ReplacedRows(t: Tables, id: ProblemId, plan: seq<Planned>, other: ProblemId)
    ensures OfProblem(AddPlan(ClearSchemas(t, id), id, plan).schemas, other) ==
      if other == id then PlanRows(id, plan) else OfProblem(t.schemas, other)
  {
    var rows := PlanRows(id, plan);
    var kept := Without(t.schemas, id);
    assert AddPlan(ClearSchemas(t, id), id, plan).schemas == kept + rows;
    OfProblemAppend(kept, rows, other);
    OfProblemWithout(t.schemas, id, other);
    OfProblemPlanRows(id, plan, other);
  }

  /** After clearing a problem's rows and adding its plan, its schemas are the plan's rows; other problems keep theirs. */
  lemma ReplacedSchemas(t: Tables, id: ProblemId, plan: seq<Planned>, other: ProblemId)
    requires IncreasingOrders(plan)
    ensures SchemasOf(AddPlan(ClearSchemas(t, id), id, plan), other) ==
      if other == id then PlanRows(id, plan) else SchemasOf(t, other)
  {
    ReplacedRows(t, id, plan, other);
    if other == id {
      PlanRowsAscending(id, plan);
      SortAscendingUnchanged(PlanRows(id, plan));
    }
  }

  /** The intermediate tables of `ApplySeed`, with what each step establishes. */
  lemma SeedSteps(t: Tables, s: Seed) returns (id: ProblemId, t2: Tables)
    requires Valid(t) && |s.title| <= MaxTitleLength
    ensures id == UpsertProblem(t, s.title, s.description, s.explanation).1
    ensures t2 == UpsertSolution(UpsertProblem(t, s.title, s.description, s.explanation).0, id, s.solution)
    ensures ApplySeed(t, s) == AddPlan(ClearSchemas(t2, id), id, s.plan)
    ensures Valid(t2) && HasProblem(t2, id) && t2.schemas == t.schemas
    ensures FindProblem(t2.problems, id) == Some(Problem(id, s.title, s.description, s.explanation))
    ensures forall p <- t2.problems :: p.title == s.title ==> p.id == id
    ensures forall p <- t.problems :: p.title != s.title ==> p in t2.problems && p.id != id
    ensures SolutionOf(t2, id) == Some(Solution(id, s.solution))
    ensures forall other: ProblemId :: other != id ==> SolutionOf(t2, other) == SolutionOf(t, other)
  {
    var t1;
    t1, id := UpsertProblem(t, s.title, s.description, s.explanation).0, UpsertProblem(t, s.title, s.description, s.explanation).1;
    UpsertProblemEffect(t, s.title, s.description, s.explanation);
    assert HasProblem(t1, id) by {
      assert FindProblem(t1.problems, id).value in t1.problems;
    }
    t2 := UpsertSolution(t1, id, s.solution);
    UpsertSolutionEffect(t1, id, s.solution);
    forall p | p in t.problems && p.title != s.title ensures p in t2.problems && p.id != id {
      if p.id == id {
        FindProblemUnique(t1, p);
      }
    }
  }

  /**
   * After the writes for one folder, the tables still meet every
   * constraint; exactly one problem carries the seed's title, holding the
   * seed's texts; its solution is the seed's query; its schemas, in
   * order, are exactly the planned rows; and every other problem keeps
   * its row, its schemas and its solution.
   */
  lemma SeedEffect(t: Tables, s: Seed)
    requires Valid(t) && |s.title| <= MaxTitleLength && IncreasingOrders(s.plan)
    ensures var t' := ApplySeed(t, s);
      && Valid(t')
      && (exists id ::
            && FindProblem(t'.problems, id) == Some(Problem(id, s.title, s.description, s.explanation))
            && (forall p <- t'.problems :: p.title == s.title ==> p.id == id)
            && SolutionOf(t', id) == Some(Solution(id, s.solution))
            && SchemasOf(t', id) == PlanRows(id, s.plan))
      && (forall p <- t.problems :: p.title != s.title ==>
            && p in t'.problems
            && SolutionOf(t', p.id) == SolutionOf(t, p.id)
            && SchemasOf(t', p.id) == SchemasOf(t, p.id))
  {
    var id, t2 := SeedSteps(t, s);
    var t3 := ClearSchemas(t2, id);
    DeleteSchemasEffect(t2, id);
    var t' := AddPlan(t3, id, s.plan);
    assert t'.problems == t2.problems && t'.solutions == t2.solutions;
    AddPlanValid(t3, id, s.plan);
    ReplacedSchemas(t2, id, s.plan, id);
    assert SolutionOf(t', id) == SolutionOf(t2, id);
    forall p | p in t.problems && p.title != s.title
      ensures p in t'.problems && SolutionOf(t', p.id) == SolutionOf(t, p.id) && SchemasOf(t', p.id) == SchemasOf(t, p.id)
    {
      ReplacedSchemas(t2, id, s.plan, p.id);
      assert SolutionOf(t', p.id) == SolutionOf(t2, p.id);
      assert SchemasOf(t2, p.id) == SchemasOf(t, p.id);
    }
  }

  /** Seeding keeps every table constraint: one problem per title, one solution per problem, unique (problem, order). */
  lemma {:induction false} RunSeedsValid(t: Tables, seeds: seq<Seed>)
    requires Valid(t)
    requires forall s <- seeds :: IncreasingOrders(s.plan)
    ensures Valid(RunSeeds(t, seeds).tables)
  {
    if seeds != [] {
      var k := |seeds| - 1;
      assert forall s <- seeds[..k] :: s in seeds;
      RunSeedsValid(t, seeds[..k]);
      assert seeds[k] in seeds;
      var before := RunSeeds(t, seeds[..k]);
      if before.aborted.None? && |seeds[k].title| <= MaxTitleLength {
        SeedEffect(before.tables, seeds[k]);
      }
    }
  }

  // ---------------------------------------------------------------------
  // The command
  // ---------------------------------------------------------------------

  /**
   * The schema loop of `Command.handle`: each non-blank file is stored
   * under its index among `files`; blank ones are skipped.
   */
  method CreateSchemas(db: Database, id: ProblemId, files: seq<File>)
    requires db.Valid() && HasProblem(db.Snapshot(), id)
    requires forall s <- db.schemas :: s.problem != id
    modifies db
    ensures db.Valid()
    ensures db.Snapshot() == AddPlan(old(db.Snapshot()), id, Plan(files))
  {
    ghost var cleared := db.Snapshot();
    for idx := 0 to |files|
      invariant db.Valid() && HasProblem(db.Snapshot(), id)
      invariant db.Snapshot() == AddPlan(cleared, id, Plan(files[..idx]))
    {
      var content := files[idx].content;
      CreateStep(cleared, id, files, idx);
      if IsBlank(content) {
        continue;
      }
      var stored := db.CreateSchema(id, content, idx);
      assert stored;
    }
    assert files[..|files|] == files;
  }

  /** One turn of the schema loop, on the tables. */
  lemma CreateStep(t: Tables, id: ProblemId, files: seq<File>, idx: nat)
    requires idx < |files| && forall s <- t.schemas :: s.problem != id
    ensures var before := AddPlan(t, id, Plan(files[..idx]));
      && (IsBlank(files[idx].content) ==> AddPlan(t, id, Plan(files[..idx + 1])) == before)
      && (!IsBlank(files[idx].content) ==>
            && !OrderTaken(before, id, idx)
            && AddPlan(t, id, Plan(files[..idx + 1])) == AddSchema(before, Schema(id, files[idx].content, idx)))
  {
    assert files[..idx + 1][..idx] == files[..idx];
    var content := files[idx].content;
    if !IsBlank(content) {
      assert Plan(files[..idx + 1]) == Plan(files[..idx]) + [Planned(idx, content)];
      PlanRowsAppend(id, Plan(files[..idx]), Planned(idx, content));
      PlanNextFree(t, id, files, idx);
    }
  }

  /** Before file `idx` is handled, no schema row of the problem uses order `idx`. */
  lemma PlanNextFree(t: Tables, id: ProblemId, files: seq<File>, idx: nat)
    requires idx <= |files| && forall s <- t.schemas :: s.problem != id
    ensures !OrderTaken(AddPlan(t, id, Plan(files[..idx])), id, idx)
  {
    var plan := Plan(files[..idx]);
    var rows := PlanRows(id, plan);
    PlanSpec(files[..idx]);
    forall s | s in AddPlan(t, id, plan).schemas && s.problem == id ensures s.order < idx {
      assert s in rows;
      var i :| 0 <= i < |rows| && rows[i] == s;
      assert plan[i] in plan;
    }
  }

  lemma {:induction false} SeedsStep(folders: seq<Entry>, i: nat)
    requires i < |folders|
    ensures FolderSeed(folders[i]).None? ==> Seeds(folders[..i + 1]) == Seeds(folders[..i])
    ensures FolderSeed(folders[i]).Some? ==> Seeds(folders[..i + 1]) == Seeds(folders[..i]) + [FolderSeed(folders[i]).value]
  {
    assert folders[..i + 1][..i] == folders[..i];
    assert Seeds(folders[..i + 1]) == Seeds(folders[..i]) + EntrySeeds(folders[i]);
  }

  lemma RunSeedsStep(t: Tables, seeds: seq<Seed>, s: Seed)
    requires RunSeeds(t, seeds).aborted.None?
    ensures RunSeeds(t, seeds + [s]) ==
      if |s.title| > MaxTitleLength then Progress(RunSeeds(t, seeds).tables, Some(s.title))
      else Progress(ApplySeed(RunSeeds(t, seeds).tables, s), None)
  {
    assert (seeds + [s])[..|seeds|] == seeds;
  }

  /** A refused title ends the run: the folders after it change nothing. */
  lemma AbortEndsRun(t: Tables, folders: seq<Entry>, k: nat)
    requires k <= |folders| && RunSeeds(t, Seeds(folders[..k])).aborted.Some?
    ensures RunSeeds(t, Seeds(folders)) == RunSeeds(t, Seeds(folders[..k]))
  {
    var front, back := folders[..k], folders[k..];
    assert front + back == folders;
    CollectAppend(front, back, EntrySeeds);
    RunSeedsStaysAborted(t, Seeds(front), Seeds(back));
  }

  /**
   * The writes for one folder, from `update_or_create` of the problem to
   * the last schema row. Returns None, changing nothing, when the
   * database refuses the title.
   */
  method WriteSeed(db: Database, title: string, description: string, explanation: string, solution: string, schemaFiles: seq<File>)
    returns (created: Option<ProblemId>)
    requires db.Valid()
    modifies db
    ensures db.Valid()
    ensures created.None? <==> |title| > MaxTitleLength
    ensures db.Snapshot() ==
      if created.None? then old(db.Snapshot())
      else ApplySeed(old(db.Snapshot()), Seed(title, description, explanation, solution, Plan(schemaFiles)))
  {
    ghost var t := db.Snapshot();
    ghost var s := Seed(title, description, explanation, solution, Plan(schemaFiles));
    created := db.UpdateOrCreateProblem(title, description, explanation);
    if created.None? {
      return;
    }
    var id := created.value;
    ghost var sid, t2 := SeedSteps(t, s);
    assert sid == id;
    var solutionSaved := db.UpdateOrCreateSolution(id, solution);
    assert solutionSaved;
    assert db.Snapshot() == t2;
    db.DeleteSchemas(id);
    DeleteSchemasEffect(t2, id);
    CreateSchemas(db, id, schemaFiles);
  }

  /**
   * `Command.handle`. Returns at once when the problems directory is
   * missing; otherwise writes each folder's seed in name order, and stops
   * where the database refuses a title, keeping the writes made so far.
   */
  method Handle(db: Database, listing: Option<seq<Entry>>) returns (outcome: Outcome)
    requires db.Valid()
    modifies db
    ensures db.Valid()
    ensures listing.None? ==> outcome == MissingDirectory && db.Snapshot() == old(db.Snapshot())
    ensures listing.Some? ==>
      var p := RunSeeds(old(db.Snapshot()), Seeds(SortByName(listing.value, EntryName)));
      && db.Snapshot() == p.tables
      && outcome == (if p.aborted.Some? then Aborted(p.aborted.value) else Finished)
  {
    if listing.None? {
      return MissingDirectory;
    }
    ghost var t0 := db.Snapshot();
    var folders := SortByName(listing.value, EntryName);
    for i := 0 to |folders|
      invariant db.Valid()
      invariant RunSeeds(t0, Seeds(folders[..i])) == Progress(db.Snapshot(), None)
    {
      var folder := folders[i];
      SeedsStep(folders, i);
      if !folder.isDir {
        continue;
      }
      var title := ProblemTitle(folder.name);
      var description := Lookup(folder.files, DescriptionFile);
      if description.None? {
        continue;
      }
      var explanation := "";
      var explanationFile := Lookup(folder.files, ExplanationFile);
      if explanationFile.Some? {
        explanation := explanationFile.value;
      }
      var solution := Lookup(folder.files, SolutionFile);
      if solution.None? {
        continue;
      }
      var schemaFiles := SchemaFiles(folder.files);
      ghost var seed := Seed(title, description.value, explanation, solution.value, Plan(schemaFiles));
      assert FolderSeed(folder) == Some(seed);
      RunSeedsStep(t0, Seeds(folders[..i]), seed);
      var created := WriteSeed(db, title, description.value, explanation, solution.value, schemaFiles);
      if created.None? {
        AbortEndsRun(t0, folders, i + 1);
        return Aborted(title);
      }
    }
    assert folders[..|folders|] == folders;
    return Finished;
  }
}
