/** How the results of the compilers are lined up and compared. */
module Verifier {
  import opened Types

  /** What calling a function gave: an error, or what the runner dumps of the computation. */
  datatype Outcome =
    | RuntimeError(message: string)
    | Returned(state: seq<string>, memory: string, gas: nat, value: string)

  /** One outcome for every set of inputs. */
  datatype FunctionResults = FunctionResults(name: string, outcomes: seq<Outcome>)

  /** A dictionary from function names to outcomes, in insertion order. */
  type Results = fs: seq<FunctionResults> | DistinctKeys(fs) witness []

  predicate DistinctKeys(fs: seq<FunctionResults>) {
    forall i, j :: 0 <= i < j < |fs| ==> fs[i].name != fs[j].name
  }

  datatype Deployment = DeployError(message: string) | Deployed(functions: Results)

  /** What one compiler's runner stores: a deployment for every set of constructor inputs, of which there is
      at least one. */
  type RunnerResult = ds: seq<Deployment> | |ds| > 0 witness [Deployed([])]

  // ----- lining up

  /** Entry k of every row that has one, from the first row to the last. */
  function Column<T>(rows: seq<seq<T>>, k: nat): seq<T> {
    if rows == [] then []
    else
      var last := rows[|rows| - 1];
      Column(rows[..|rows| - 1], k) + (if k < |last| then [last[k]] else [])
  }

  function Longest<T>(rows: seq<seq<T>>): nat {
    if rows == [] then 0
    else
      var rest, last := Longest(rows[..|rows| - 1]), |rows[|rows| - 1]|;
      if rest < last then last else rest
  }

  /** The transpose of a table whose rows may differ in length. */
  function Columns<T>(rows: seq<seq<T>>): (r: seq<seq<T>>)
    ensures |r| == Longest(rows) && forall k :: 0 <= k < |r| ==> r[k] == Column(rows, k)
  {
    seq(Longest(rows), k requires 0 <= k => Column(rows, k))
  }

  lemma {:induction false} BeyondLongest<T>(rows: seq<seq<T>>, k: nat)
    ensures Column(rows, k) == [] <==> k >= Longest(rows)
  {
    if rows != [] { BeyondLongest(rows[..|rows| - 1], k); }
  }

  lemma {:induction false} ColumnIsShort<T>(rows: seq<seq<T>>, k: nat)
    ensures |Column(rows, k)| <= |rows|
  {
    if rows != [] { ColumnIsShort(rows[..|rows| - 1], k); }
  }

  /** When all rows are equally long nothing is lost, added or moved: the columns are the transpose. */
  lemma {:induction false} EqualRows<T>(rows: seq<seq<T>>, n: nat, k: nat)
    requires (forall c :: 0 <= c < |rows| ==> |rows[c]| == n)
    ensures rows != [] ==> Longest(rows) == n
    ensures k < n ==> |Column(rows, k)| == |rows| && forall c :: 0 <= c < |rows| ==> Column(rows, k)[c] == rows[c][k]
  {
    if rows != [] { EqualRows(rows[..|rows| - 1], n, k); }
  }

  /** Puts x at the end of column k, which may be the next new one. */
  function Place<T>(columns: seq<seq<T>>, k: nat, x: T): (r: seq<seq<T>>)
    requires k <= |columns|
    ensures k < |r| && r[k] != [] && r[k][|r[k]| - 1] == x
  {
    var grown := if k > |columns| - 1 then columns + [[]] else columns;
    grown[k := grown[k] + [x]]
  }

  lemma PlaceStep<T>(rows: seq<seq<T>>, row: seq<T>, k: nat)
    requires k < |row| && k <= Longest(rows + [row[..k]])
    ensures Place(Columns(rows + [row[..k]]), k, row[k]) == Columns(rows + [row[..k + 1]])
    ensures k + 1 <= Longest(rows + [row[..k + 1]])
  {
    var before, after := rows + [row[..k]], rows + [row[..k + 1]];
    assert before[..|rows|] == rows && after[..|rows|] == rows;
    var placed := Place(Columns(before), k, row[k]);
    BeyondLongest(before, k);
    assert |placed| == Longest(after);
    forall m | 0 <= m < |placed| ensures placed[m] == Column(after, m) {
      assert Column(before, m) == Column(rows, m) + (if m < k then [row[m]] else []);
      assert Column(after, m) == Column(rows, m) + (if m < k + 1 then [row[m]] else []);
    }
  }

  lemma EmptyRow<T>(rows: seq<seq<T>>)
    ensures Columns(rows + [[]]) == Columns(rows)
  {
    var all := rows + [[]];
    assert all[..|rows|] == rows;
    forall k: nat ensures Column(all, k) == Column(rows, k) {
      assert Column(all, k) == Column(rows, k) + [];
    }
    assert Longest(all) == Longest(rows);
  }

  // ----- deployment errors

  /** The runner's entry for a failed deployment, or nothing. */
  function ErrorOf(d: Deployment): Option<string> {
    if d.DeployError? then Some(d.message) else None
  }

  /** The error that is compared is the one the runner gave. */
  lemma ErrorIs(d: Deployment, message: string)
    ensures ErrorOf(d) == Some(message) <==> d == DeployError(message)
    ensures ErrorOf(d) == None <==> d.Deployed?
  {
  }

  function ErrorRow(result: seq<Deployment>): (r: seq<Option<string>>)
    ensures |r| == |result| && forall j :: 0 <= j < |r| ==> r[j] == ErrorOf(result[j])
  {
    seq(|result|, j requires 0 <= j < |result| => ErrorOf(result[j]))
  }

  function ErrorRows(data: seq<RunnerResult>): (r: seq<seq<Option<string>>>)
    ensures |r| == |data| && forall c :: 0 <= c < |r| ==> r[c] == ErrorRow(data[c])
  {
    seq(|data|, c requires 0 <= c < |data| => ErrorRow(data[c]))
  }

  /** A comparison of the deployments of two adjacent compilers. */
  datatype DeployRow = DeployRow(first: nat, second: nat, deployment: nat,
                                 discrepancy: Option<(Option<string>, Option<string>)>)

  function CompareErrors(a: Option<string>, b: Option<string>): (r: Option<(Option<string>, Option<string>)>)
    ensures ShowsKind(r, a, b)
  {
    if a != b then Some((a, b)) else None
  }

  ghost predicate Failed(result: seq<Deployment>) {
    exists j :: 0 <= j < |result| && result[j].DeployError?
  }

  ghost predicate AnyFailed(data: seq<RunnerResult>) {
    exists c :: 0 <= c < |data| && Failed(data[c])
  }

  /** One row for every deployment and every two compilers that are adjacent in its column. */
  ghost predicate DeployRowExpected(r: DeployRow, data: seq<RunnerResult>) {
    var column := Column(ErrorRows(data), r.deployment);
    && r.second == r.first + 1 < |column|
    && r.discrepancy == CompareErrors(column[r.first], column[r.second])
  }

  ghost predicate DeployReport(rows: seq<DeployRow>, data: seq<RunnerResult>) {
    && (forall r :: r in rows <==> DeployRowExpected(r, data))
    && forall i, j :: 0 <= i < j < |rows| ==> rows[i] != rows[j]
  }

  method CheckDeployErrors(data: seq<RunnerResult>) returns (hasError: bool, rows: seq<DeployRow>)
    ensures hasError <==> AnyFailed(data)
    ensures DeployReport(rows, data)
  {
    var errors;
    errors, hasError := LineUpErrors(data);
    rows := CompareDeployments(errors, data);
  }

  /** The first loop of the check: one column of errors for every deployment. */
  method LineUpErrors(data: seq<RunnerResult>) returns (errors: seq<seq<Option<string>>>, hasError: bool)
    ensures hasError <==> AnyFailed(data)
    ensures errors == Columns(ErrorRows(data))
  {
    hide Column, Longest, Columns, Place, Failed, AnyFailed;
    errors, hasError := [], false;
    ghost var all := ErrorRows(data);
    NothingYet<Option<string>>();
    NoneFailed();
    for c := 0 to |data|
      invariant errors == Columns(all[..c])
      invariant hasError <==> AnyFailed(data[..c])
    {
      var result: seq<Deployment> := data[c];
      EmptyRow(all[..c]);
      assert all[c][..0] == [] && result[..0] == [];
      NoneFailed();
      for j := 0 to |result|
        invariant j <= Longest(all[..c] + [all[c][..j]])
        invariant errors == Columns(all[..c] + [all[c][..j]])
        invariant hasError <==> AnyFailed(data[..c]) || Failed(result[..j])
      {
        PlaceStep(all[..c], all[c], j);
        errors := Place(errors, j, ErrorOf(result[j]));
        if errors[j][|errors[j]| - 1] != None {
          hasError := true;
        }
        assert result[..j + 1] == result[..j] + [result[j]];
        FailedAppend(result[..j], result[j]);
      }
      assert result[..|result|] == result && all[c][..|result|] == all[c];
      assert all[..c + 1] == all[..c] + [all[c]];
      AnyFailedAppend(data, c);
    }
    assert all[..|data|] == all && data[..|data|] == data;
  }

  lemma NothingYet<T>()
    ensures Columns<T>([]) == []
  {
  }

  lemma NoneFailed()
    ensures !Failed([]) && !AnyFailed([])
  {
  }

  /** The second loop of the check: neighbours in every column. */
  method CompareDeployments(errors: seq<seq<Option<string>>>, ghost data: seq<RunnerResult>)
    returns (rows: seq<DeployRow>)
    requires errors == Columns(ErrorRows(data))
    ensures DeployReport(rows, data)
  {
    rows := [];
    ghost var all := ErrorRows(data);
    for i := 0 to |errors|
      invariant forall r :: r in rows <==> r.deployment < i && DeployRowExpected(r, data)
      invariant forall m, n :: 0 <= m < n < |rows| ==> rows[m] != rows[n]
    {
      for j := 0 to |errors[i]|
        invariant forall r :: r in rows <==>
                    DeployRowExpected(r, data) && (r.deployment < i || (r.deployment == i && r.first < j))
        invariant forall m, n :: 0 <= m < n < |rows| ==> rows[m] != rows[n]
      {
        if j == |errors[i]| - 1 {
          break;
        }
        var row := DeployRow(j, j + 1, i, CompareErrors(errors[i][j], errors[i][j + 1]));
        assert DeployRowExpected(row, data) && row !in rows;
        rows := rows + [row];
      }
    }
    forall r | DeployRowExpected(r, data) ensures r.deployment < |errors| {
      BeyondLongest(all, r.deployment);
    }
  }

  lemma FailedAppend(result: seq<Deployment>, d: Deployment)
    ensures Failed(result + [d]) <==> Failed(result) || d.DeployError?
  {
    var all := result + [d];
    if Failed(result) {
      var j :| 0 <= j < |result| && result[j].DeployError?;
      assert all[j].DeployError?;
    }
    assert all[|result|] == d;
  }

  lemma AnyFailedAppend(data: seq<RunnerResult>, c: nat)
    requires c < |data|
    ensures AnyFailed(data[..c + 1]) <==> AnyFailed(data[..c]) || Failed(data[c])
  {
    var part := data[..c + 1];
    if AnyFailed(data[..c]) {
      var i :| 0 <= i < c && Failed(data[..c][i]);
      assert Failed(part[i]);
    }
    if Failed(data[c]) { assert Failed(part[c]); }
    if AnyFailed(part) {
      var i :| 0 <= i < |part| && Failed(part[i]);
      if i < c { assert Failed(data[..c][i]); }
    }
  }

  lemma {:induction false} AllEqualAlong<T>(xs: seq<T>, i: nat, j: nat)
    requires i <= j < |xs| && forall m :: i <= m < j ==> xs[m] == xs[m + 1]
    ensures xs[i] == xs[j]
    decreases j - i
  {
    if i < j {
      AllEqualAlong(xs, i, j - 1);
      assert xs[j - 1] == xs[j - 1 + 1];
    }
  }

  /** Comparing neighbours is enough: the report shows no discrepancy for a deployment if and only if all
      compilers that attempted it gave the same error, or all gave none. */
  lemma DeployReportComplete(rows: seq<DeployRow>, data: seq<RunnerResult>, deployment: nat)
    requires DeployReport(rows, data)
    ensures var column := Column(ErrorRows(data), deployment);
            (forall r :: r in rows && r.deployment == deployment ==> r.discrepancy == None) <==>
            forall i, j :: 0 <= i < j < |column| ==> column[i] == column[j]
  {
    var column := Column(ErrorRows(data), deployment);
    var quiet := forall r :: r in rows && r.deployment == deployment ==> r.discrepancy == None;
    if quiet {
      forall m | 0 <= m < |column| - 1 ensures column[m] == column[m + 1] {
        var r := DeployRow(m, m + 1, deployment, CompareErrors(column[m], column[m + 1]));
        assert DeployRowExpected(r, data);
        assert r in rows;
      }
      forall i, j | 0 <= i < j < |column| ensures column[i] == column[j] {
        AllEqualAlong(column, i, j);
      }
    }
    if !quiet {
      var r :| r in rows && r.deployment == deployment && r.discrepancy != None;
      assert DeployRowExpected(r, data);
      assert column[r.first] != column[r.second];
    }
  }

  // ----- reshaping

  /** Function name to deployment to input set to compiler. Names are listed in insertion order. */
  datatype Table = Table(names: seq<string>, at: map<string, seq<seq<seq<Outcome>>>>)

  function Lookup(fs: seq<FunctionResults>, name: string): seq<Outcome> {
    if fs == [] then []
    else
      var last := fs[|fs| - 1];
      if last.name == name then last.outcomes else Lookup(fs[..|fs| - 1], name)
  }

  predicate Names(d: Deployment, name: string) {
    d.Deployed? && exists i :: 0 <= i < |d.functions| && d.functions[i].name == name
  }

  /** What one compiler got for a function in a deployment. */
  function OutcomesOf(result: seq<Deployment>, name: string, d: nat): seq<Outcome> {
    if d < |result| && result[d].Deployed? then Lookup(result[d].functions, name) else []
  }

  function RowsFor(data: seq<seq<Deployment>>, name: string, d: nat): (r: seq<seq<Outcome>>)
    ensures |r| == |data| && forall c :: 0 <= c < |r| ==> r[c] == OutcomesOf(data[c], name, d)
  {
    seq(|data|, c requires 0 <= c < |data| => OutcomesOf(data[c], name, d))
  }

  function Cell(table: Table, name: string, d: nat): seq<seq<Outcome>> {
    if name in table.at && d < |table.at[name]| then table.at[name][d] else []
  }

  /** The table holds exactly the outcomes of the data, each column in compiler order. */
  ghost predicate Reshaped(table: Table, data: seq<seq<Deployment>>) {
    forall name, d: nat :: Cell(table, name, d) == Columns(RowsFor(data, name, d))
  }

  ghost predicate WellKeyed(table: Table) {
    && (forall name :: name in table.at <==> name in table.names)
    && forall i, j :: 0 <= i < j < |table.names| ==> table.names[i] != table.names[j]
  }

  /** A function that is in one deployment is in the ones before. */
  ghost predicate Contiguous(result: seq<Deployment>) {
    forall i, j, name :: 0 <= i < j < |result| && Names(result[j], name) ==> Names(result[i], name)
  }

  /** What is stored under a key is what is read for it: the entry of function i is its own row. */
  lemma StoredUnderName(result: seq<Deployment>, d: nat, i: nat)
    requires d < |result| && result[d].Deployed? && i < |result[d].functions|
    ensures OutcomesOf(result, result[d].functions[i].name, d) == result[d].functions[i].outcomes
  {
    LookupFinds(result[d].functions, result[d].functions[i].name, i);
  }

  lemma LookupFinds(fs: Results, name: string, i: nat)
    requires i < |fs| && fs[i].name == name
    ensures Lookup(fs, name) == fs[i].outcomes
  {
    LookupUpTo(fs, |fs|, i);
    assert fs[..|fs|] == fs;
  }

  lemma {:induction false} LookupUpTo(fs: Results, m: nat, i: nat)
    requires i < m <= |fs|
    ensures Lookup(fs[..m], fs[i].name) == fs[i].outcomes
  {
    assert fs[..m][..m - 1] == fs[..m - 1];
    if i < m - 1 {
      LookupUpTo(fs, m - 1, i);
    }
  }

  /** The part of the data seen when m functions of deployment j of compiler c have been read. */
  ghost function Seen(data: seq<RunnerResult>, c: nat, j: nat, m: nat): seq<seq<Deployment>>
    requires c < |data| && j < |data[c]| && data[c][j].Deployed? && m <= |data[c][j].functions|
  {
    data[..c] + [data[c][..j] + [Deployed(data[c][j].functions[..m])]]
  }

  /** One more function changes one row of one cell. */
  lemma SeenStep(data: seq<RunnerResult>, c: nat, j: nat, m: nat, name: string, d: nat)
    requires c < |data| && j < |data[c]| && data[c][j].Deployed? && m < |data[c][j].functions|
    ensures var f := data[c][j].functions[m]; var before, after := Seen(data, c, j, m), Seen(data, c, j, m + 1);
            var earlier := RowsFor(data[..c], name, d);
            if name == f.name && d == j then
              RowsFor(before, name, d) == earlier + [[]] && RowsFor(after, name, d) == earlier + [f.outcomes]
            else RowsFor(after, name, d) == RowsFor(before, name, d)
  {
    var fs := data[c][j].functions;
    var before, after := Seen(data, c, j, m), Seen(data, c, j, m + 1);
    var earlier := RowsFor(data[..c], name, d);
    assert fs[..m + 1][..m] == fs[..m];
    if d == j && name == fs[m].name {
      NotThere(fs[..m], name);
      assert RowsFor(before, name, d) == earlier + [[]];
      assert RowsFor(after, name, d) == earlier + [fs[m].outcomes];
    } else {
      assert OutcomesOf(after[c], name, d) == OutcomesOf(before[c], name, d);
      assert RowsFor(after, name, d) == RowsFor(before, name, d);
    }
  }

  lemma {:induction false} NotThere(fs: seq<FunctionResults>, name: string)
    requires forall i :: 0 <= i < |fs| ==> fs[i].name != name
    ensures Lookup(fs, name) == []
  {
    if fs != [] { NotThere(fs[..|fs| - 1], name); }
  }

  ghost predicate AllDeployed(data: seq<RunnerResult>) {
    forall c, j :: 0 <= c < |data| && 0 <= j < |data[c]| ==> data[c][j].Deployed?
  }

  function Rows(table: Table, name: string): nat {
    if name in table.at then |table.at[name]| else 0
  }

  /** Adds the outcomes of one function in deployment j to the table. */
  method AddOutcomes(table: Table, j: nat, name: string, outcomes: seq<Outcome>, ghost earlier: seq<seq<Outcome>>)
    returns (r: Table, raised: bool)
    requires WellKeyed(table) && Cell(table, name, j) == Columns(earlier)
    ensures WellKeyed(r)
    ensures raised <==> outcomes != [] && j > Rows(table, name)
    ensures !raised ==> Cell(r, name, j) == Columns(earlier + [outcomes])
    ensures !raised ==> forall n, d: nat :: n != name || d != j ==> Cell(r, n, d) == Cell(table, n, d)
    ensures !raised ==> forall n :: Rows(r, n) == if n == name then RowsAfter(Rows(table, n), j) else Rows(table, n)
  {
    hide Column, Longest, Columns, Place;
    var cells := if name in table.at then table.at[name] else [];
    if j > |cells| - 1 {
      cells := cells + [[]];
    }
    ghost var grown := cells;
    EmptyRow(earlier);
    assert outcomes[..0] == [];
    NothingYet<Outcome>();
    for k := 0 to |outcomes|
      invariant |cells| == |grown| && forall d :: 0 <= d < |grown| && d != j ==> cells[d] == grown[d]
      invariant k > 0 ==> j < |cells|
      invariant k <= Longest(earlier + [outcomes[..k]])
      invariant (if j < |cells| then cells[j] else []) == Columns(earlier + [outcomes[..k]])
    {
      if j >= |cells| {
        return table, true;
      }
      PlaceStep(earlier, outcomes, k);
      cells := cells[j := Place(cells[j], k, outcomes[k])];
    }
    assert outcomes[..|outcomes|] == outcomes;
    r := Table(if name in table.at then table.names else table.names + [name], table.at[name := cells]);
    raised := false;
  }

  // ----- when reshaping raises

  /** A deployment beyond the rows of a function adds one row, wherever it is. */
  function RowsAfter(rows: nat, deployment: nat): nat {
    if deployment >= rows then rows + 1 else rows
  }

  /** The rows a function has after it was met in these deployments. */
  function Grown(met: seq<nat>): nat {
    if met == [] then 0 else RowsAfter(Grown(met[..|met| - 1]), met[|met| - 1])
  }

  /** The deployments a function is met in, compiler by compiler. */
  ghost function Met(data: seq<seq<Deployment>>, name: string): seq<nat> {
    if data == [] then [] else Met(data[..|data| - 1], name) + MetBy(data[|data| - 1], name)
  }

  ghost function MetBy(result: seq<Deployment>, name: string): seq<nat> {
    if result == [] then []
    else MetBy(result[..|result| - 1], name) + (if Names(result[|result| - 1], name) then [|result| - 1] else [])
  }

  ghost predicate Position(data: seq<RunnerResult>, c: nat, j: nat, m: nat) {
    c < |data| && j < |data[c]| && data[c][j].Deployed? && m < |data[c][j].functions|
  }

  /** Function m of deployment j of compiler c has outcomes, and fewer than j rows so far. */
  ghost predicate GapAt(data: seq<RunnerResult>, c: nat, j: nat, m: nat)
    requires Position(data, c, j, m)
  {
    var f := data[c][j].functions[m];
    f.outcomes != [] && j > Grown(Met(Seen(data, c, j, m), f.name))
  }

  ghost predicate Gap(data: seq<RunnerResult>) {
    exists c: nat, j: nat, m: nat :: Position(data, c, j, m) && GapAt(data, c, j, m)
  }

  /** No gap before function m of deployment j of compiler c. */
  ghost predicate NoGapBefore(data: seq<RunnerResult>, c: nat, j: nat, m: nat) {
    forall c': nat, j': nat, m': nat ::
      Position(data, c', j', m') && (c' < c || (c' == c && (j' < j || (j' == j && m' < m)))) ==>
      !GapAt(data, c', j', m')
  }

  ghost predicate RowsAre(table: Table, data: seq<seq<Deployment>>) {
    forall name :: Rows(table, name) == Grown(Met(data, name))
  }

  lemma NothingMet()
    ensures RowsAre(Table([], map[]), [])
  {
  }

  lemma MetNoDeployment(table: Table, data: seq<seq<Deployment>>)
    requires RowsAre(table, data)
    ensures RowsAre(table, data + [[]])
  {
    forall name ensures Met(data + [[]], name) == Met(data, name) {
      assert (data + [[]])[..|data|] == data;
    }
  }

  lemma MetNone(table: Table, data: seq<RunnerResult>, c: nat, j: nat)
    requires c < |data| && j < |data[c]| && data[c][j].Deployed? && RowsAre(table, data[..c] + [data[c][..j]])
    ensures RowsAre(table, Seen(data, c, j, 0))
  {
    var before, after := data[..c] + [data[c][..j]], Seen(data, c, j, 0);
    forall name ensures Met(after, name) == Met(before, name) {
      assert before[..c] == data[..c] && after[..c] == data[..c];
      assert after[c][..j] == data[c][..j];
    }
  }

  lemma MetAll(table: Table, data: seq<RunnerResult>, c: nat, j: nat)
    requires c < |data| && j < |data[c]| && data[c][j].Deployed?
    requires RowsAre(table, Seen(data, c, j, |data[c][j].functions|))
    ensures RowsAre(table, data[..c] + [data[c][..j + 1]])
  {
    SeenWhole(data, c, j);
  }

  lemma SeenWhole(data: seq<RunnerResult>, c: nat, j: nat)
    requires c < |data| && j < |data[c]| && data[c][j].Deployed?
    ensures Seen(data, c, j, |data[c][j].functions|) == data[..c] + [data[c][..j + 1]]
  {
    assert data[c][j].functions[..|data[c][j].functions|] == data[c][j].functions;
    assert data[c][..j + 1] == data[c][..j] + [data[c][j]];
    assert data[c][j] == Deployed(data[c][j].functions);
  }

  /** Meeting one more function. */
  lemma MetStep(data: seq<RunnerResult>, c: nat, j: nat, m: nat, name: string)
    requires Position(data, c, j, m)
    ensures Met(Seen(data, c, j, m + 1), name) ==
            Met(Seen(data, c, j, m), name) + (if name == data[c][j].functions[m].name then [j] else [])
  {
    var fs := data[c][j].functions;
    var before, after := Seen(data, c, j, m), Seen(data, c, j, m + 1);
    assert before[..c] == data[..c] && after[..c] == data[..c];
    assert before[c][..j] == data[c][..j] && after[c][..j] == data[c][..j];
    NamesStep(fs, m, name);
    var earlier, part := Met(data[..c], name), MetBy(data[c][..j], name);
    assert MetBy(after[c], name) == part + (if Names(Deployed(fs[..m + 1]), name) then [j] else []);
    assert MetBy(before[c], name) == part + (if Names(Deployed(fs[..m]), name) then [j] else []);
    assert part + [] == part && earlier + (part + [j]) == (earlier + part) + [j];
  }

  lemma NamesStep(fs: Results, m: nat, name: string)
    requires m < |fs|
    ensures name == fs[m].name ==> !Names(Deployed(fs[..m]), name) && Names(Deployed(fs[..m + 1]), name)
    ensures name != fs[m].name ==> (Names(Deployed(fs[..m + 1]), name) <==> Names(Deployed(fs[..m]), name))
  {
    assert fs[..m + 1][m] == fs[m];
    forall i | 0 <= i < m ensures fs[..m][i] == fs[i] == fs[..m + 1][i] {}
    if name != fs[m].name && Names(Deployed(fs[..m + 1]), name) {
      var i :| 0 <= i < m + 1 && fs[..m + 1][i].name == name;
      assert fs[..m][i].name == name;
    }
    if Names(Deployed(fs[..m]), name) {
      var i :| 0 <= i < m && fs[..m][i].name == name;
      assert fs[..m + 1][i].name == name;
    }
  }

  lemma RowsStep(before: Table, after: Table, data: seq<RunnerResult>, c: nat, j: nat, m: nat)
    requires Position(data, c, j, m) && RowsAre(before, Seen(data, c, j, m))
    requires forall n :: Rows(after, n) ==
               if n == data[c][j].functions[m].name then RowsAfter(Rows(before, n), j) else Rows(before, n)
    ensures RowsAre(after, Seen(data, c, j, m + 1))
  {
    hide Seen, Met, Rows, RowsAfter;
    forall n ensures Rows(after, n) == Grown(Met(Seen(data, c, j, m + 1), n)) {
      MetStep(data, c, j, m, n);
      var met := Met(Seen(data, c, j, m), n);
      assert (met + [j])[..|met|] == met && met + [] == met;
    }
  }

  /** When every compiler lists the same functions in all its deployments there is no gap. */
  lemma ContiguousHasNoGap(data: seq<RunnerResult>)
    requires forall c :: 0 <= c < |data| ==> Contiguous(data[c])
    ensures !Gap(data)
  {
    forall c: nat, j: nat, m: nat | Position(data, c, j, m) ensures !GapAt(data, c, j, m) {
      var name, seen := data[c][j].functions[m].name, Seen(data, c, j, m);
      assert Names(data[c][j], name);
      forall d | 0 <= d < j ensures Names(seen[c][d], name) {
        assert Names(data[c][d], name);
      }
      assert seen[..c] == data[..c];
      MetGrows(Met(seen[..c], name), seen[c], j, name);
    }
  }

  lemma {:induction false} MetGrows(earlier: seq<nat>, result: seq<Deployment>, j: nat, name: string)
    requires j <= |result| && forall d :: 0 <= d < j ==> Names(result[d], name)
    ensures Grown(earlier + MetBy(result, name)) >= j
    decreases |result|
  {
    if result == [] {
    } else {
      var front, last := result[..|result| - 1], |result| - 1;
      MetGrows(earlier, front, if j <= last then j else last, name);
      var met := earlier + MetBy(front, name);
      if Names(result[last], name) {
        assert earlier + MetBy(result, name) == met + [last];
        assert (met + [last])[..|met|] == met;
      } else {
        assert earlier + MetBy(result, name) == met;
      }
    }
  }

  /** Lines the data up. It raises an index error if and only if a function that has outcomes is met in a
      deployment that leaves a gap after its rows so far. */
  method ReshapeData(data: seq<RunnerResult>) returns (table: Table, raised: bool)
    requires AllDeployed(data)
    ensures raised <==> Gap(data)
    ensures !raised ==> Reshaped(table, data) && WellKeyed(table)
  {
    hide Column, Longest, Columns, Lookup, Reshaped, RowsAre, Met, NoGapBefore, GapAt, Seen;
    table, raised := Table([], map[]), false;
    NothingReshaped();
    NothingMet();
    assert data[..0] == [];
    NoGapFirst(data);
    for c := 0 to |data|
      invariant Reshaped(table, data[..c]) && WellKeyed(table) && RowsAre(table, data[..c])
      invariant NoGapBefore(data, c, 0, 0)
    {
      var result: seq<Deployment> := data[c];
      NoDeployment(table, data[..c]);
      MetNoDeployment(table, data[..c]);
      assert result[..0] == [];
      for j := 0 to |result|
        invariant Reshaped(table, data[..c] + [result[..j]]) && WellKeyed(table)
        invariant RowsAre(table, data[..c] + [result[..j]]) && NoGapBefore(data, c, j, 0)
      {
        var functions := result[j].functions;
        SeenNone(table, data, c, j);
        MetNone(table, data, c, j);
        for m := 0 to |functions|
          invariant Reshaped(table, Seen(data, c, j, m)) && WellKeyed(table)
          invariant RowsAre(table, Seen(data, c, j, m)) && NoGapBefore(data, c, j, m)
        {
          ghost var before := table;
          ghost var earlier := RowsFor(data[..c], functions[m].name, j);
          CellBefore(table, data, c, j, m);
          GapHere(table, data, c, j, m);
          table, raised := AddOutcomes(table, j, functions[m].name, functions[m].outcomes, earlier);
          if raised {
            return;
          }
          CellsAfter(before, table, data, c, j, m);
          RowsStep(before, table, data, c, j, m);
          NoGapStep(data, c, j, m);
        }
        SeenAll(table, data, c, j);
        MetAll(table, data, c, j);
        NoGapDeployment(data, c, j);
      }
      assert result[..|result|] == result && data[..c + 1] == data[..c] + [data[c]];
      NoGapCompiler(data, c);
    }
    assert data[..|data|] == data;
    NoGapAtAll(data);
  }

  /** A function that is missing from the first deployment of the only compiler and has outcomes in the second. */
  const MISSING_EARLIER: RunnerResult :=
    [Deployed([]), Deployed([FunctionResults("func_0", [RuntimeError("")])])]

  lemma GapWitness()
    ensures AllDeployed([MISSING_EARLIER]) && Gap([MISSING_EARLIER])
  {
    hide Met, Seen;
    NotMetBefore();
    assert Position([MISSING_EARLIER], 0, 1, 0) && GapAt([MISSING_EARLIER], 0, 1, 0);
  }

  lemma NotMetBefore()
    ensures Met(Seen([MISSING_EARLIER], 0, 1, 0), "func_0") == []
  {
    var data, none := [MISSING_EARLIER], Deployed([]);
    assert data[..0] == [] && data[0][..1] == [none] && data[0][1].functions[..0] == [];
    assert data[0][..1] + [Deployed(data[0][1].functions[..0])] == [none, none];
    assert Seen(data, 0, 1, 0) == data[..0] + [[none, none]] == [[none, none]];
    MeetsNothing(none);
    assert [[none, none]][..0] == [];
  }

  lemma MeetsNothing(none: Deployment)
    requires none == Deployed([])
    ensures MetBy([none, none], "func_0") == []
  {
    assert [none, none][..1] == [none] && [none][..0] == [];
    assert MetBy([none], "func_0") == [];
  }

  /** Lining those results up raises. */
  method ReshapeMissing() returns (raised: bool)
    ensures raised
  {
    GapWitness();
    var table;
    table, raised := ReshapeData([MISSING_EARLIER]);
  }

  lemma NoGapFirst(data: seq<RunnerResult>)
    ensures NoGapBefore(data, 0, 0, 0)
  {
  }

  lemma GapHere(table: Table, data: seq<RunnerResult>, c: nat, j: nat, m: nat)
    requires Position(data, c, j, m) && RowsAre(table, Seen(data, c, j, m))
    ensures var f := data[c][j].functions[m]; GapAt(data, c, j, m) <==> f.outcomes != [] && j > Rows(table, f.name)
  {
  }

  lemma NoGapStep(data: seq<RunnerResult>, c: nat, j: nat, m: nat)
    requires Position(data, c, j, m) && NoGapBefore(data, c, j, m) && !GapAt(data, c, j, m)
    ensures NoGapBefore(data, c, j, m + 1)
  {
    hide GapAt;
  }

  lemma NoGapDeployment(data: seq<RunnerResult>, c: nat, j: nat)
    requires c < |data| && j < |data[c]| && data[c][j].Deployed? && NoGapBefore(data, c, j, |data[c][j].functions|)
    ensures NoGapBefore(data, c, j + 1, 0)
  {
    hide GapAt;
  }

  lemma NoGapCompiler(data: seq<RunnerResult>, c: nat)
    requires c < |data| && NoGapBefore(data, c, |data[c]|, 0)
    ensures NoGapBefore(data, c + 1, 0, 0)
  {
    hide GapAt;
  }

  lemma NoGapAtAll(data: seq<RunnerResult>)
    requires NoGapBefore(data, |data|, 0, 0)
    ensures !Gap(data)
  {
    hide GapAt;
  }

  lemma NothingReshaped()
    ensures Reshaped(Table([], map[]), [])
  {
  }

  lemma NoDeployment(table: Table, data: seq<seq<Deployment>>)
    requires Reshaped(table, data)
    ensures Reshaped(table, data + [[]])
  {
    forall name, d: nat ensures Cell(table, name, d) == Columns(RowsFor(data + [[]], name, d)) {
      EmptyRow(RowsFor(data, name, d));
      assert RowsFor(data + [[]], name, d) == RowsFor(data, name, d) + [[]];
    }
  }

  lemma SeenNone(table: Table, data: seq<RunnerResult>, c: nat, j: nat)
    requires c < |data| && j < |data[c]| && data[c][j].Deployed?
    requires Reshaped(table, data[..c] + [data[c][..j]])
    ensures Reshaped(table, Seen(data, c, j, 0))
  {
    var before, after := data[..c] + [data[c][..j]], Seen(data, c, j, 0);
    assert data[c][j].functions[..0] == [];
    forall name, d: nat ensures RowsFor(after, name, d) == RowsFor(before, name, d) {
      assert OutcomesOf(after[c], name, d) == OutcomesOf(before[c], name, d);
    }
  }

  lemma SeenAll(table: Table, data: seq<RunnerResult>, c: nat, j: nat)
    requires c < |data| && j < |data[c]| && data[c][j].Deployed?
    requires Reshaped(table, Seen(data, c, j, |data[c][j].functions|))
    ensures Reshaped(table, data[..c] + [data[c][..j + 1]])
  {
    SeenWhole(data, c, j);
  }

  lemma CellBefore(table: Table, data: seq<RunnerResult>, c: nat, j: nat, m: nat)
    requires c < |data| && j < |data[c]| && data[c][j].Deployed? && m < |data[c][j].functions|
    requires Reshaped(table, Seen(data, c, j, m))
    ensures var name := data[c][j].functions[m].name; Cell(table, name, j) == Columns(RowsFor(data[..c], name, j))
  {
    hide Column, Longest, Columns;
    var name := data[c][j].functions[m].name;
    SeenStep(data, c, j, m, name, j);
    EmptyRow(RowsFor(data[..c], name, j));
  }

  lemma CellsAfter(before: Table, after: Table, data: seq<RunnerResult>, c: nat, j: nat, m: nat)
    requires c < |data| && j < |data[c]| && data[c][j].Deployed? && m < |data[c][j].functions|
    requires Reshaped(before, Seen(data, c, j, m))
    requires var f := data[c][j].functions[m];
             Cell(after, f.name, j) == Columns(RowsFor(data[..c], f.name, j) + [f.outcomes])
    requires forall n, d: nat :: n != data[c][j].functions[m].name || d != j ==> Cell(after, n, d) == Cell(before, n, d)
    ensures Reshaped(after, Seen(data, c, j, m + 1))
  {
    hide Column, Longest, Columns, Cell, RowsFor, Seen;
    forall n, d: nat ensures Cell(after, n, d) == Columns(RowsFor(Seen(data, c, j, m + 1), n, d)) {
      SeenStep(data, c, j, m, n, d);
      assert Cell(before, n, d) == Columns(RowsFor(Seen(data, c, j, m), n, d));
    }
  }

  // ----- comparing

  /** What differs between two outcomes, or nothing at all after a runtime error. Any two memories and any two
      gas costs pass. */
  datatype Report =
    | NotCompared
    | Compared(storage: Option<(seq<string>, seq<string>)>, returnValue: Option<(string, string)>)

  function CompareStorage(a: seq<string>, b: seq<string>): Option<(seq<string>, seq<string>)> {
    if a != b then Some((a, b)) else None
  }

  function CompareReturnValue(a: string, b: string): Option<(string, string)> {
    if a != b then Some((a, b)) else None
  }

  /** A kind of discrepancy is reported, with both values, exactly where they differ. */
  predicate ShowsKind<T(==)>(difference: Option<(T, T)>, x: T, y: T) {
    if x == y then difference.None? else difference == Some((x, y))
  }

  predicate Shows(r: Report, a: Outcome, b: Outcome) {
    if a.Returned? && b.Returned? then
      r.Compared? && ShowsKind(r.storage, a.state, b.state) && ShowsKind(r.returnValue, a.value, b.value)
    else r.NotCompared?
  }

  function VerifyTwoResults(a: Outcome, b: Outcome): (r: Report)
    ensures Shows(r, a, b)
  {
    if a.RuntimeError? || b.RuntimeError? then NotCompared
    else Compared(CompareStorage(a.state, b.state), CompareReturnValue(a.value, b.value))
  }

  /** That leaves nothing open. */
  lemma ShownOnce(r: Report, a: Outcome, b: Outcome)
    requires Shows(r, a, b)
    ensures r == VerifyTwoResults(a, b)
  {
  }

  predicate Discrepant(r: Report) {
    r.Compared? && (r.storage.Some? || r.returnValue.Some?)
  }

  predicate Agree(a: Outcome, b: Outcome) {
    a.Returned? && b.Returned? && a.state == b.state && a.value == b.value
  }

  /** A comparison of the outcomes of two adjacent compilers, which are given by their positions. */
  datatype Row = Row(first: nat, second: nat, name: string, deployment: nat, paramsSet: nat, report: Report)

  ghost predicate RowExpected(r: Row, data: seq<seq<Deployment>>) {
    var column := Column(RowsFor(data, r.name, r.deployment), r.paramsSet);
    && r.second == r.first + 1 < |column|
    && r.report == VerifyTwoResults(column[r.first], column[r.second])
  }

  ghost predicate Distinct(rows: seq<Row>) {
    forall i, j :: 0 <= i < j < |rows| ==> rows[i] != rows[j]
  }

  /** Exactly one row for every two neighbours in every column. */
  ghost predicate ReportOf(rows: seq<Row>, data: seq<seq<Deployment>>) {
    (forall r :: r in rows <==> RowExpected(r, data)) && Distinct(rows)
  }

  /** r belongs to one of the first n functions. */
  ghost predicate AmongFirst(r: Row, names: seq<string>, n: nat) {
    exists p :: 0 <= p < n && p < |names| && names[p] == r.name
  }

  /** r comes before neighbours j and j + 1 of input set k of deployment d of function n. */
  ghost predicate Before(r: Row, names: seq<string>, n: nat, d: nat, k: nat, j: nat)
    requires n < |names|
  {
    || AmongFirst(r, names, n)
    || (r.name == names[n] && r.deployment < d)
    || (r.name == names[n] && r.deployment == d && r.paramsSet < k)
    || (r.name == names[n] && r.deployment == d && r.paramsSet == k && r.first < j)
  }

  ghost predicate Done(rows: seq<Row>, names: seq<string>, data: seq<seq<Deployment>>, n: nat, d: nat, k: nat, j: nat)
    requires n < |names|
  {
    (forall r :: r in rows <==> RowExpected(r, data) && Before(r, names, n, d, k, j)) && Distinct(rows)
  }

  ghost predicate AllDone(rows: seq<Row>, names: seq<string>, data: seq<seq<Deployment>>, n: nat) {
    (forall r :: r in rows <==> RowExpected(r, data) && AmongFirst(r, names, n)) && Distinct(rows)
  }

  method VerifyResults(table: Table, ghost data: seq<seq<Deployment>>) returns (rows: seq<Row>)
    requires Reshaped(table, data) && WellKeyed(table)
    ensures ReportOf(rows, data)
  {
    hide Done, AllDone, Column, RowsFor, Columns, ReportOf;
    rows := [];
    NoneDone(table.names, data);
    for n := 0 to |table.names|
      invariant AllDone(rows, table.names, data, n)
    {
      var deployments := table.at[table.names[n]];
      FirstDeployment(rows, table, data, n);
      for d := 0 to |deployments|
        invariant Done(rows, table.names, data, n, d, 0, 0)
      {
        for k := 0 to |deployments[d]|
          invariant Done(rows, table.names, data, n, d, k, 0)
        {
          var column := deployments[d][k];
          IsColumn(table, data, n, d, k);
          for j := 0 to |column|
            invariant j == 0 || j < |column|
            invariant Done(rows, table.names, data, n, d, k, j)
          {
            if j == |column| - 1 {
              break;
            }
            var row := Row(j, j + 1, table.names[n], d, k, VerifyTwoResults(column[j], column[j + 1]));
            OneMoreRow(rows, row, table, data, n);
            rows := rows + [row];
          }
          ColumnDone(rows, table, data, n, d, k);
        }
        DeploymentDone(rows, table, data, n, d);
      }
      FunctionDone(rows, table, data, n);
    }
    EverythingDone(rows, table, data);
  }

  lemma NoneDone(names: seq<string>, data: seq<seq<Deployment>>)
    ensures AllDone([], names, data, 0)
  {
  }

  lemma FirstDeployment(rows: seq<Row>, table: Table, data: seq<seq<Deployment>>, n: nat)
    requires n < |table.names| && AllDone(rows, table.names, data, n)
    ensures Done(rows, table.names, data, n, 0, 0, 0)
  {
  }

  lemma IsColumn(table: Table, data: seq<seq<Deployment>>, n: nat, d: nat, k: nat)
    requires Reshaped(table, data) && WellKeyed(table) && n < |table.names|
    requires d < |table.at[table.names[n]]| && k < |table.at[table.names[n]][d]|
    ensures table.at[table.names[n]][d][k] == Column(RowsFor(data, table.names[n], d), k)
  {
    assert Cell(table, table.names[n], d) == table.at[table.names[n]][d];
  }

  lemma OneMoreRow(rows: seq<Row>, row: Row, table: Table, data: seq<seq<Deployment>>, n: nat)
    requires WellKeyed(table) && n < |table.names| && row.name == table.names[n] && RowExpected(row, data)
    requires Done(rows, table.names, data, n, row.deployment, row.paramsSet, row.first)
    ensures Done(rows + [row], table.names, data, n, row.deployment, row.paramsSet, row.first + 1)
  {
    hide Column, RowsFor;
    assert row !in rows;
    forall r | RowExpected(r, data) && Before(r, table.names, n, row.deployment, row.paramsSet, row.first + 1)
      ensures r == row || Before(r, table.names, n, row.deployment, row.paramsSet, row.first)
    {
    }
  }

  lemma ColumnDone(rows: seq<Row>, table: Table, data: seq<seq<Deployment>>, n: nat, d: nat, k: nat)
    requires WellKeyed(table) && n < |table.names|
    requires var size := |Column(RowsFor(data, table.names[n], d), k)|;
             Done(rows, table.names, data, n, d, k, if size == 0 then 0 else size - 1)
    ensures Done(rows, table.names, data, n, d, k + 1, 0)
  {
  }

  lemma DeploymentDone(rows: seq<Row>, table: Table, data: seq<seq<Deployment>>, n: nat, d: nat)
    requires Reshaped(table, data) && WellKeyed(table) && n < |table.names| && d < |table.at[table.names[n]]|
    requires Done(rows, table.names, data, n, d, |table.at[table.names[n]][d]|, 0)
    ensures Done(rows, table.names, data, n, d + 1, 0, 0)
  {
    forall r | RowExpected(r, data) && r.name == table.names[n] && r.deployment == d
      ensures r.paramsSet < |table.at[r.name][d]|
    {
      RowHasPlace(r, table, data);
    }
  }

  /** Every expected row has its place in the table. */
  lemma RowHasPlace(r: Row, table: Table, data: seq<seq<Deployment>>)
    requires Reshaped(table, data) && RowExpected(r, data)
    ensures r.name in table.at && r.deployment < |table.at[r.name]| && r.paramsSet < |table.at[r.name][r.deployment]|
  {
    BeyondLongest(RowsFor(data, r.name, r.deployment), r.paramsSet);
    assert Cell(table, r.name, r.deployment) == Columns(RowsFor(data, r.name, r.deployment));
  }

  lemma FunctionDone(rows: seq<Row>, table: Table, data: seq<seq<Deployment>>, n: nat)
    requires Reshaped(table, data) && WellKeyed(table) && n < |table.names|
    requires Done(rows, table.names, data, n, |table.at[table.names[n]]|, 0, 0)
    ensures AllDone(rows, table.names, data, n + 1)
  {
    hide RowExpected, Reshaped;
    forall r | RowExpected(r, data) && r.name == table.names[n] ensures r.deployment < |table.at[r.name]| {
      RowHasPlace(r, table, data);
    }
    forall r ensures AmongFirst(r, table.names, n + 1) <==> AmongFirst(r, table.names, n) || r.name == table.names[n] {
      if AmongFirst(r, table.names, n + 1) {
        var p :| 0 <= p < n + 1 && p < |table.names| && table.names[p] == r.name;
        if p < n { assert AmongFirst(r, table.names, n); }
      }
    }
  }

  lemma EverythingDone(rows: seq<Row>, table: Table, data: seq<seq<Deployment>>)
    requires Reshaped(table, data) && WellKeyed(table) && AllDone(rows, table.names, data, |table.names|)
    ensures ReportOf(rows, data)
  {
    hide RowExpected, Reshaped;
    forall r | RowExpected(r, data) ensures AmongFirst(r, table.names, |table.names|) {
      RowHasPlace(r, table, data);
      assert r.name in table.names;
    }
  }

  // ----- what the report is worth

  ghost predicate Quiet(column: seq<Outcome>) {
    forall j :: 0 <= j < |column| - 1 ==> !Discrepant(VerifyTwoResults(column[j], column[j + 1]))
  }

  ghost predicate NoErrorIn(column: seq<Outcome>, i: nat, j: nat)
    requires i <= j < |column|
  {
    forall m :: i <= m <= j ==> column[m].Returned?
  }

  lemma {:induction false} QuietAlong(column: seq<Outcome>, i: nat, j: nat)
    requires Quiet(column) && i <= j < |column| && NoErrorIn(column, i, j)
    ensures Agree(column[i], column[j])
    decreases j - i
  {
    if i < j {
      QuietAlong(column, i, j - 1);
      var m := j - 1;
      assert !Discrepant(VerifyTwoResults(column[m], column[m + 1]));
    }
  }

  /** Comparing neighbours finds no discrepancy if and only if any two compilers agree that have no runtime
      error between them. */
  lemma QuietIff(column: seq<Outcome>)
    ensures Quiet(column) <==>
            forall i, j :: 0 <= i < j < |column| && NoErrorIn(column, i, j) ==> Agree(column[i], column[j])
  {
    if Quiet(column) {
      forall i, j | 0 <= i < j < |column| && NoErrorIn(column, i, j) ensures Agree(column[i], column[j]) {
        QuietAlong(column, i, j);
      }
    } else {
      var m :| 0 <= m < |column| - 1 && Discrepant(VerifyTwoResults(column[m], column[m + 1]));
      assert NoErrorIn(column, m, m + 1) && !Agree(column[m], column[m + 1]);
    }
  }

  /** A runtime error in the middle hides any disagreement around it. */
  lemma ErrorHidesDisagreement(a: Outcome, b: Outcome, message: string)
    requires a.Returned? && b.Returned? && !Agree(a, b)
    ensures var column := [a, RuntimeError(message), b];
            Quiet(column) &&
            exists i, j :: 0 <= i < j < |column| && column[i].Returned? && column[j].Returned? &&
                           !Agree(column[i], column[j])
  {
    var column := [a, RuntimeError(message), b];
    assert !Agree(column[0], column[2]);
  }

  /** All compilers ran the same deployments and got an outcome for the same functions and inputs. */
  ghost predicate EqualShape(data: seq<seq<Deployment>>) {
    forall c, name, d: nat :: 0 <= c < |data| ==> |OutcomesOf(data[c], name, d)| == |OutcomesOf(data[0], name, d)|
  }

  /** On results of equal shape the table is the exact transpose: result[f][d][k][c] is what compiler c got
      for function f, deployment d and input set k, and there is nothing else in it. */
  lemma ExactTranspose(table: Table, data: seq<seq<Deployment>>, name: string, d: nat)
    requires Reshaped(table, data) && EqualShape(data) && data != []
    ensures var cell, outcomes := Cell(table, name, d), OutcomesOf(data[0], name, d);
            && |cell| == |outcomes|
            && (forall k :: 0 <= k < |cell| ==> |cell[k]| == |data|)
            && (forall k, c :: 0 <= k < |cell| && 0 <= c < |data| ==>
                 k < |OutcomesOf(data[c], name, d)| && cell[k][c] == OutcomesOf(data[c], name, d)[k])
  {
    hide OutcomesOf;
    var rows, n := RowsFor(data, name, d), |OutcomesOf(data[0], name, d)|;
    EqualRows(rows, n, 0);
    forall k | 0 <= k < n
      ensures |Column(rows, k)| == |data|
      ensures forall c :: 0 <= c < |data| ==> Column(rows, k)[c] == OutcomesOf(data[c], name, d)[k]
    {
      EqualRows(rows, n, k);
    }
  }

  ghost predicate RowAt(r: Row, name: string, d: nat, k: nat) {
    r.name == name && r.deployment == d && r.paramsSet == k
  }

  /** On results of equal shape there are exactly (compilers - 1) rows for every function, deployment and
      input set: one for each two neighbours, with their names on it and their own outcomes compared. */
  lemma RowsOfInput(rows: seq<Row>, data: seq<seq<Deployment>>, name: string, d: nat, k: nat, r: Row)
    requires ReportOf(rows, data) && EqualShape(data) && data != [] && k < |OutcomesOf(data[0], name, d)|
    requires RowAt(r, name, d, k)
    ensures r in rows <==>
            && r.second == r.first + 1 < |data|
            && k < |OutcomesOf(data[r.first], name, d)| && k < |OutcomesOf(data[r.second], name, d)|
            && Shows(r.report, OutcomesOf(data[r.first], name, d)[k], OutcomesOf(data[r.second], name, d)[k])
  {
    hide OutcomesOf, VerifyTwoResults, Shows;
    forall a, b | Shows(r.report, a, b) ensures r.report == VerifyTwoResults(a, b) {
      ShownOnce(r.report, a, b);
    }
    var outcomes := RowsFor(data, name, d);
    EqualRows(outcomes, |OutcomesOf(data[0], name, d)|, k);
    assert r in rows <==> RowExpected(r, data);
  }

  /** When no compiler had a runtime error on an input set, the report shows no discrepancy for it if and only
      if all compilers agree on it. */
  lemma ReportComplete(rows: seq<Row>, data: seq<seq<Deployment>>, name: string, d: nat, k: nat)
    requires ReportOf(rows, data) && EqualShape(data) && data != [] && k < |OutcomesOf(data[0], name, d)|
    requires forall c :: 0 <= c < |data| ==>
               k < |OutcomesOf(data[c], name, d)| && OutcomesOf(data[c], name, d)[k].Returned?
    ensures (forall r :: r in rows && RowAt(r, name, d, k) ==> !Discrepant(r.report)) <==>
            forall i, j :: 0 <= i < j < |data| ==>
              Agree(OutcomesOf(data[i], name, d)[k], OutcomesOf(data[j], name, d)[k])
  {
    hide OutcomesOf, VerifyTwoResults, Discrepant, Quiet, Agree;
    var outcomes := RowsFor(data, name, d);
    EqualRows(outcomes, |OutcomesOf(data[0], name, d)|, k);
    var column := Column(outcomes, k);
    QuietRows(rows, data, name, d, k);
    QuietIff(column);
    if Quiet(column) {
      forall i, j | 0 <= i < j < |data|
        ensures Agree(OutcomesOf(data[i], name, d)[k], OutcomesOf(data[j], name, d)[k])
      {
        assert NoErrorIn(column, i, j);
        assert Agree(column[i], column[j]);
      }
    }
  }

  // ----- one kind of discrepancy at a time

  ghost predicate AllReturned(column: seq<Outcome>) {
    forall c :: 0 <= c < |column| ==> column[c].Returned?
  }

  lemma {:induction false} SameStateAlong(column: seq<Outcome>, i: nat, j: nat)
    requires AllReturned(column) && i <= j < |column|
    requires forall m :: 0 <= m < |column| - 1 ==> VerifyTwoResults(column[m], column[m + 1]).storage.None?
    ensures column[i].state == column[j].state
    decreases j - i
  {
    if i < j {
      SameStateAlong(column, i, j - 1);
      assert VerifyTwoResults(column[j - 1], column[j - 1 + 1]).storage.None?;
    }
  }

  lemma {:induction false} SameValueAlong(column: seq<Outcome>, i: nat, j: nat)
    requires AllReturned(column) && i <= j < |column|
    requires forall m :: 0 <= m < |column| - 1 ==> VerifyTwoResults(column[m], column[m + 1]).returnValue.None?
    ensures column[i].value == column[j].value
    decreases j - i
  {
    if i < j {
      SameValueAlong(column, i, j - 1);
      assert VerifyTwoResults(column[j - 1], column[j - 1 + 1]).returnValue.None?;
    }
  }

  ghost predicate NoStorage(r: Report) {
    r.Compared? && r.storage.None?
  }

  ghost predicate NoReturnValue(r: Report) {
    r.Compared? && r.returnValue.None?
  }

  /** Without runtime errors on an input set, no storage is reported for it if and only if all compilers left the
      same storage. */
  lemma StorageComplete(rows: seq<Row>, data: seq<seq<Deployment>>, name: string, d: nat, k: nat)
    requires ReportOf(rows, data) && AllReturned(Column(RowsFor(data, name, d), k))
    ensures var out := Column(RowsFor(data, name, d), k);
            (forall r :: r in rows && RowAt(r, name, d, k) ==> NoStorage(r.report)) <==>
            forall i, j :: 0 <= i < j < |out| ==> out[i].state == out[j].state
  {
    hide Column, RowsFor, ReportOf, RowAt;
    var out := Column(RowsFor(data, name, d), k);
    ReportsOn(rows, data, name, d, k, NoStorage);
    if forall r :: r in rows && RowAt(r, name, d, k) ==> NoStorage(r.report) {
      forall i, j | 0 <= i < j < |out| ensures out[i].state == out[j].state { SameStateAlong(out, i, j); }
    }
  }

  /** And no return value if and only if all returned the same. */
  lemma ReturnValueComplete(rows: seq<Row>, data: seq<seq<Deployment>>, name: string, d: nat, k: nat)
    requires ReportOf(rows, data) && AllReturned(Column(RowsFor(data, name, d), k))
    ensures var out := Column(RowsFor(data, name, d), k);
            (forall r :: r in rows && RowAt(r, name, d, k) ==> NoReturnValue(r.report)) <==>
            forall i, j :: 0 <= i < j < |out| ==> out[i].value == out[j].value
  {
    hide Column, RowsFor, ReportOf, RowAt;
    var out := Column(RowsFor(data, name, d), k);
    ReportsOn(rows, data, name, d, k, NoReturnValue);
    if forall r :: r in rows && RowAt(r, name, d, k) ==> NoReturnValue(r.report) {
      forall i, j | 0 <= i < j < |out| ensures out[i].value == out[j].value { SameValueAlong(out, i, j); }
    }
  }

  ghost predicate NoDiscrepancy(r: Report) {
    !Discrepant(r)
  }

  /** The reports on an input set are those on the neighbours in its column. */
  lemma ReportsOn(rows: seq<Row>, data: seq<seq<Deployment>>, name: string, d: nat, k: nat, p: Report -> bool)
    requires ReportOf(rows, data)
    ensures var column := Column(RowsFor(data, name, d), k);
            (forall r :: r in rows && RowAt(r, name, d, k) ==> p(r.report)) <==>
            forall m :: 0 <= m < |column| - 1 ==> p(VerifyTwoResults(column[m], column[m + 1]))
  {
    hide Column, RowsFor, VerifyTwoResults, ReportOf, RowAt;
    var column := Column(RowsFor(data, name, d), k);
    if forall r :: r in rows && RowAt(r, name, d, k) ==> p(r.report) {
      forall m | 0 <= m < |column| - 1 ensures p(VerifyTwoResults(column[m], column[m + 1])) {
        var r := RowOfNeighbours(rows, data, name, d, k, m);
        assert p(r.report);
      }
    } else {
      var r :| r in rows && RowAt(r, name, d, k) && !p(r.report);
      NeighboursOfRow(rows, data, name, d, k, r);
      assert !p(VerifyTwoResults(column[r.first], column[r.first + 1]));
    }
  }

  lemma RowOfNeighbours(rows: seq<Row>, data: seq<seq<Deployment>>, name: string, d: nat, k: nat, m: nat)
    returns (r: Row)
    requires ReportOf(rows, data) && m + 1 < |Column(RowsFor(data, name, d), k)|
    ensures var column := Column(RowsFor(data, name, d), k);
            r in rows && RowAt(r, name, d, k) && r.report == VerifyTwoResults(column[m], column[m + 1])
  {
    hide Column, RowsFor, VerifyTwoResults;
    var column := Column(RowsFor(data, name, d), k);
    r := Row(m, m + 1, name, d, k, VerifyTwoResults(column[m], column[m + 1]));
    assert RowExpected(r, data);
  }

  lemma NeighboursOfRow(rows: seq<Row>, data: seq<seq<Deployment>>, name: string, d: nat, k: nat, r: Row)
    requires ReportOf(rows, data) && r in rows && RowAt(r, name, d, k)
    ensures var column := Column(RowsFor(data, name, d), k);
            r.first + 1 < |column| && r.report == VerifyTwoResults(column[r.first], column[r.first + 1])
  {
    hide Column, RowsFor, VerifyTwoResults;
    assert RowExpected(r, data);
  }

  /** The report on an input set is quiet when its column is. */
  lemma QuietRows(rows: seq<Row>, data: seq<seq<Deployment>>, name: string, d: nat, k: nat)
    requires ReportOf(rows, data)
    ensures (forall r :: r in rows && RowAt(r, name, d, k) ==> !Discrepant(r.report)) <==>
            Quiet(Column(RowsFor(data, name, d), k))
  {
    hide Column, RowsFor, VerifyTwoResults, Discrepant, ReportOf;
    ReportsOn(rows, data, name, d, k, NoDiscrepancy);
    forall r ensures NoDiscrepancy(r) <==> !Discrepant(r) {}
  }
}
