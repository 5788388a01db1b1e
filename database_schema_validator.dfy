/**
 * DatabaseSchemaValidator: checks every table and column a mapping needs
 * against the database catalogue and records what it found in a
 * ValidationResult.
 */
module DatabaseSchemaValidatorModel {
  import opened Wrappers
  import opened JavaStr
  import opened TableValidationModel
  import opened ValidationResultModel

  /**
   * The JDBC catalogue (`DatabaseMetaData`): whether `getTables` for a name,
   * or `getColumns` for a table and column name, returns a row. `Err` is the
   * message of the SQLException the query throws.
   */
  datatype Catalog = Catalog(
    tableQuery: string -> Result<bool>,
    columnQuery: (string, string) -> Result<bool>)

  /**
   * Queries run in order until one confirms: true at the first confirmed
   * query, false when every query answers no, and the first exception when
   * a query throws before any confirmed.
   */
  function FirstHit(answers: seq<Result<bool>>): Result<bool>
  {
    if answers == [] then Ok(false)
    else if answers[0] == Ok(false) then FirstHit(answers[1..])
    else answers[0]
  }

  /**
   * What FirstHit returns: false exactly when every query answers no, true
   * exactly when some query confirms after only noes, and otherwise the
   * exception of the first query that throws after only noes.
   */
  lemma {:induction false} FirstHitMeaning(answers: seq<Result<bool>>)
    ensures FirstHit(answers) == Ok(false) <==> forall i :: 0 <= i < |answers| ==> answers[i] == Ok(false)
    ensures FirstHit(answers) == Ok(true) <==>
      exists i :: 0 <= i < |answers| && answers[i] == Ok(true) &&
        forall j :: 0 <= j < i ==> answers[j] == Ok(false)
    ensures FirstHit(answers).Err? ==>
      exists i :: 0 <= i < |answers| && answers[i] == FirstHit(answers) &&
        forall j :: 0 <= j < i ==> answers[j] == Ok(false)
  {
    if answers != [] && answers[0] == Ok(false) {
      var rest := answers[1..];
      FirstHitMeaning(rest);
      assert forall i :: 1 <= i < |answers| ==> answers[i] == rest[i - 1];
      if FirstHit(rest) == Ok(true) {
        var i :| 0 <= i < |rest| && rest[i] == Ok(true) && forall j :: 0 <= j < i ==> rest[j] == Ok(false);
        assert answers[i + 1] == Ok(true) && forall j :: 0 <= j < i + 1 ==> answers[j] == Ok(false);
      }
      if FirstHit(rest).Err? {
        var i :| 0 <= i < |rest| && rest[i] == FirstHit(rest) && forall j :: 0 <= j < i ==> rest[j] == Ok(false);
        assert answers[i + 1] == FirstHit(answers) && forall j :: 0 <= j < i + 1 ==> answers[j] == Ok(false);
      }
      if exists i :: 0 <= i < |answers| && answers[i] == Ok(true) && forall j :: 0 <= j < i ==> answers[j] == Ok(false) {
        var i :| 0 <= i < |answers| && answers[i] == Ok(true) && forall j :: 0 <= j < i ==> answers[j] == Ok(false);
        assert i > 0;
        assert rest[i - 1] == Ok(true) && forall j :: 0 <= j < i - 1 ==> rest[j] == Ok(false);
      }
    } else if answers != [] {
      assert answers[0] != Ok(false);
    }
  }

  /** `checkTableExists`: the name as given, then upper case, then lower case. */
  function CheckTableExists(cat: Catalog, table: string): Result<bool>
  {
    FirstHit([cat.tableQuery(table), cat.tableQuery(ToUpper(table)), cat.tableQuery(ToLower(table))])
  }

  /** `checkColumnExists`: the seven case combinations, in the source's order. */
  function CheckColumnExists(cat: Catalog, table: string, column: string): Result<bool>
  {
    FirstHit([
      cat.columnQuery(table, column),
      cat.columnQuery(ToUpper(table), column),
      cat.columnQuery(ToLower(table), column),
      cat.columnQuery(table, ToUpper(column)),
      cat.columnQuery(table, ToLower(column)),
      cat.columnQuery(ToUpper(table), ToUpper(column)),
      cat.columnQuery(ToLower(table), ToLower(column))])
  }

  /** What the validator learns about one table. */
  datatype TableOutcome =
    | Missing(name: string)
    | Found(name: string, validated: seq<string>, absent: seq<string>, total: nat)

  type Entries = seq<(string, seq<string>)>

  /** The columns of one existing table, split into found and absent, in order. */
  function SplitColumns(cat: Catalog, table: string, cols: seq<string>): (r: Result<(seq<string>, seq<string>)>)
    ensures r.Ok? ==> |r.value.0| + |r.value.1| == |cols|
  {
    if cols == [] then Ok(([], []))
    else
      var last := cols[|cols| - 1];
      assert cols == cols[..|cols| - 1] + [last];
      match SplitColumns(cat, table, cols[..|cols| - 1])
      case Err(e) => Err(e)
      case Ok(acc) =>
        match CheckColumnExists(cat, table, last)
        case Err(e) => Err(e)
        case Ok(found) =>
          if found then Ok((acc.0 + [last], acc.1)) else Ok((acc.0, acc.1 + [last]))
  }

  /** Every column lands in exactly one of the two lists. */
  lemma {:induction false} SplitColumnsPermutes(cat: Catalog, table: string, cols: seq<string>)
    requires SplitColumns(cat, table, cols).Ok?
    ensures var split := SplitColumns(cat, table, cols).value;
      multiset(split.0) + multiset(split.1) == multiset(cols)
  {
    if cols != [] {
      var init := cols[..|cols| - 1];
      SplitColumnsPermutes(cat, table, init);
      assert cols == init + [cols[|cols| - 1]];
    }
  }

  function OutcomeOf(cat: Catalog, entry: (string, seq<string>)): (r: Result<TableOutcome>)
    ensures r.Ok? ==> r.value.name == entry.0
    ensures r.Ok? && r.value.Found? ==>
      r.value.total == |entry.1| == |r.value.validated| + |r.value.absent|
  {
    match CheckTableExists(cat, entry.0)
    case Err(e) => Err(e)
    case Ok(present) =>
      if !present then Ok(Missing(entry.0))
      else
        match SplitColumns(cat, entry.0, entry.1)
        case Err(e) => Err(e)
        case Ok(split) => Ok(Found(entry.0, split.0, split.1, |entry.1|))
  }

  /** Every table in map order; the first exception ends the walk. */
  function Outcomes(cat: Catalog, entries: Entries): (r: Result<seq<TableOutcome>>)
    ensures r.Ok? ==> |r.value| == |entries|
    ensures r.Ok? ==> forall k :: 0 <= k < |entries| ==> r.value[k].name == entries[k].0
    ensures r.Ok? ==> forall k :: 0 <= k < |entries| && r.value[k].Found? ==>
      r.value[k].total == |entries[k].1| == |r.value[k].validated| + |r.value[k].absent|
  {
    if entries == [] then Ok([])
    else
      match Outcomes(cat, entries[..|entries| - 1])
      case Err(e) => Err(e)
      case Ok(os) =>
        match OutcomeOf(cat, entries[|entries| - 1])
        case Err(e) => Err(e)
        case Ok(o) => Ok(os + [o])
  }

  // ---- what the result holds, as functions of the outcomes ----

  function MissingNames(os: seq<TableOutcome>): (r: seq<string>)
    ensures |r| <= |os|
  {
    if os == [] then []
    else MissingNames(os[..|os| - 1]) + (if os[|os| - 1].Missing? then [os[|os| - 1].name] else [])
  }

  /** `t + "." + c` for each column `c`. */
  function Dotted(table: string, cols: seq<string>): (r: seq<string>)
    ensures |r| == |cols|
    ensures forall k :: 0 <= k < |cols| ==> r[k] == table + "." + cols[k]
  {
    if cols == [] then [] else Dotted(table, cols[..|cols| - 1]) + [table + "." + cols[|cols| - 1]]
  }

  function MissingColumnNames(os: seq<TableOutcome>): seq<string>
  {
    if os == [] then []
    else
      var o := os[|os| - 1];
      MissingColumnNames(os[..|os| - 1]) + (if o.Found? then Dotted(o.name, o.absent) else [])
  }

  function FoundOnly(os: seq<TableOutcome>): (r: seq<TableOutcome>)
    ensures forall k :: 0 <= k < |r| ==> r[k].Found?
  {
    if os == [] then []
    else FoundOnly(os[..|os| - 1]) + (if os[|os| - 1].Found? then [os[|os| - 1]] else [])
  }

  function ValidatedCount(os: seq<TableOutcome>): nat
  {
    if os == [] then 0
    else
      var o := os[|os| - 1];
      ValidatedCount(os[..|os| - 1]) + (if o.Found? then |o.validated| else 0)
  }

  function AbsentCount(os: seq<TableOutcome>): nat
  {
    if os == [] then 0
    else
      var o := os[|os| - 1];
      AbsentCount(os[..|os| - 1]) + (if o.Found? then |o.absent| else 0)
  }

  /** The columns of the tables that exist. */
  function FoundColumnCount(os: seq<TableOutcome>): nat
  {
    if os == [] then 0
    else
      var o := os[|os| - 1];
      FoundColumnCount(os[..|os| - 1]) + (if o.Found? then o.total else 0)
  }

  /** `values().stream().mapToInt(Set::size).sum()`. */
  function TotalColumns(entries: Entries): nat
  {
    if entries == [] then 0 else TotalColumns(entries[..|entries| - 1]) + |entries[|entries| - 1].1|
  }

  // ---- properties ----

  /** Every table is either found or missing, once. */
  lemma {:induction false} TablesPartition(os: seq<TableOutcome>)
    ensures |FoundOnly(os)| + |MissingNames(os)| == |os|
  {
    if os != [] {
      TablesPartition(os[..|os| - 1]);
    }
  }

  /** Each listed missing column is one absent column of an existing table. */
  lemma {:induction false} MissingColumnsCount(os: seq<TableOutcome>)
    ensures |MissingColumnNames(os)| == AbsentCount(os)
  {
    if os != [] {
      MissingColumnsCount(os[..|os| - 1]);
    }
  }

  /**
   * Validated plus missing columns are exactly the columns of the existing
   * tables, which is at most the number of columns asked about.
   */
  lemma {:induction false} ColumnsPartition(cat: Catalog, entries: Entries)
    requires Outcomes(cat, entries).Ok?
    ensures var os := Outcomes(cat, entries).value;
      ValidatedCount(os) + |MissingColumnNames(os)| == FoundColumnCount(os) <= TotalColumns(entries)
  {
    var os := Outcomes(cat, entries).value;
    MissingColumnsCount(os);
    if entries != [] {
      var init := entries[..|entries| - 1];
      ColumnsPartition(cat, init);
      var os0 := Outcomes(cat, init).value;
      assert os == os0 + [os[|os| - 1]];
      assert os[..|os| - 1] == os0;
      MissingColumnsCount(os0);
    }
  }

  /** A table named in every query's answer as absent is reported missing. */
  lemma AbsentTable(cat: Catalog, table: string, cols: seq<string>)
    requires cat.tableQuery(table) == Ok(false)
    requires cat.tableQuery(ToUpper(table)) == Ok(false)
    requires cat.tableQuery(ToLower(table)) == Ok(false)
    ensures OutcomeOf(cat, (table, cols)) == Ok(Missing(table))
  {
    var answers := [cat.tableQuery(table), cat.tableQuery(ToUpper(table)), cat.tableQuery(ToLower(table))];
    FirstHitMeaning(answers);
    assert forall i :: 0 <= i < |answers| ==> answers[i] == Ok(false);
  }

  /** A table whose lower-case name the catalogue knows exists, unless an earlier query throws. */
  lemma LowerCaseTableFound(cat: Catalog, table: string)
    requires cat.tableQuery(table) == Ok(false) && cat.tableQuery(ToUpper(table)) == Ok(false)
    requires cat.tableQuery(ToLower(table)) == Ok(true)
    ensures CheckTableExists(cat, table) == Ok(true)
  {
    var answers := [cat.tableQuery(table), cat.tableQuery(ToUpper(table)), cat.tableQuery(ToLower(table))];
    FirstHitMeaning(answers);
    assert answers[2] == Ok(true) && answers[0] == Ok(false) && answers[1] == Ok(false);
  }

  // ---- the validator ----

  /** The found-table record `tv` holds what the outcome `o` says. */
  predicate Holds(tv: TableValidation, o: TableOutcome)
    reads tv
  {
    o.Found? && tv.tableName == o.name && tv.present && tv.validatedColumns == o.validated &&
    tv.totalColumns == o.total
  }

  /** The result's lists and counters agree with the outcomes of the tables seen so far. */
  predicate Agrees(res: ValidationResult, os: seq<TableOutcome>, validatedTables: int, validatedColumns: int)
    reads res, res.foundTables
  {
    res.missingTables == MissingNames(os) && res.missingColumns == MissingColumnNames(os) &&
    validatedTables == |FoundOnly(os)| &&
    validatedColumns == ValidatedCount(os) &&
    AllHold(res.foundTables, FoundOnly(os))
  }

  /** Each found-table record holds the outcome at its position. */
  predicate AllHold(tables: seq<TableValidation>, fs: seq<TableOutcome>)
    reads tables
  {
    |tables| == |fs| && forall k :: 0 <= k < |tables| ==> Holds(tables[k], fs[k])
  }

  lemma AllHoldSnoc(tables: seq<TableValidation>, fs: seq<TableOutcome>, tv: TableValidation, o: TableOutcome)
    requires AllHold(tables, fs) && Holds(tv, o)
    ensures AllHold(tables + [tv], fs + [o])
  {
  }

  /**
   * `validate`: the totals come from the map; each table is looked up, a
   * missing one is listed once, and each column of an existing one is
   * either added to the table's validated list or listed as missing. A
   * catalogue exception becomes a RuntimeException (here Err) with the
   * source's message.
   */
  method Validate(cat: Catalog, entries: Entries) returns (r: Result<ValidationResult>)
    ensures r.Ok? <==> Outcomes(cat, entries).Ok?
    ensures r.Err? ==> r.message == "Database validation failed: " + Outcomes(cat, entries).message
    ensures r.Ok? ==> fresh(r.value)
    ensures r.Ok? ==> r.value.totalTables == |entries| && r.value.totalColumns == TotalColumns(entries)
    ensures r.Ok? ==> Agrees(r.value, Outcomes(cat, entries).value, r.value.validatedTables, r.value.validatedColumns)
  {
    var result := new ValidationResult();
    result.SetTotalTables(|entries|);
    result.SetTotalColumns(TotalColumns(entries));
    var failure, validatedTables, validatedColumns := ValidateTables(cat, entries, result);
    if failure.Some? {
      return Err("Database validation failed: " + failure.value);
    }
    result.SetValidatedTables(validatedTables);
    result.SetValidatedColumns(validatedColumns);
    return Ok(result);
  }

  /**
   * The table loop of `validate`, with its two counters, on a result that
   * has listed nothing yet; Some exception message when a query throws.
   */
  method ValidateTables(cat: Catalog, entries: Entries, result: ValidationResult)
    returns (failure: Option<string>, validatedTables: int, validatedColumns: int)
    requires result.missingTables == [] && result.missingColumns == [] && result.foundTables == []
    modifies result
    ensures failure.Some? <==> Outcomes(cat, entries).Err?
    ensures failure.Some? ==> failure.value == Outcomes(cat, entries).message
    ensures failure.None? ==> Agrees(result, Outcomes(cat, entries).value, validatedTables, validatedColumns)
    ensures result.totalTables == old(result.totalTables) && result.totalColumns == old(result.totalColumns)
  {
    validatedTables, validatedColumns := 0, 0;
    var i := 0;
    ghost var os: seq<TableOutcome> := [];
    while i < |entries|
      invariant 0 <= i <= |entries|
      invariant Outcomes(cat, entries[..i]) == Ok(os)
      invariant result.totalTables == old(result.totalTables) && result.totalColumns == old(result.totalColumns)
      invariant Agrees(result, os, validatedTables, validatedColumns)
    {
      failure, validatedTables, validatedColumns, os :=
        ValidateEntry(cat, entries, i, result, os, validatedTables, validatedColumns);
      if failure.Some? {
        OutcomesFails(cat, entries, i + 1);
        return;
      }
      i := i + 1;
    }
    assert entries[..i] == entries;
    return None, validatedTables, validatedColumns;
  }

  /**
   * One pass of `validate`'s table loop, with its two counters: the result
   * goes on agreeing with the outcomes of one more table, or the walk ends
   * with that table's exception.
   */
  method ValidateEntry(cat: Catalog, entries: Entries, i: nat, result: ValidationResult,
                       ghost os: seq<TableOutcome>, validatedTables: int, validatedColumns: int)
    returns (failure: Option<string>, validatedTables': int, validatedColumns': int, ghost os': seq<TableOutcome>)
    requires i < |entries| && Outcomes(cat, entries[..i]) == Ok(os)
    requires Agrees(result, os, validatedTables, validatedColumns)
    modifies result
    ensures failure.Some? ==> Outcomes(cat, entries[..i + 1]) == Err(failure.value)
    ensures failure.None? ==> Outcomes(cat, entries[..i + 1]) == Ok(os')
    ensures failure.None? ==> Agrees(result, os', validatedTables', validatedColumns')
    ensures result.totalTables == old(result.totalTables) && result.totalColumns == old(result.totalColumns)
  {
    ghost var tables := result.foundTables;
    var tableExists, columnsFound;
    failure, tableExists, columnsFound := ValidateTable(cat, entries[i].0, entries[i].1, result);
    assert (entries[i].0, entries[i].1) == entries[i];
    if failure.Some? {
      OutcomesErrStep(cat, entries, i);
      return failure, validatedTables, validatedColumns, os;
    }
    validatedTables' := if tableExists then validatedTables + 1 else validatedTables;
    validatedColumns' := validatedColumns + columnsFound;
    ghost var o := OutcomeOf(cat, entries[i]).value;
    OutcomesStep(cat, entries, i, os, o);
    if o.Found? {
      FoundStep(os, o);
      AllHoldSnoc(tables, FoundOnly(os), result.foundTables[|tables|], o);
      assert result.foundTables == tables + [result.foundTables[|tables|]];
    } else {
      MissingStep(os, o.name);
    }
    os' := os + [o];
  }

  /**
   * `result` after one table: a missing table is listed once; an existing
   * one adds its absent columns and then its record, which holds the outcome.
   */
  predicate TableRecorded(res: ValidationResult, missingTables: seq<string>, missingColumns: seq<string>,
                          tables: seq<TableValidation>, o: TableOutcome)
    reads res, res.foundTables
  {
    if o.Missing? then
      res.missingTables == missingTables + [o.name] && res.missingColumns == missingColumns &&
      res.foundTables == tables
    else
      res.missingTables == missingTables && res.missingColumns == missingColumns + Dotted(o.name, o.absent) &&
      |res.foundTables| == |tables| + 1 && res.foundTables[..|tables|] == tables &&
      Holds(res.foundTables[|tables|], o)
  }

  /**
   * The body of `validate`'s table loop: a new TableValidation with the
   * column total, the table lookup, then either the column loop and
   * `addFoundTable` or `addMissingTable`. Reports whether the table exists
   * and how many of its columns were found, for the two counters.
   */
  method ValidateTable(cat: Catalog, tableName: string, columns: seq<string>, result: ValidationResult)
    returns (failure: Option<string>, tableExists: bool, columnsFound: nat)
    modifies result
    ensures failure.Some? <==> OutcomeOf(cat, (tableName, columns)).Err?
    ensures failure.Some? ==> failure.value == OutcomeOf(cat, (tableName, columns)).message
    ensures failure.None? ==>
      var o := OutcomeOf(cat, (tableName, columns)).value;
      tableExists == o.Found? && columnsFound == (if o.Found? then |o.validated| else 0) &&
      TableRecorded(result, old(result.missingTables), old(result.missingColumns), old(result.foundTables), o)
    ensures result.totalTables == old(result.totalTables) && result.totalColumns == old(result.totalColumns)
  {
    var tableValidation := new TableValidation(tableName);
    tableValidation.SetTotalColumns(|columns|);
    var lookup := CheckTableExists(cat, tableName);
    if lookup.Err? {
      return Some(lookup.message), false, 0;
    }
    tableExists := lookup.value;
    tableValidation.SetExists(tableExists);
    if tableExists {
      failure := CheckColumns(cat, tableName, columns, tableValidation, result);
      if failure.Some? {
        return failure, tableExists, 0;
      }
      columnsFound := |tableValidation.validatedColumns|;
      result.AddFoundTable(tableValidation);
    } else {
      result.AddMissingTable(tableName);
      failure, columnsFound := None, 0;
    }
  }

  /**
   * The inner column loop of `validate` for an existing table: each column
   * found goes to the table's validated list, each other one to the
   * result's missing columns. Returns the exception message, if any.
   */
  method CheckColumns(cat: Catalog, table: string, columns: seq<string>,
                      tv: TableValidation, result: ValidationResult) returns (failure: Option<string>)
    modifies tv, result
    ensures failure.Some? <==> SplitColumns(cat, table, columns).Err?
    ensures failure.Some? ==> failure.value == SplitColumns(cat, table, columns).message
    ensures failure.None? ==>
      tv.validatedColumns == old(tv.validatedColumns) + SplitColumns(cat, table, columns).value.0 &&
      result.missingColumns == old(result.missingColumns) + Dotted(table, SplitColumns(cat, table, columns).value.1)
    ensures tv.tableName == old(tv.tableName) && tv.present == old(tv.present) && tv.totalColumns == old(tv.totalColumns)
    ensures result.missingTables == old(result.missingTables) && result.foundTables == old(result.foundTables)
    ensures result.totalTables == old(result.totalTables) && result.totalColumns == old(result.totalColumns)
  {
    var j := 0;
    ghost var acc: (seq<string>, seq<string>) := ([], []);
    while j < |columns|
      invariant 0 <= j <= |columns|
      invariant SplitColumns(cat, table, columns[..j]) == Ok(acc)
      invariant tv.validatedColumns == old(tv.validatedColumns) + acc.0
      invariant result.missingColumns == old(result.missingColumns) + Dotted(table, acc.1)
      invariant tv.tableName == old(tv.tableName) && tv.present == old(tv.present) && tv.totalColumns == old(tv.totalColumns)
      invariant result.missingTables == old(result.missingTables) && result.foundTables == old(result.foundTables)
      invariant result.totalTables == old(result.totalTables) && result.totalColumns == old(result.totalColumns)
    {
      var found := CheckColumnExists(cat, table, columns[j]);
      if found.Err? {
        SplitErrStep(cat, table, columns, j);
        SplitColumnsFails(cat, table, columns, j + 1);
        return Some(found.message);
      }
      if found.value {
        tv.AddValidatedColumn(columns[j]);
        SplitFoundStep(cat, table, columns, j, acc);
        SnocAssoc(old(tv.validatedColumns), acc.0, columns[j]);
        acc := (acc.0 + [columns[j]], acc.1);
      } else {
        result.AddMissingColumn(table, columns[j]);
        DottedSnoc(table, acc.1, columns[j]);
        SplitAbsentStep(cat, table, columns, j, acc);
        SnocAssoc(old(result.missingColumns), Dotted(table, acc.1), table + "." + columns[j]);
        acc := (acc.0, acc.1 + [columns[j]]);
      }
      j := j + 1;
    }
    assert columns[..j] == columns;
    return None;
  }

  /** One more column that the catalogue confirms joins the validated list. */
  lemma SplitFoundStep(cat: Catalog, table: string, columns: seq<string>, j: nat, acc: (seq<string>, seq<string>))
    requires j < |columns| && SplitColumns(cat, table, columns[..j]) == Ok(acc)
    requires CheckColumnExists(cat, table, columns[j]) == Ok(true)
    ensures SplitColumns(cat, table, columns[..j + 1]) == Ok((acc.0 + [columns[j]], acc.1))
  {
    assert columns[..j + 1][..j] == columns[..j];
  }

  /** One more column that the catalogue denies joins the absent list. */
  lemma SplitAbsentStep(cat: Catalog, table: string, columns: seq<string>, j: nat, acc: (seq<string>, seq<string>))
    requires j < |columns| && SplitColumns(cat, table, columns[..j]) == Ok(acc)
    requires CheckColumnExists(cat, table, columns[j]) == Ok(false)
    ensures SplitColumns(cat, table, columns[..j + 1]) == Ok((acc.0, acc.1 + [columns[j]]))
  {
    assert columns[..j + 1][..j] == columns[..j];
  }

  /** A column whose query throws ends the walk with that exception. */
  lemma SplitErrStep(cat: Catalog, table: string, columns: seq<string>, j: nat)
    requires j < |columns| && SplitColumns(cat, table, columns[..j]).Ok?
    requires CheckColumnExists(cat, table, columns[j]).Err?
    ensures SplitColumns(cat, table, columns[..j + 1]) == Err(CheckColumnExists(cat, table, columns[j]).message)
  {
    assert columns[..j + 1][..j] == columns[..j];
  }

  lemma SnocAssoc<T>(a: seq<T>, b: seq<T>, c: T)
    ensures a + b + [c] == a + (b + [c])
  {
  }

  lemma DottedSnoc(table: string, cols: seq<string>, c: string)
    ensures Dotted(table, cols + [c]) == Dotted(table, cols) + [table + "." + c]
  {
    assert (cols + [c])[..|cols|] == cols;
  }

  /** Once a prefix of the columns throws, the whole walk throws the same. */
  lemma {:induction false} SplitColumnsFails(cat: Catalog, table: string, columns: seq<string>, n: nat)
    requires n <= |columns| && SplitColumns(cat, table, columns[..n]).Err?
    ensures SplitColumns(cat, table, columns) == SplitColumns(cat, table, columns[..n])
    decreases |columns| - n
  {
    if n < |columns| {
      assert columns[..n + 1][..n] == columns[..n];
      SplitColumnsFails(cat, table, columns, n + 1);
    } else {
      assert columns[..n] == columns;
    }
  }

  /** One more table: the walk so far, extended by that table's outcome. */
  lemma OutcomesStep(cat: Catalog, entries: Entries, i: nat, os: seq<TableOutcome>, o: TableOutcome)
    requires i < |entries| && Outcomes(cat, entries[..i]) == Ok(os)
    requires OutcomeOf(cat, entries[i]) == Ok(o)
    ensures Outcomes(cat, entries[..i + 1]) == Ok(os + [o])
  {
    assert entries[..i + 1][..i] == entries[..i];
  }

  /** A table whose lookup or column queries throw ends the walk with that exception. */
  lemma OutcomesErrStep(cat: Catalog, entries: Entries, i: nat)
    requires i < |entries| && Outcomes(cat, entries[..i]).Ok?
    requires OutcomeOf(cat, entries[i]).Err?
    ensures Outcomes(cat, entries[..i + 1]) == Err(OutcomeOf(cat, entries[i]).message)
  {
    assert entries[..i + 1][..i] == entries[..i];
  }

  /** Once a prefix of the tables throws, the whole walk fails the same way. */
  lemma {:induction false} OutcomesFails(cat: Catalog, entries: Entries, n: nat)
    requires n <= |entries| && Outcomes(cat, entries[..n]).Err?
    ensures Outcomes(cat, entries) == Outcomes(cat, entries[..n])
    decreases |entries| - n
  {
    if n < |entries| {
      assert entries[..n + 1][..n] == entries[..n];
      OutcomesFails(cat, entries, n + 1);
    } else {
      assert entries[..n] == entries;
    }
  }

  lemma FoundStep(os: seq<TableOutcome>, o: TableOutcome)
    requires o.Found?
    ensures (os + [o])[..|os|] == os
    ensures MissingNames(os + [o]) == MissingNames(os)
    ensures MissingColumnNames(os + [o]) == MissingColumnNames(os) + Dotted(o.name, o.absent)
    ensures FoundOnly(os + [o]) == FoundOnly(os) + [o]
    ensures ValidatedCount(os + [o]) == ValidatedCount(os) + |o.validated|
  {
    assert (os + [o])[..|os|] == os;
  }

  lemma MissingStep(os: seq<TableOutcome>, name: string)
    ensures MissingNames(os + [Missing(name)]) == MissingNames(os) + [name]
    ensures MissingColumnNames(os + [Missing(name)]) == MissingColumnNames(os)
    ensures FoundOnly(os + [Missing(name)]) == FoundOnly(os)
    ensures ValidatedCount(os + [Missing(name)]) == ValidatedCount(os)
  {
    assert (os + [Missing(name)])[..|os|] == os;
  }
}
