/**
 * ValidationReportGenerator: the plain-text report of a schema validation.
 * A local StringBuilder is the only state, so the report is a function of
 * the ValidationResult, built here as a concatenation of its blocks. `%n`
 * is written as "\n", the Unix line separator (Java writes the platform's,
 * "\r\n" on Windows), and `%d` as IntToString.
 */
module ValidationReportGeneratorModel {
  import opened JavaStr
  import opened TableValidationModel
  import opened ValidationResultModel

  const CHECK: string := "\U{2713}"
  const CROSS: string := "\U{2717}"
  const RULE_WIDTH: nat := 60

  /** A rule of 60 `c` and a line break. */
  function Rule(c: char): string { Repeat(c, RULE_WIDTH) + "\n" }

  function Banner(): string
  {
    "\n" + Rule('=') + "         DATABASE SCHEMA VALIDATION REPORT\n" + Rule('=') + "\n"
  }

  function TablesLine(validated: int, total: int): string
  {
    "Tables Validated:  " + IntToString(validated) + "/" + IntToString(total) + "\n"
  }

  function ColumnsLine(validated: int, total: int): string
  {
    "Columns Validated: " + IntToString(validated) + "/" + IntToString(total) + "\n"
  }

  /** The heading, a dashed rule and the two validated/total lines. */
  function TotalsBlock(result: ValidationResult): string
    reads result
  {
    "VALIDATION RESULTS:\n" + Rule('-') + "\n" +
    TablesLine(result.validatedTables, result.totalTables) +
    ColumnsLine(result.validatedColumns, result.totalColumns) + "\n"
  }

  /** `"  - %-30s (%d/%d columns)%n"` for one found table. */
  function FoundLine(table: TableValidation): string
    reads table
  {
    "  - " + PadRight(table.tableName, 30) + " (" + IntToString(table.ValidatedColumnCount()) + "/" +
    IntToString(table.totalColumns) + " columns)\n"
  }

  function FoundLines(tables: seq<TableValidation>): string
    reads tables
  {
    if tables == [] then [] else FoundLine(tables[0]) + FoundLines(tables[1..])
  }

  /** The found-tables block is written only when there are found tables. */
  function FoundBlock(tables: seq<TableValidation>): string
    reads tables
  {
    if tables == [] then [] else CHECK + " FOUND TABLES:\n" + FoundLines(tables) + "\n"
  }

  /** `"  - %s%n"` for one name. */
  function ItemLine(item: string): string { "  - " + item + "\n" }

  function ItemLines(items: seq<string>): string
  {
    if items == [] then [] else ItemLine(items[0]) + ItemLines(items[1..])
  }

  /** The missing-tables or missing-columns block: the list, or "(none)". */
  function MissingBlock(title: string, items: seq<string>): string
  {
    if items == [] then NoneLine(title)
    else CROSS + " " + title + ":\n" + ItemLines(items) + "\n"
  }

  function NoneLine(title: string): string { CHECK + " " + title + ": (none)\n\n" }

  function SummaryLine(hasErrors: bool, errorCount: int): string
  {
    if hasErrors then CROSS + " Summary: " + IntToString(errorCount) + " issues found\n"
    else CHECK + " Summary: All schema elements validated successfully!\n"
  }

  /** The found-tables, missing-tables and missing-columns blocks, in order. */
  function ListingBlocks(result: ValidationResult): string
    reads result, result.foundTables
  {
    FoundBlock(result.foundTables) +
    MissingBlock("MISSING TABLES", result.missingTables) +
    MissingBlock("MISSING COLUMNS", result.missingColumns)
  }

  /** A dashed rule, the summary line and the closing rule. */
  function Closing(result: ValidationResult): string
    reads result
  {
    Rule('-') + (SummaryLine(result.HasErrors(), result.ErrorCount()) + Rule('='))
  }

  /** `generateReport`. */
  function GenerateReport(result: ValidationResult): string
    reads result, result.foundTables
  {
    Banner() + TotalsBlock(result) + ListingBlocks(result) + Closing(result)
  }

  // ---- properties ----

  lemma SelfContains(t: string)
    ensures Contains(t, t)
  {
    assert t[..|t|] == t;
  }

  /** A text inside the totals block is inside the report. */
  lemma TotalsInReport(result: ValidationResult, t: string)
    requires Contains(TotalsBlock(result), t)
    ensures Contains(GenerateReport(result), t)
  {
    ContainsInMiddle(Banner(), TotalsBlock(result), ListingBlocks(result), t);
    ContainsInPrefix(Banner() + TotalsBlock(result) + ListingBlocks(result), Closing(result), t);
  }

  /** A text inside the listing blocks is inside the report. */
  lemma ListingInReport(result: ValidationResult, t: string)
    requires Contains(ListingBlocks(result), t)
    ensures Contains(GenerateReport(result), t)
  {
    ContainsInMiddle(Banner() + TotalsBlock(result), ListingBlocks(result), Closing(result), t);
  }

  /**
   * The report opens with the banner and always carries the results heading
   * and both validated/total lines.
   */
  lemma ReportHasTotals(result: ValidationResult)
    ensures StartsWith(GenerateReport(result), Banner())
    ensures Contains(GenerateReport(result), "VALIDATION RESULTS:\n")
    ensures Contains(GenerateReport(result), TablesLine(result.validatedTables, result.totalTables))
    ensures Contains(GenerateReport(result), ColumnsLine(result.validatedColumns, result.totalColumns))
  {
    assert StartsWith(Banner(), Banner()) by { assert Banner()[..|Banner()|] == Banner(); }
    StartsWithExtend(Banner(), TotalsBlock(result), Banner());
    StartsWithExtend(Banner() + TotalsBlock(result), ListingBlocks(result), Banner());
    StartsWithExtend(Banner() + TotalsBlock(result) + ListingBlocks(result), Closing(result), Banner());
    var heading := "VALIDATION RESULTS:\n";
    var head := heading + Rule('-') + "\n";
    var tl := TablesLine(result.validatedTables, result.totalTables);
    var cl := ColumnsLine(result.validatedColumns, result.totalColumns);
    SelfContains(heading);
    ContainsInPrefix(heading, Rule('-'), heading);
    ContainsInPrefix(heading + Rule('-'), "\n", heading);
    ContainsInPrefix(head, tl, heading);
    ContainsInPrefix(head + tl, cl, heading);
    ContainsInPrefix(head + tl + cl, "\n", heading);
    TotalsInReport(result, heading);
    SelfContains(tl);
    ContainsInMiddle(head, tl, cl, tl);
    ContainsInPrefix(head + tl + cl, "\n", tl);
    TotalsInReport(result, tl);
    SelfContains(cl);
    ContainsInMiddle(head + tl, cl, "\n", cl);
    TotalsInReport(result, cl);
  }

  /** Every item of a list has its own line. */
  lemma {:induction false} ItemListed(items: seq<string>, k: nat)
    requires k < |items|
    ensures Contains(ItemLines(items), ItemLine(items[k]))
  {
    if k == 0 {
      SelfContains(ItemLine(items[0]));
      ContainsInPrefix(ItemLine(items[0]), ItemLines(items[1..]), ItemLine(items[0]));
    } else {
      ItemListed(items[1..], k - 1);
      ContainsInSuffix(ItemLine(items[0]), ItemLines(items[1..]), ItemLine(items[k]));
    }
  }

  /** Texts written one after another. */
  function Concatenated(parts: seq<string>): string
  {
    if parts == [] then [] else parts[0] + Concatenated(parts[1..])
  }

  /** Each part is inside the concatenation. */
  lemma {:induction false} PartListed(parts: seq<string>, k: nat)
    requires k < |parts|
    ensures Contains(Concatenated(parts), parts[k])
  {
    if k == 0 {
      SelfContains(parts[0]);
      ContainsInPrefix(parts[0], Concatenated(parts[1..]), parts[0]);
    } else {
      PartListed(parts[1..], k - 1);
      ContainsInSuffix(parts[0], Concatenated(parts[1..]), parts[k]);
    }
  }

  /** The lines of the found tables, in order. */
  function FoundLineList(tables: seq<TableValidation>): (r: seq<string>)
    reads tables
    ensures |r| == |tables|
  {
    if tables == [] then [] else [FoundLine(tables[0])] + FoundLineList(tables[1..])
  }

  lemma {:induction false} FoundLinesConcatenated(tables: seq<TableValidation>, k: nat)
    requires k < |tables|
    ensures FoundLines(tables) == Concatenated(FoundLineList(tables))
    ensures FoundLineList(tables)[k] == FoundLine(tables[k])
  {
    var list := FoundLineList(tables);
    if |tables| > 1 {
      FoundLinesConcatenated(tables[1..], if k == 0 then 0 else k - 1);
      assert list[1..] == FoundLineList(tables[1..]);
      if k > 0 {
        assert tables[1..][k - 1] == tables[k];
      }
    } else {
      assert list[1..] == [];
    }
  }

  /** Every found table has its own line. */
  lemma FoundListed(tables: seq<TableValidation>, k: nat)
    requires k < |tables|
    ensures Contains(FoundLines(tables), FoundLine(tables[k]))
  {
    FoundLinesConcatenated(tables, k);
    PartListed(FoundLineList(tables), k);
  }

  /** A non-empty list's block carries each item's line. */
  lemma ItemInBlock(title: string, items: seq<string>, k: nat)
    requires k < |items|
    ensures Contains(MissingBlock(title, items), ItemLine(items[k]))
  {
    ItemListed(items, k);
    ContainsInMiddle(CROSS + " " + title + ":\n", ItemLines(items), "\n", ItemLine(items[k]));
  }

  /** Each found table is listed with its validated and total column counts. */
  lemma ReportListsFoundTable(result: ValidationResult, k: nat)
    requires k < |result.foundTables|
    ensures Contains(GenerateReport(result), FoundLine(result.foundTables[k]))
  {
    var tables := result.foundTables;
    var t := FoundLine(tables[k]);
    FoundListed(tables, k);
    ContainsInMiddle(CHECK + " FOUND TABLES:\n", FoundLines(tables), "\n", t);
    var mt := MissingBlock("MISSING TABLES", result.missingTables);
    var mc := MissingBlock("MISSING COLUMNS", result.missingColumns);
    ContainsInPrefix(FoundBlock(tables), mt, t);
    ContainsInPrefix(FoundBlock(tables) + mt, mc, t);
    ListingInReport(result, t);
  }

  /** Each missing table is listed by name. */
  lemma ReportListsMissingTable(result: ValidationResult, k: nat)
    requires k < |result.missingTables|
    ensures Contains(GenerateReport(result), ItemLine(result.missingTables[k]))
  {
    var t := ItemLine(result.missingTables[k]);
    ItemInBlock("MISSING TABLES", result.missingTables, k);
    ContainsInMiddle(FoundBlock(result.foundTables), MissingBlock("MISSING TABLES", result.missingTables),
      MissingBlock("MISSING COLUMNS", result.missingColumns), t);
    ListingInReport(result, t);
  }

  /** Each missing column is listed in its stored `table.column` form. */
  lemma ReportListsMissingColumn(result: ValidationResult, k: nat)
    requires k < |result.missingColumns|
    ensures Contains(GenerateReport(result), ItemLine(result.missingColumns[k]))
  {
    var t := ItemLine(result.missingColumns[k]);
    ItemInBlock("MISSING COLUMNS", result.missingColumns, k);
    ContainsInSuffix(FoundBlock(result.foundTables) + MissingBlock("MISSING TABLES", result.missingTables),
      MissingBlock("MISSING COLUMNS", result.missingColumns), t);
    ListingInReport(result, t);
  }

  /** With no missing tables, or no missing columns, the report says "(none)". */
  lemma ReportSaysNone(result: ValidationResult)
    ensures result.missingTables == [] ==> Contains(GenerateReport(result), NoneLine("MISSING TABLES"))
    ensures result.missingColumns == [] ==> Contains(GenerateReport(result), NoneLine("MISSING COLUMNS"))
  {
    var fb := FoundBlock(result.foundTables);
    var mt := MissingBlock("MISSING TABLES", result.missingTables);
    var mc := MissingBlock("MISSING COLUMNS", result.missingColumns);
    if result.missingTables == [] {
      SelfContains(mt);
      ContainsInMiddle(fb, mt, mc, mt);
      ListingInReport(result, mt);
    }
    if result.missingColumns == [] {
      SelfContains(mc);
      ContainsInSuffix(fb + mt, mc, mc);
      ListingInReport(result, mc);
    }
  }

  /**
   * The found-tables block appears exactly when there are found tables:
   * otherwise the missing-tables block follows the totals directly.
   */
  lemma FoundBlockOnlyWhenFound(result: ValidationResult)
    ensures result.foundTables != [] ==> StartsWith(ListingBlocks(result), CHECK + " FOUND TABLES:\n")
    ensures result.foundTables == [] ==>
      ListingBlocks(result) == MissingBlock("MISSING TABLES", result.missingTables) +
        MissingBlock("MISSING COLUMNS", result.missingColumns)
  {
    var h := CHECK + " FOUND TABLES:\n";
    var mt := MissingBlock("MISSING TABLES", result.missingTables);
    var mc := MissingBlock("MISSING COLUMNS", result.missingColumns);
    if result.foundTables != [] {
      var lines := FoundLines(result.foundTables);
      assert h[..|h|] == h;
      StartsWithExtend(h, lines, h);
      StartsWithExtend(h + lines, "\n", h);
      StartsWithExtend(h + lines + "\n", mt, h);
      StartsWithExtend(h + lines + "\n" + mt, mc, h);
    } else {
      assert ListingBlocks(result) == [] + mt + mc;
      assert [] + mt == mt;
    }
  }

  /**
   * The report ends with the issue count when the result has errors and
   * with the success line otherwise, then the closing rule.
   */
  lemma ReportSummary(result: ValidationResult)
    ensures result.HasErrors() ==> EndsWith(GenerateReport(result),
      CROSS + " Summary: " + IntToString(|result.missingTables| + |result.missingColumns|) + " issues found\n" + Rule('='))
    ensures !result.HasErrors() ==> EndsWith(GenerateReport(result),
      CHECK + " Summary: All schema elements validated successfully!\n" + Rule('='))
    ensures !result.HasErrors() ==> result.missingTables == [] && result.missingColumns == []
  {
    var tail := SummaryLine(result.HasErrors(), result.ErrorCount()) + Rule('=');
    assert EndsWith(tail, tail) by { assert tail[|tail| - |tail|..] == tail; }
    EndsWithExtend(Rule('-'), tail, tail);
    EndsWithExtend(Banner() + TotalsBlock(result) + ListingBlocks(result), Closing(result), tail);
  }
}
