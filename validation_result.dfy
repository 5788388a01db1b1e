/**
 * ValidationResult: the schema validator's outcome, with its counters, the
 * tables found, and the tables and `table.column` names that are missing.
 */
module ValidationResultModel {
  import opened TableValidationModel

  class ValidationResult {
    var totalTables: int
    var validatedTables: int
    var totalColumns: int
    var validatedColumns: int
    var foundTables: seq<TableValidation>
    var missingTables: seq<string>
    var missingColumns: seq<string>

    /** Empty lists and zero counters. */
    constructor()
      ensures totalTables == 0 && validatedTables == 0 && totalColumns == 0 && validatedColumns == 0
      ensures foundTables == [] && missingTables == [] && missingColumns == []
    {
      totalTables := 0;
      validatedTables := 0;
      totalColumns := 0;
      validatedColumns := 0;
      foundTables := [];
      missingTables := [];
      missingColumns := [];
    }

    /** The four counter setters change their own counter only. */
    method SetTotalTables(n: int)
      modifies this
      ensures totalTables == n
      ensures validatedTables == old(validatedTables) && totalColumns == old(totalColumns) && validatedColumns == old(validatedColumns)
      ensures foundTables == old(foundTables) && missingTables == old(missingTables) && missingColumns == old(missingColumns)
    {
      totalTables := n;
    }

    method SetValidatedTables(n: int)
      modifies this
      ensures validatedTables == n
      ensures totalTables == old(totalTables) && totalColumns == old(totalColumns) && validatedColumns == old(validatedColumns)
      ensures foundTables == old(foundTables) && missingTables == old(missingTables) && missingColumns == old(missingColumns)
    {
      validatedTables := n;
    }

    method SetTotalColumns(n: int)
      modifies this
      ensures totalColumns == n
      ensures totalTables == old(totalTables) && validatedTables == old(validatedTables) && validatedColumns == old(validatedColumns)
      ensures foundTables == old(foundTables) && missingTables == old(missingTables) && missingColumns == old(missingColumns)
    {
      totalColumns := n;
    }

    method SetValidatedColumns(n: int)
      modifies this
      ensures validatedColumns == n
      ensures totalTables == old(totalTables) && validatedTables == old(validatedTables) && totalColumns == old(totalColumns)
      ensures foundTables == old(foundTables) && missingTables == old(missingTables) && missingColumns == old(missingColumns)
    {
      validatedColumns := n;
    }

    /** `addFoundTable`: appended to the found list only. */
    method AddFoundTable(table: TableValidation)
      modifies this
      ensures foundTables == old(foundTables) + [table]
      ensures totalTables == old(totalTables) && validatedTables == old(validatedTables)
      ensures totalColumns == old(totalColumns) && validatedColumns == old(validatedColumns)
      ensures missingTables == old(missingTables) && missingColumns == old(missingColumns)
    {
      foundTables := foundTables + [table];
    }

    /** `addMissingTable`: appended to the missing-table list only. */
    method AddMissingTable(tableName: string)
      modifies this
      ensures missingTables == old(missingTables) + [tableName]
      ensures totalTables == old(totalTables) && validatedTables == old(validatedTables)
      ensures totalColumns == old(totalColumns) && validatedColumns == old(validatedColumns)
      ensures foundTables == old(foundTables) && missingColumns == old(missingColumns)
    {
      missingTables := missingTables + [tableName];
    }

    /** `addMissingColumn`: exactly `table.column` appended, nothing else changed. */
    method AddMissingColumn(tableName: string, columnName: string)
      modifies this
      ensures missingColumns == old(missingColumns) + [tableName + "." + columnName]
      ensures totalTables == old(totalTables) && validatedTables == old(validatedTables)
      ensures totalColumns == old(totalColumns) && validatedColumns == old(validatedColumns)
      ensures foundTables == old(foundTables) && missingTables == old(missingTables)
    {
      missingColumns := missingColumns + [tableName + "." + columnName];
    }

    /** `hasErrors`: a table or a column is missing. */
    predicate HasErrors()
      reads this
      ensures HasErrors() <==> ErrorCount() > 0
    {
      missingTables != [] || missingColumns != []
    }

    /** `getErrorCount`: every missing table and column counts once. */
    function ErrorCount(): (r: nat)
      reads this
      ensures r >= |missingTables| && r >= |missingColumns|
      ensures r == 0 <==> missingTables == [] && missingColumns == []
    {
      |missingTables| + |missingColumns|
    }
  }
}
