/**
 * TableValidation: what the schema validator learned about one table, its
 * name, whether it exists, the columns found in it and how many it was
 * asked about.
 */
module TableValidationModel {
  class TableValidation {
    var tableName: string
    /** The Java field `exists` (a reserved word here). */
    var present: bool
    var validatedColumns: seq<string>
    /** A Java `int`, never negative here (it is a set's size). */
    var totalColumns: int

    /** A fresh record: the given name, no validated columns, not (yet) present, zero columns. */
    constructor(tableName: string)
      ensures this.tableName == tableName
      ensures validatedColumns == [] && !present && totalColumns == 0
    {
      this.tableName := tableName;
      present := false;
      validatedColumns := [];
      totalColumns := 0;
    }

    method SetTableName(name: string)
      modifies this
      ensures tableName == name
      ensures present == old(present) && validatedColumns == old(validatedColumns) && totalColumns == old(totalColumns)
    {
      tableName := name;
    }

    method SetExists(b: bool)
      modifies this
      ensures present == b
      ensures tableName == old(tableName) && validatedColumns == old(validatedColumns) && totalColumns == old(totalColumns)
    {
      present := b;
    }

    method SetTotalColumns(n: int)
      modifies this
      ensures totalColumns == n
      ensures tableName == old(tableName) && present == old(present) && validatedColumns == old(validatedColumns)
    {
      totalColumns := n;
    }

    /** `addValidatedColumn`: one more name at the end; the count goes up by one. */
    method AddValidatedColumn(columnName: string)
      modifies this
      ensures validatedColumns == old(validatedColumns) + [columnName]
      ensures ValidatedColumnCount() == old(ValidatedColumnCount()) + 1
      ensures tableName == old(tableName) && present == old(present) && totalColumns == old(totalColumns)
    {
      validatedColumns := validatedColumns + [columnName];
    }

    /** `getValidatedColumnCount`: the list's size, so never negative. */
    function ValidatedColumnCount(): (r: nat)
      reads this
      ensures r == 0 <==> validatedColumns == []
    {
      |validatedColumns|
    }
  }
}
