/** The SQL statements the estimator reacts to, as an SQL parser delivers
    them: database and table definitions with their column, key and option
    parts. Tokenising and parsing the SQL text are not part of this model. */
module Statements {
  import opened Uint64
  import opened Errors

  /** A column definition: its name, type name, declared length (when one
      is given and reads as a number), charset and NOT NULL flag. */
  datatype ColumnDef = ColumnDef(
    name: string,
    typeName: string,
    length: Option<U64>,
    charset: string,
    notNull: bool)

  /** A key definition: its name ("" when unnamed), the names of its
      columns and whether it is the primary key. */
  datatype IndexDef = IndexDef(name: string, columns: seq<string>, primary: bool)

  /** The body of CREATE TABLE: columns, keys and the table-options text
      (such as "engine=InnoDB row_format=dynamic"). */
  datatype TableSpec = TableSpec(columns: seq<ColumnDef>, indexes: seq<IndexDef>, options: string)

  datatype Statement =
    | CreateDatabase(dbName: string, charset: string)
    | DropDatabase(dbName: string)
    | CreateTable(tableName: string, spec: Option<TableSpec>)
    | AlterTable
    | DropTable
    | RenameTable
      /** A table statement with another action (it still selects the default database). */
    | OtherTableAction
      /** Any other statement, or one that did not parse: ignored. */
    | OtherStatement
  {
    predicate IsTableStatement()
    {
      CreateTable? || AlterTable? || DropTable? || RenameTable? || OtherTableAction?
    }
  }
}
