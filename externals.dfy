/** The functions of the `mysql` package that the estimator calls but whose
    definitions are not part of this model, gathered as parameters. Every
    operation that needs one of them takes an `Env`. */
module Externals {
  import opened Uint64
  import DataTypes

  datatype Env = Env(
    /** DataType.IsVar: the type is stored with a variable length. */
    isVar: DataTypes.DataType -> bool,
    /** DataType.IsString: the type holds characters. */
    isString: DataTypes.DataType -> bool,
    /** DataType.IsInt: the type is an integer type. */
    isInt: DataTypes.DataType -> bool,
    /** ToDataType: the type named in a column definition. */
    toDataType: string -> DataTypes.DataType,
    /** Charset(column, database): the charset a column ends up with. */
    charset: (string, string) -> string,
    /** DefaultDatabaseName: the database that holds tables created before
        any database is selected. */
    defaultDatabaseName: string,
    /** The MyISAM key-length estimate, uint64((float64(size) + 4) / 0.67). */
    keyLength: U64 -> U64
  )
}
