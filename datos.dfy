/**
 * The values that flow through the `Listar` endpoint: the tabular result the
 * database returns, the exceptions the data layer can raise, the HTTP result
 * the handler produces, and the calls it makes on its connection service.
 */
module Datos {
  import opened Wrappers

  /** One cell of a result row: the database null marker or a value. */
  datatype Cell<V> = DbNull | Value(v: V)

  /** A tabular result: its column names in schema order and its rows. */
  datatype Table<V> = Table(columns: seq<string>, rows: seq<seq<Cell<V>>>)

  predicate Distinct(names: seq<string>) {
    forall i, j :: 0 <= i < j < |names| ==> names[i] != names[j]
  }

  /**
   * What a data table guarantees: column names are unique and every row
   * has one cell per column.
   */
  predicate WellFormed<V>(t: Table<V>) {
    && Distinct(t.columns)
    && forall i :: 0 <= i < |t.rows| ==> |t.rows[i]| == |t.columns|
  }

  /** An exception: a SQL Server one carries its error number. */
  datatype Fault =
    | SqlException(number: int, message: string)
    | OtherException(message: string)

  /** What running the query gives back: a table, or an exception. */
  datatype QueryOutcome<V> = Rows(table: Table<V>) | Raised(fault: Fault)

  /**
   * The behaviour of the database for one request: whether opening throws,
   * what the query returns, whether closing throws.
   */
  datatype Database<V> = Database(
    openFault: Option<Fault>,
    query: QueryOutcome<V>,
    closeFault: Option<Fault>)

  predicate ValidDatabase<V>(db: Database<V>) {
    db.query.Rows? ==> WellFormed(db.query.table)
  }

  /** One JSON object of the response: column name to value or null. */
  type RowObject<V> = map<string, Option<V>>

  /** The action result: 200 with the row list, or a status with a text. */
  datatype Response<V> = Ok(body: seq<RowObject<V>>) | Status(code: nat, text: string)

  /** A call made on the connection service. */
  datatype Call = Open | Query(sql: string) | Close
}
