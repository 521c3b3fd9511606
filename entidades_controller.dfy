/**
 * The generic listing endpoint `GET api/{nombreProyecto}/{nombreTabla}`:
 * validate the table name, open the connection, run `SELECT * FROM <name>`,
 * close the connection, turn every row into a column-name-to-value object,
 * and map any exception to an HTTP status with a message.
 */
module Entidades {
  import opened Wrappers
  import opened DecimalText
  import opened Datos
  import opened Conexion

  const EmptyTableMessage := "El nombre de la tabla no puede estar vacío."
  const SelectAllPrefix := "SELECT * FROM "
  const SqlErrorPrefix := "Error ("
  const InternalErrorPrefix := "Error interno del servidor: "

  // ---------------------------------------------------------------------
  // Table-name validation

  /** The characters .NET's Char.IsWhiteSpace accepts. */
  function IsWhiteSpace(c: char): (b: bool)
    ensures c == ' ' || c == '\t' || c == '\n' || c == '\r' ==> b
    ensures '!' <= c <= '~' ==> !b
    ensures b ==> c as int <= 0x3000
  {
    || '\U{9}' <= c <= '\U{D}'
    || c == ' ' || c == '\U{85}' || c == '\U{A0}' || c == '\U{1680}'
    || '\U{2000}' <= c <= '\U{200A}'
    || c == '\U{2028}' || c == '\U{2029}' || c == '\U{202F}' || c == '\U{205F}'
    || c == '\U{3000}'
  }

  /** String.IsNullOrWhiteSpace: null, empty, or white space only. */
  function IsNullOrWhiteSpace(s: Option<string>): (b: bool)
    ensures s.None? || s == Some("") ==> b
    ensures s.Some? ==> (!b <==> exists i :: 0 <= i < |s.value| && !IsWhiteSpace(s.value[i]))
  {
    s.None? || forall i :: 0 <= i < |s.value| ==> IsWhiteSpace(s.value[i])
  }

  /** A name that starts with a printable ASCII character other than space is not blank. */
  lemma PrintableStartIsNotBlank(s: string)
    requires |s| > 0 && '!' <= s[0] <= '~'
    ensures !IsNullOrWhiteSpace(Some(s))
  {
  }

  // ---------------------------------------------------------------------
  // Query text

  /** The query text: the prefix followed by the table name, unaltered. */
  function QueryText(nombreTabla: string): (sql: string)
    ensures |sql| == |SelectAllPrefix| + |nombreTabla|
    ensures sql[..|SelectAllPrefix|] == SelectAllPrefix
    ensures sql[|SelectAllPrefix|..] == nombreTabla
  {
    SelectAllPrefix + nombreTabla
  }

  /** Different table names give different query texts. */
  lemma QueryTextInjective(a: string, b: string)
    requires QueryText(a) == QueryText(b)
    ensures a == b
  {
  }

  // ---------------------------------------------------------------------
  // Row shaping

  /** A cell as a nullable object: the database null marker becomes null. */
  function CellToNullable<V>(c: Cell<V>): (r: Option<V>)
    ensures r.None? <==> c.DbNull?
    ensures c.Value? ==> r == Some(c.v)
  {
    match c
    case DbNull => None
    case Value(v) => Some(v)
  }

  /** The column names of a schema, as a set. */
  function ColumnSet(columns: seq<string>): set<string> {
    set c | c in columns
  }

  /** Distinct column names make a set as large as the schema. */
  lemma {:induction false} DistinctColumnSetSize(columns: seq<string>)
    requires Distinct(columns)
    ensures |ColumnSet(columns)| == |columns|
  {
    if columns != [] {
      var n := |columns| - 1;
      DistinctColumnSetSize(columns[..n]);
      assert ColumnSet(columns) == ColumnSet(columns[..n]) + {columns[n]};
      assert columns[n] !in ColumnSet(columns[..n]);
    }
  }

  /**
   * One row as a dictionary: each column name is a key, mapped to its cell
   * as a nullable object. Column names are distinct, so no key is added twice.
   */
  function RowToMap<V>(columns: seq<string>, cells: seq<Cell<V>>): (m: RowObject<V>)
    requires |cells| == |columns| && Distinct(columns)
    ensures m.Keys == ColumnSet(columns)
  {
    map j | 0 <= j < |columns| :: columns[j] := CellToNullable(cells[j])
  }

  /**
   * A row's dictionary has exactly the column names as keys, one entry per
   * column, and each column maps to its own cell, null for a database null.
   */
  lemma RowToMapMeaning<V>(columns: seq<string>, cells: seq<Cell<V>>)
    requires |cells| == |columns| && Distinct(columns)
    ensures RowToMap(columns, cells).Keys == ColumnSet(columns)
    ensures |RowToMap(columns, cells)| == |columns|
    ensures forall j :: 0 <= j < |columns| ==>
              columns[j] in RowToMap(columns, cells)
              && RowToMap(columns, cells)[columns[j]] == CellToNullable(cells[j])
  {
    var m := RowToMap(columns, cells);
    assert m.Keys == ColumnSet(columns);
    DistinctColumnSetSize(columns);
  }

  /** All rows of a table, each shaped into an object, in table order. */
  function ShapeRows<V>(t: Table<V>): (objects: seq<RowObject<V>>)
    requires WellFormed(t)
    ensures |objects| == |t.rows|
  {
    seq(|t.rows|, i requires 0 <= i < |t.rows| => RowToMap(t.columns, t.rows[i]))
  }

  /**
   * Every shaped object has exactly the table's column names as keys, one
   * per column, and the i-th object holds the i-th row's cells.
   */
  lemma ShapeRowsMeaning<V>(t: Table<V>)
    requires WellFormed(t)
    ensures forall i :: 0 <= i < |t.rows| ==>
              ShapeRows(t)[i].Keys == ColumnSet(t.columns) && |ShapeRows(t)[i]| == |t.columns|
    ensures forall i, j :: 0 <= i < |t.rows| && 0 <= j < |t.columns| ==>
              t.columns[j] in ShapeRows(t)[i]
              && ShapeRows(t)[i][t.columns[j]] == CellToNullable(t.rows[i][j])
  {
    forall i | 0 <= i < |t.rows|
      ensures ShapeRows(t)[i].Keys == ColumnSet(t.columns) && |ShapeRows(t)[i]| == |t.columns|
      ensures forall j :: 0 <= j < |t.columns| ==>
                t.columns[j] in ShapeRows(t)[i]
                && ShapeRows(t)[i][t.columns[j]] == CellToNullable(t.rows[i][j])
    {
      RowToMapMeaning(t.columns, t.rows[i]);
    }
  }

  // ---------------------------------------------------------------------
  // Error classification

  /** The HTTP status a SQL Server error number is reported with. */
  function HttpCodeForSqlNumber(number: int): (code: nat)
    ensures code in {404, 409, 500}
    ensures code == 404 <==> number == 208
    ensures code == 409 <==> number == 547 || number == 2627
  {
    match number
    case 208 => 404
    case 547 => 409
    case 2627 => 409
    case _ => 500
  }

  /** The response the catch block builds from an exception. */
  function FaultResponse<V>(f: Fault): (r: Response<V>)
    ensures r.Status? && r.code in {404, 409, 500}
    ensures f.SqlException? ==>
              r.code == HttpCodeForSqlNumber(f.number)
              && r.text == SqlErrorPrefix + NatToString(r.code) + "): " + f.message
    ensures f.OtherException? ==> r.code == 500 && r.text == InternalErrorPrefix + f.message
  {
    match f
    case SqlException(number, message) =>
      var codigoError := HttpCodeForSqlNumber(number);
      Status(codigoError, SqlErrorPrefix + NatToString(codigoError) + "): " + message)
    case OtherException(message) =>
      Status(500, InternalErrorPrefix + message)
  }

  /**
   * The text of a SQL error response carries the status it was sent with:
   * the digits between "Error (" and "): " read back as that status, and
   * the driver's message follows unchanged.
   */
  lemma SqlErrorTextCarriesStatus<V>(number: int, message: string)
    ensures var r := FaultResponse<V>(SqlException(number, message));
            var digits := NatToString(r.code);
            && |r.text| == |SqlErrorPrefix| + |digits| + 3 + |message|
            && r.text[..|SqlErrorPrefix|] == SqlErrorPrefix
            && AllDigits(r.text[|SqlErrorPrefix|..|SqlErrorPrefix| + |digits|])
            && DigitsValue(r.text[|SqlErrorPrefix|..|SqlErrorPrefix| + |digits|]) == r.code
            && r.text[|SqlErrorPrefix| + |digits|..] == "): " + message
  {
    var r := FaultResponse<V>(SqlException(number, message));
    var digits := NatToString(r.code);
    var p := |SqlErrorPrefix|;
    assert r.text == SqlErrorPrefix + digits + ("): " + message);
    assert r.text[p..p + |digits|] == digits;
    NatToStringRoundTrip(r.code);
  }

  /** A SQL error text and an internal error text never coincide. */
  lemma ErrorTextsAreDistinguishable<V>(number: int, m1: string, m2: string)
    ensures FaultResponse<V>(SqlException(number, m1)).text
            != FaultResponse<V>(OtherException(m2)).text
  {
    var t1 := FaultResponse<V>(SqlException(number, m1)).text;
    var t2 := FaultResponse<V>(OtherException(m2)).text;
    assert t1[6] == '(' && t2[6] == 'i';
  }

  // ---------------------------------------------------------------------
  // The whole request, as values

  /**
   * The exception that ends the try block, if any: opening's, else the
   * query's, else closing's.
   */
  function FirstFault<V>(db: Database<V>): (f: Option<Fault>)
    ensures f.None? <==> db.openFault.None? && db.query.Rows? && db.closeFault.None?
    ensures db.openFault.Some? ==> f == db.openFault
    ensures db.openFault.None? && db.query.Raised? ==> f == Some(db.query.fault)
    ensures db.openFault.None? && db.query.Rows? ==> f == db.closeFault
  {
    if db.openFault.Some? then db.openFault
    else if db.query.Raised? then Some(db.query.fault)
    else db.closeFault
  }

  /** The response `Listar` returns. */
  function Respond<V>(nombreTabla: Option<string>, db: Database<V>): (r: Response<V>)
    requires ValidDatabase(db)
    ensures r == Status(400, EmptyTableMessage) <==> IsNullOrWhiteSpace(nombreTabla)
    ensures r.Ok? <==> !IsNullOrWhiteSpace(nombreTabla) && FirstFault(db).None?
    ensures r.Ok? ==> db.query.Rows? && |r.body| == |db.query.table.rows|
    ensures r.Status? ==> r.code in {400, 404, 409, 500}
  {
    if IsNullOrWhiteSpace(nombreTabla) then Status(400, EmptyTableMessage)
    else match FirstFault(db)
      case Some(f) => FaultResponse(f)
      case None => Ok(ShapeRows(db.query.table))
  }

  /** The calls `Listar` makes on the connection service, in order. */
  function Calls<V>(nombreTabla: Option<string>, db: Database<V>): (c: seq<Call>)
    ensures IsNullOrWhiteSpace(nombreTabla) <==> c == []
    ensures |c| <= 3
    ensures c != [] ==> c[0] == Open
    ensures |c| >= 2 <==> !IsNullOrWhiteSpace(nombreTabla) && db.openFault.None?
    ensures |c| >= 2 ==> c[1] == Query(QueryText(nombreTabla.value))
    ensures Close in c <==> |c| == 3
    ensures Close in c <==>
              !IsNullOrWhiteSpace(nombreTabla) && db.openFault.None? && db.query.Rows?
  {
    if IsNullOrWhiteSpace(nombreTabla) then []
    else if db.openFault.Some? then [Open]
    else if db.query.Raised? then [Open, Query(QueryText(nombreTabla.value))]
    else [Open, Query(QueryText(nombreTabla.value)), Close]
  }

  /**
   * Whether the connection is open after `Listar`, given whether it was
   * before. A closed connection is left open exactly when it was opened and
   * then the query or the close threw.
   */
  function OpenAfter<V>(wasOpen: bool, nombreTabla: Option<string>, db: Database<V>): (open: bool)
    ensures IsNullOrWhiteSpace(nombreTabla) ==> open == wasOpen
    ensures (!wasOpen && open) <==>
              !wasOpen && !IsNullOrWhiteSpace(nombreTabla) && db.openFault.None?
              && (db.query.Raised? || db.closeFault.Some?)
    ensures (wasOpen && !open) <==>
              wasOpen && !IsNullOrWhiteSpace(nombreTabla) && FirstFault(db).None?
  {
    if IsNullOrWhiteSpace(nombreTabla) || db.openFault.Some? then wasOpen
    else if db.query.Raised? then true
    else db.closeFault.Some?
  }

  // ---------------------------------------------------------------------
  // Properties of the request

  /** A blank name is refused before the connection is touched. */
  lemma BlankNameIsBadRequest<V>(wasOpen: bool, nombreTabla: Option<string>, db: Database<V>)
    requires ValidDatabase(db)
    requires IsNullOrWhiteSpace(nombreTabla)
    ensures Respond(nombreTabla, db) == Status(400, EmptyTableMessage)
    ensures Calls(nombreTabla, db) == []
    ensures OpenAfter(wasOpen, nombreTabla, db) == wasOpen
  {
  }

  /**
   * On success the connection was opened, queried with the unaltered name,
   * and closed, and one object per row is returned.
   */
  lemma SuccessClosesConnection<V>(wasOpen: bool, nombreTabla: Option<string>, db: Database<V>)
    requires ValidDatabase(db)
    requires Respond(nombreTabla, db).Ok?
    ensures nombreTabla.Some?
    ensures Calls(nombreTabla, db) == [Open, Query(SelectAllPrefix + nombreTabla.value), Close]
    ensures !OpenAfter(wasOpen, nombreTabla, db)
    ensures Respond(nombreTabla, db).body == ShapeRows(db.query.table)
  {
  }

  /** With a usable name and no exception, the response lists the shaped rows. */
  lemma NoFaultListsRows<V>(nombreTabla: Option<string>, db: Database<V>)
    requires ValidDatabase(db)
    requires !IsNullOrWhiteSpace(nombreTabla) && FirstFault(db).None?
    ensures db.query.Rows?
    ensures Respond(nombreTabla, db) == Ok(ShapeRows(db.query.table))
  {
  }

  /** Listing a one-row table answers 200 with that row's object alone. */
  lemma OneRowTableListsOneObject<V>(nombreTabla: string, t: Table<V>)
    requires WellFormed(t) && |t.rows| == 1
    requires !IsNullOrWhiteSpace(Some(nombreTabla))
    ensures Respond(Some(nombreTabla), Database(None, Rows(t), None))
            == Ok([RowToMap(t.columns, t.rows[0])])
  {
    assert ShapeRows(t) == [RowToMap(t.columns, t.rows[0])];
  }

  /**
   * When the query throws after a successful open, close is never called
   * and the connection is left open; the exception becomes the response.
   */
  lemma QueryFailureLeavesConnectionOpen<V>(wasOpen: bool, nombreTabla: Option<string>, db: Database<V>)
    requires !IsNullOrWhiteSpace(nombreTabla) && db.openFault.None? && db.query.Raised?
    ensures Close !in Calls(nombreTabla, db)
    ensures OpenAfter(wasOpen, nombreTabla, db)
    ensures Respond(nombreTabla, db) == FaultResponse(db.query.fault)
  {
  }

  /** When opening throws, nothing else is called and the state is unchanged. */
  lemma OpenFailureStopsRequest<V>(wasOpen: bool, nombreTabla: Option<string>, db: Database<V>)
    requires ValidDatabase(db)
    requires !IsNullOrWhiteSpace(nombreTabla) && db.openFault.Some?
    ensures Calls(nombreTabla, db) == [Open]
    ensures OpenAfter(wasOpen, nombreTabla, db) == wasOpen
    ensures Respond(nombreTabla, db) == FaultResponse(db.openFault.value)
  {
  }

  /** Every exception, wherever it is thrown, gives an error status and no rows. */
  lemma FaultGivesErrorStatus<V>(nombreTabla: Option<string>, db: Database<V>)
    requires ValidDatabase(db)
    requires !IsNullOrWhiteSpace(nombreTabla) && FirstFault(db).Some?
    ensures Respond(nombreTabla, db) == FaultResponse(FirstFault(db).value)
    ensures Respond(nombreTabla, db).code in {404, 409, 500}
  {
  }

  /** The row loop of `Listar`: each row's dictionary is appended in turn. */
  method ConvertirFilas<V>(tablaResultados: Table<V>) returns (listaFilas: seq<RowObject<V>>)
    requires WellFormed(tablaResultados)
    ensures listaFilas == ShapeRows(tablaResultados)
  {
    listaFilas := [];
    for i := 0 to |tablaResultados.rows|
      invariant listaFilas == ShapeRows(tablaResultados)[..i]
    {
      var propiedadesFila := RowToMap(tablaResultados.columns, tablaResultados.rows[i]);
      assert ShapeRows(tablaResultados)[i] == propiedadesFila;
      assert ShapeRows(tablaResultados)[..i + 1] == ShapeRows(tablaResultados)[..i] + [propiedadesFila];
      listaFilas := listaFilas + [propiedadesFila];
    }
    assert ShapeRows(tablaResultados)[..|tablaResultados.rows|] == ShapeRows(tablaResultados);
  }

  // ---------------------------------------------------------------------
  // The controller

  class EntidadesController {
    const controlConexion: ControlConexion

    constructor (controlConexion: ControlConexion)
      ensures this.controlConexion == controlConexion
    {
      this.controlConexion := controlConexion;
    }

    /** Lists every row of the named table; the project name is not used. */
    method Listar<V>(nombreProyecto: string, nombreTabla: Option<string>, db: Database<V>)
      returns (r: Response<V>)
      requires ValidDatabase(db)
      modifies controlConexion
      ensures r == Respond(nombreTabla, db)
      ensures controlConexion.calls == old(controlConexion.calls) + Calls(nombreTabla, db)
      ensures controlConexion.isOpen == OpenAfter(old(controlConexion.isOpen), nombreTabla, db)
    {
      if IsNullOrWhiteSpace(nombreTabla) {
        return Status(400, EmptyTableMessage);
      }

      var listaFilas: seq<RowObject<V>> := [];
      var comandoSQL := QueryText(nombreTabla.value);

      var thrown := controlConexion.AbrirBd(db.openFault);
      if thrown.Some? {
        return FaultResponse(thrown.value);
      }
      var resultado := controlConexion.EjecutarConsultaSql(comandoSQL, db.query);
      if resultado.Raised? {
        return FaultResponse(resultado.fault);
      }
      thrown := controlConexion.CerrarBd(db.closeFault);
      if thrown.Some? {
        return FaultResponse(thrown.value);
      }

      listaFilas := ConvertirFilas(resultado.table);
      return Ok(listaFilas);
    }
  }
}
