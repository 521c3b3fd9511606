/** Concrete requests against the `Listar` model. */
module Escenarios {
  import opened Wrappers
  import opened DecimalText
  import opened Datos
  import opened Entidades

  /** A column value as the database driver would hand it over. */
  datatype Valor = Entero(i: int) | Texto(s: string)

  /** The columns of table `Usuarios`. */
  const UsuariosColumns: seq<string> := ["Id", "Nombre", "Email"]

  /** The row (1, "Ana", NULL). */
  const AnaRow: seq<Cell<Valor>> := [Value(Entero(1)), Value(Texto("Ana")), DbNull]

  /** The row (1, "Ana", NULL) becomes `{Id: 1, Nombre: "Ana", Email: null}`, with no other key. */
  lemma AnaRowObject()
    ensures Distinct(UsuariosColumns)
    ensures var m := RowToMap(UsuariosColumns, AnaRow);
            && |m| == 3
            && "Id" in m && m["Id"] == Some(Entero(1))
            && "Nombre" in m && m["Nombre"] == Some(Texto("Ana"))
            && "Email" in m && m["Email"] == None
  {
    assert |UsuariosColumns[0]| == 2 && |UsuariosColumns[1]| == 6 && |UsuariosColumns[2]| == 5;
    RowToMapMeaning(UsuariosColumns, AnaRow);
  }

  /** The table `Usuarios` holding that one row is a well-formed result. */
  lemma UsuariosTableWellFormed()
    ensures WellFormed(Table(UsuariosColumns, [AnaRow]))
  {
    assert |UsuariosColumns[0]| == 2 && |UsuariosColumns[1]| == 6 && |UsuariosColumns[2]| == 5;
  }

  /** Listing table `Usuarios` holding that one row answers 200 with that one object. */
  lemma UsuariosListsOneObject()
    ensures Distinct(UsuariosColumns)
    ensures Respond(Some("Usuarios"), Database(None, Rows(Table(UsuariosColumns, [AnaRow])), None))
            == Ok([RowToMap(UsuariosColumns, AnaRow)])
  {
    UsuariosTableWellFormed();
    PrintableStartIsNotBlank("Usuarios");
    OneRowTableListsOneObject("Usuarios", Table(UsuariosColumns, [AnaRow]));
  }

  /** An empty table name is a bad request. */
  lemma EmptyNameIsBadRequest<V>(db: Database<V>)
    requires ValidDatabase(db)
    ensures Respond(Some(""), db) == Status(400, "El nombre de la tabla no puede estar vacío.")
  {
  }

  /** A name of tabs and non-breaking spaces is blank too. */
  lemma WhiteSpaceNameIsBadRequest<V>(db: Database<V>)
    requires ValidDatabase(db)
    ensures Respond(Some(" \t\U{A0}"), db) == Status(400, EmptyTableMessage)
  {
  }

  /** A table that does not exist (SQL error 208) gives 404 and "Error (404): ...". */
  lemma MissingTableIsNotFound<V>(message: string)
    ensures var db: Database<V> := Database(None, Raised(SqlException(208, message)), None);
            Respond(Some("Clientes"), db) == Status(404, "Error (404): " + message)
  {
    var db: Database<V> := Database(None, Raised(SqlException(208, message)), None);
    PrintableStartIsNotBlank("Clientes");
    StatusCodeTexts();
  }

  /** A unique-key violation (SQL error 2627) while listing gives 409. */
  lemma DuplicateKeyIsConflict<V>(message: string)
    ensures var db: Database<V> := Database(None, Raised(SqlException(2627, message)), None);
            Respond(Some("Pedidos"), db) == Status(409, "Error (409): " + message)
  {
    PrintableStartIsNotBlank("Pedidos");
    StatusCodeTexts();
  }

  /** A failure to open the connection is an internal server error. */
  lemma OpenFailureIsInternalError<V>(message: string)
    ensures var db: Database<V> := Database(Some(OtherException(message)), Raised(OtherException("")), None);
            Respond(Some("Pedidos"), db) == Status(500, "Error interno del servidor: " + message)
  {
    PrintableStartIsNotBlank("Pedidos");
  }
}
