# Row lister endpoint (`EntidadesController.Listar`)

A Dafny model of the generic listing endpoint `GET api/{nombreProyecto}/{nombreTabla}`
of the `csharpapi` service. For a table name it:

1. refuses a null, empty or white-space-only name with 400 and the text
   "El nombre de la tabla no puede estar vacío.", before touching the database;
2. builds the query text `"SELECT * FROM " + nombreTabla`, with the name unaltered;
3. opens the connection (`AbrirBd`), runs the query (`EjecutarConsultaSql`) and
   closes the connection (`CerrarBd`), in that order;
4. turns each result row into a dictionary from column name to value, with the
   database null marker turned into `null`, keeping the table's row order;
5. catches any exception: a SQL Server error number 208 becomes 404, 547 and
   2627 become 409, any other number 500, with the text `"Error (<status>): <message>"`;
   any other exception becomes 500 with `"Error interno del servidor: <message>"`.

The database is an input: a `Database` value says whether opening throws, what the
query returns (a table or an exception) and whether closing throws.

Files:

- `wrappers.dfy`: `Option`, used for C#'s nullable references.
- `decimal_text.dfy`: how an `int` is written into an interpolated string, with a
  proof that the digits read back as the number.
- `datos.dfy`: cells, tables, exceptions, the per-request database behaviour, the
  HTTP result and the calls made on the connection service.
- `control_conexion.dfy`: the connection service as a class with an `isOpen` flag
  and a log of the calls made on it.
- `entidades_controller.dfy`: validation, query text, row shaping, error
  classification, the whole request as functions (`Respond`, `Calls`, `OpenAfter`),
  the properties relating them, and the controller class whose `Listar` method is
  proved equal to them. The row loop (lines 52-58 of the controller) is the method
  `ConvertirFilas`, which `Listar` calls.
- `escenarios.dfy`: concrete requests: a one-row `Usuarios` table, an empty name,
  a missing table, a duplicate key, a failed open.

Notes on the model:

- `nombreTabla` is `Option<string>`: `None` is C#'s `null`, which
  `string.IsNullOrWhiteSpace` accepts. White space is the character set of .NET's
  `Char.IsWhiteSpace`.
- Opening, querying and closing can each throw, since all three sit inside the
  `try` block, and the catch block treats an exception from closing like the
  others. A call on the connection service that throws is taken to leave the
  connection flag as it was.
- The leak is modelled as written: when the query throws after a successful open,
  `CerrarBd` is never called and the connection stays open
  (`QueryFailureLeavesConnectionOpen`).
- `ToDictionary` throws on a repeated key. Data table column names are unique,
  so the model requires `WellFormed(table)`: column names are distinct, and each
  row has one cell per column. This is a guarantee of the data table type. Callers
  do not have to check it.

## Model

| member | source | states |
|---|---|---|
| `Entidades.IsWhiteSpace` | Controllers/EntidadesControllers.cs:39 | exactly the characters .NET's `Char.IsWhiteSpace` accepts: U+0009–U+000D, U+0020, U+0085, U+00A0, U+1680, U+2000–U+200A, U+2028, U+2029, U+202F, U+205F, U+3000; space, tab, line feed and carriage return are among them, and no printable ASCII character other than space is |
| `Entidades.IsNullOrWhiteSpace` | Controllers/EntidadesControllers.cs:39 | `string.IsNullOrWhiteSpace`: null and the empty string are blank; a string is not blank exactly when some character of it is not white space |
| `Entidades.PrintableStartIsNotBlank` | Controllers/EntidadesControllers.cs:39 | a name starting with a printable ASCII character other than space passes the check |
| `Entidades.BlankNameIsBadRequest` | Controllers/EntidadesControllers.cs:39-40 | a null, empty or white-space-only name gives 400 with the fixed text, makes no call on the connection and leaves its state unchanged |
| `Entidades.QueryText` | Controllers/EntidadesControllers.cs:45 | the query text is the `SELECT * FROM ` prefix followed by the table name, unaltered |
| `Entidades.QueryTextInjective` | Controllers/EntidadesControllers.cs:45 | different table names give different query texts, so no name is rewritten |
| `Entidades.CellToNullable` | Controllers/EntidadesControllers.cs:56 | a cell becomes null exactly when it is the database null marker; any other value passes through unchanged |
| `Entidades.DistinctColumnSetSize` | Controllers/EntidadesControllers.cs:54-55 | distinct column names give as many dictionary keys as there are columns |
| `Entidades.RowToMap` | Controllers/EntidadesControllers.cs:54-56 | the `ToDictionary` projection of one row: its keys are exactly the column names (values stated by `RowToMapMeaning`) |
| `Entidades.RowToMapMeaning` | Controllers/EntidadesControllers.cs:54-56 | a row's dictionary has exactly the column names as keys, one entry per column, and each column maps to its own cell, with null for a database null |
| `Entidades.ShapeRows` | Controllers/EntidadesControllers.cs:52-58 | one object per result row |
| `Entidades.ShapeRowsMeaning` | Controllers/EntidadesControllers.cs:52-58 | the i-th object comes from the i-th row; every object has exactly the column names as keys, one per column, holding that row's cells |
| `Entidades.ConvertirFilas` | Controllers/EntidadesControllers.cs:52-58 | the row loop, appending one dictionary per row, yields exactly the shaped rows in table order |
| `Entidades.HttpCodeForSqlNumber` | Controllers/EntidadesControllers.cs:70-76 | the status is 404 exactly for error 208, 409 exactly for 547 and 2627, otherwise 500; it is always one of 404, 409, 500 |
| `Entidades.FaultResponse` | Controllers/EntidadesControllers.cs:62-84 | a SQL exception gives its mapped status and `Error (<status>): <message>`; any other exception gives 500 and `Error interno del servidor: <message>` |
| `Entidades.SqlErrorTextCarriesStatus` | Controllers/EntidadesControllers.cs:77 | a SQL error text is "Error (", then digits that read back as the status sent, then "): " and the driver message unchanged |
| `Entidades.ErrorTextsAreDistinguishable` | Controllers/EntidadesControllers.cs:77-82 | a SQL error text never equals an internal error text |
| `Entidades.FirstFault` | Controllers/EntidadesControllers.cs:47-49 | the exception that reaches the catch block at line 62: none exactly when open, the query and close all succeed; an exception from open wins over later ones; after a successful open, the query's exception wins over close's; when open and the query succeed, close's own exception (if any) is the one reported |
| `Entidades.Respond` | Controllers/EntidadesControllers.cs:36-86 | 400 with the fixed text exactly for a blank name; 200 exactly when the name is not blank and nothing throws, with one object per row; every error status is one of 400, 404, 409, 500 |
| `Entidades.Calls` | Controllers/EntidadesControllers.cs:47-49 | a blank name makes no call; otherwise at most three calls: open first; the query, with the exact query text, second and issued exactly when open succeeded; close, as the third and last call, exactly when open and the query both succeeded |
| `Entidades.OpenAfter` | Controllers/EntidadesControllers.cs:47-49 | a blank name leaves the connection as it was; a closed connection ends open exactly when open succeeded and then the query or close threw; an open connection ends closed exactly when the request succeeded |
| `Entidades.NoFaultListsRows` | Controllers/EntidadesControllers.cs:42-60 | with a usable name and no exception, the response is 200 with the shaped rows |
| `Entidades.OneRowTableListsOneObject` | Controllers/EntidadesControllers.cs:52-60 | listing a one-row table under any name that passes the blank check answers 200 with exactly that row's object |
| `Entidades.SuccessClosesConnection` | Controllers/EntidadesControllers.cs:45-60 | on success the calls were open, `SELECT * FROM <name>`, close; the connection ends closed; the body is the shaped rows |
| `Entidades.QueryFailureLeavesConnectionOpen` | Controllers/EntidadesControllers.cs:47-62 | when the query throws after a successful open, close is never called, the connection is left open, and the exception's response is returned |
| `Entidades.OpenFailureStopsRequest` | Controllers/EntidadesControllers.cs:47-62 | when opening throws, nothing else is called, the connection state is unchanged, and the exception's response is returned |
| `Entidades.FaultGivesErrorStatus` | Controllers/EntidadesControllers.cs:62-84 | an exception from open, the query or close gives that exception's response, with status 404, 409 or 500 |
| `Entidades.EntidadesController.constructor` | Controllers/EntidadesControllers.cs:28-32 | the controller keeps the connection service it is given |
| `Entidades.EntidadesController.Listar` | Controllers/EntidadesControllers.cs:36-86 | returns `Respond(nombreTabla, db)`; appends exactly `Calls(nombreTabla, db)` to the connection's call log; leaves the connection open exactly as `OpenAfter` says |
| `Conexion.ControlConexion.AbrirBd` | Controllers/EntidadesControllers.cs:47 | logs an open; the connection is open afterwards unless opening threw |
| `Conexion.ControlConexion.EjecutarConsultaSql` | Controllers/EntidadesControllers.cs:48 | logs the query with its exact text and returns the database's outcome; the connection state is unchanged |
| `Conexion.ControlConexion.CerrarBd` | Controllers/EntidadesControllers.cs:49 | logs a close; the connection is closed afterwards unless closing threw |
| `DecimalText.NatToString` | Controllers/EntidadesControllers.cs:77 | the status is written as at least one decimal digit, with a leading zero only for zero |
| `DecimalText.NatToStringRoundTrip` | Controllers/EntidadesControllers.cs:77 | the written digits read back as the number |
| `DecimalText.StatusCodeTexts` | Controllers/EntidadesControllers.cs:72-77 | the three statuses are written "404", "409" and "500" |
| `Escenarios.AnaRowObject` | Controllers/EntidadesControllers.cs:54-56 | the row (1, "Ana", NULL) of columns Id, Nombre, Email becomes `{Id: 1, Nombre: "Ana", Email: null}` with exactly three keys |
| `Escenarios.UsuariosTableWellFormed` | Controllers/EntidadesControllers.cs:52-56 | the `Usuarios` result has distinct column names and a full row |
| `Escenarios.UsuariosListsOneObject` | Controllers/EntidadesControllers.cs:52-60 | listing table `Usuarios` holding that row answers 200 with that one object |
| `Escenarios.EmptyNameIsBadRequest` | Controllers/EntidadesControllers.cs:39-40 | the empty name gives 400 "El nombre de la tabla no puede estar vacío." |
| `Escenarios.WhiteSpaceNameIsBadRequest` | Controllers/EntidadesControllers.cs:39-40 | a name made of a space, a tab and a non-breaking space gives 400 too |
| `Escenarios.MissingTableIsNotFound` | Controllers/EntidadesControllers.cs:70-77 | SQL error 208 gives 404 with the text "Error (404): " followed by the message |
| `Escenarios.DuplicateKeyIsConflict` | Controllers/EntidadesControllers.cs:70-77 | SQL error 2627 gives 409 with the text "Error (409): " followed by the message |
| `Escenarios.OpenFailureIsInternalError` | Controllers/EntidadesControllers.cs:80-84 | a non-SQL exception from opening gives 500 with "Error interno del servidor: " followed by the message |

## Left out

- Routing and the `[Route]`, `[ApiController]`, `[Authorize]`, `[AllowAnonymous]` and `[HttpGet]` attributes. These are framework plumbing. `IActionResult`, `BadRequest`, `Ok` and `StatusCode` become the `Response` datatype.
- `nombreProyecto`, the `IConfiguration` field and the BCrypt import. They are accepted or imported but not used on this path. `Listar` takes `nombreProyecto` and ignores it.
- The constructor's `ArgumentNullException` guards. Dafny references are non-null, so a null service cannot be passed.
- The inside of the `ControlConexion` service (namespace `csharpapi.Services`) and the actual SQL execution. Each call's outcome is an input, and the model keeps only the open flag and the call log.
- Data table semantics beyond unique column names and full rows. JSON serialisation of the result is not modelled either. A row object is a map, so the column order within one object is not kept.
- What the database makes of the interpolated name, including SQL injection. Only the text is modelled.
- The parameter set of `EjecutarConsultaSql`. The controller passes `null`, so the table name reaches the server only through the query text; that argument is not modelled.
- Exception details other than the SQL error number and the message. Exceptions are modelled as values, not as throws.
- Strings are sequences of Unicode scalar values, not UTF-16 code units. This makes no difference to the white-space test, since every white-space character is a single code unit.
