/**
 * The connection service the controller is given. Only its observable state
 * is modelled: whether the connection is open, and the calls made on it in
 * order. What each call does against the server is an input: the fault it
 * throws, or the outcome of the query.
 */
module Conexion {
  import opened Wrappers
  import opened Datos

  class ControlConexion {
    var isOpen: bool
    var calls: seq<Call>

    constructor ()
      ensures !isOpen && calls == []
    {
      isOpen := false;
      calls := [];
    }

    /** Opens the connection; when it throws, nothing is opened. */
    method AbrirBd(fault: Option<Fault>) returns (thrown: Option<Fault>)
      modifies this
      ensures thrown == fault
      ensures calls == old(calls) + [Open]
      ensures isOpen == (old(isOpen) || fault.None?)
    {
      calls := calls + [Open];
      if fault.None? {
        isOpen := true;
      }
      thrown := fault;
    }

    /** Runs a query text; the connection stays as it was. */
    method EjecutarConsultaSql<V>(sql: string, outcome: QueryOutcome<V>) returns (result: QueryOutcome<V>)
      modifies this
      ensures result == outcome
      ensures calls == old(calls) + [Query(sql)]
      ensures isOpen == old(isOpen)
    {
      calls := calls + [Query(sql)];
      result := outcome;
    }

    /** Closes the connection; when it throws, the connection stays as it was. */
    method CerrarBd(fault: Option<Fault>) returns (thrown: Option<Fault>)
      modifies this
      ensures thrown == fault
      ensures calls == old(calls) + [Close]
      ensures isOpen == (old(isOpen) && fault.Some?)
    {
      calls := calls + [Close];
      if fault.None? {
        isOpen := false;
      }
      thrown := fault;
    }
  }
}
