/**
 * `VerificarListasNegrasResult`: the mutable result object the SOAP reply
 * is marshalled from. Every field is a nullable reference; the object is
 * filled in by setters. `tipo` is not a field of its own: `getTipo` and
 * `setTipo` read and write `resultado`.
 */
module ListResult {
  import opened Values
  import opened Dtos

  /** The whole state of a result object as a value. */
  datatype ResultView = ResultView(
    canal: Option<string>,
    usuario: Option<string>,
    terminal: Option<string>,
    endDateTime: Option<string>,
    version: Option<string>,
    transactionId: Option<string>,
    resultado: Option<string>,
    mensaje: Option<string>,
    concidencia: Option<bool>,
    listas: Option<seq<Lista>>)

  /** A freshly constructed result: every field null. */
  const EmptyView: ResultView := ResultView(None, None, None, None, None, None, None, None, None, None)

  class VerificarListasNegrasResult {
    var canal: Option<string>
    var usuario: Option<string>
    var terminal: Option<string>
    var endDateTime: Option<string>
    var version: Option<string>
    var transactionId: Option<string>
    var resultado: Option<string>
    var mensaje: Option<string>
    var concidencia: Option<bool>
    var listas: Option<seq<Lista>>

    function View(): ResultView
      reads this
    {
      ResultView(canal, usuario, terminal, endDateTime, version, transactionId, resultado, mensaje, concidencia, listas)
    }

    /** The no-argument constructor. */
    constructor Empty()
      ensures View() == EmptyView
    {
      canal, usuario, terminal, endDateTime, version := None, None, None, None, None;
      transactionId, resultado, mensaje, concidencia, listas := None, None, None, None, None;
    }

    /** The ten-argument constructor: `tipo` is stored as `resultado`. */
    constructor (canal: Option<string>, usuario: Option<string>, terminal: Option<string>,
                 endDateTime: Option<string>, version: Option<string>, transactionId: Option<string>,
                 tipo: Option<string>, mensaje: Option<string>, concidencia: Option<bool>,
                 listas: Option<seq<Lista>>)
      ensures View() == ResultView(canal, usuario, terminal, endDateTime, version, transactionId,
                                   tipo, mensaje, concidencia, listas)
      ensures GetTipo() == GetResultado() == tipo
    {
      this.canal, this.usuario, this.terminal := canal, usuario, terminal;
      this.endDateTime, this.version, this.transactionId := endDateTime, version, transactionId;
      this.resultado, this.mensaje, this.concidencia, this.listas := tipo, mensaje, concidencia, listas;
    }

    /** `getTipo` and `getResultado` are the same accessor. */
    function GetTipo(): (t: Option<string>)
      reads this
      ensures t == GetResultado()
    {
      resultado
    }

    function GetResultado(): Option<string>
      reads this
    {
      resultado
    }

    method SetCanal(v: Option<string>)
      modifies this
      ensures View() == old(View()).(canal := v)
    {
      canal := v;
    }

    method SetUsuario(v: Option<string>)
      modifies this
      ensures View() == old(View()).(usuario := v)
    {
      usuario := v;
    }

    method SetTerminal(v: Option<string>)
      modifies this
      ensures View() == old(View()).(terminal := v)
    {
      terminal := v;
    }

    method SetEndDateTime(v: Option<string>)
      modifies this
      ensures View() == old(View()).(endDateTime := v)
    {
      endDateTime := v;
    }

    method SetVersion(v: Option<string>)
      modifies this
      ensures View() == old(View()).(version := v)
    {
      version := v;
    }

    method SetTransactionId(v: Option<string>)
      modifies this
      ensures View() == old(View()).(transactionId := v)
    {
      transactionId := v;
    }

    /** `setTipo` writes `resultado`, so both getters see the new value. */
    method SetTipo(v: Option<string>)
      modifies this
      ensures View() == old(View()).(resultado := v)
      ensures GetTipo() == GetResultado() == v
    {
      resultado := v;
    }

    method SetResultado(v: Option<string>)
      modifies this
      ensures View() == old(View()).(resultado := v)
      ensures GetTipo() == GetResultado() == v
    {
      resultado := v;
    }

    method SetMensaje(v: Option<string>)
      modifies this
      ensures View() == old(View()).(mensaje := v)
    {
      mensaje := v;
    }

    method SetConcidencia(v: Option<bool>)
      modifies this
      ensures View() == old(View()).(concidencia := v)
    {
      concidencia := v;
    }

    method SetListas(v: Option<seq<Lista>>)
      modifies this
      ensures View() == old(View()).(listas := v)
    {
      listas := v;
    }
  }
}
