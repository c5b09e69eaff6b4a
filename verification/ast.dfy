/** Statement nodes of E# (the dictionaries built by esharp.py:200-285) and
    their token-value form, the grammar the parser recognises. */
module Ast {
  import opened Values

  /** A node keeps raw token values only, never token kinds: an operand,
      target, name or port is whatever value the token carried. */
  datatype Stmt =
    | Allocate
    | Deallocate
    | Secure(body: seq<Stmt>, otherwise: seq<Stmt>)
    | Establish(vtype: Value, name: Value, value: Value, resistant: bool)
    | Transmit(target: Value)
    | Calculate(op: Value, left: Value, right: Value, dest: Value)
    | InitializeServer(port: Value)
    | ListenRequest(store: Value)
    | Respond(message: Value)

  /** The nine values that can start a statement (esharp.py:179-198). */
  predicate IsStatementKeyword(w: string) {
    w == "SECURE" || w == "ESTABLISH" || w == "TRANSMIT" || w == "CALCULATE" ||
    w == "ALLOCATE" || w == "DEALLOCATE" || w == "INITIALIZE" || w == "LISTEN" ||
    w == "RESPOND"
  }

  function Leading(s: Stmt): (w: string)
    ensures IsStatementKeyword(w)
  {
    match s
    case Allocate => "ALLOCATE"
    case Deallocate => "DEALLOCATE"
    case Secure(_, _) => "SECURE"
    case Establish(_, _, _, _) => "ESTABLISH"
    case Transmit(_) => "TRANSMIT"
    case Calculate(_, _, _, _) => "CALCULATE"
    case InitializeServer(_) => "INITIALIZE"
    case ListenRequest(_) => "LISTEN"
    case Respond(_) => "RESPOND"
  }

  /** The token values a statement is written with. */
  function Unparse(s: Stmt): (vs: seq<Value>)
    ensures |vs| > 0 && vs[0] == Str(Leading(s))
  {
    match s
    case Allocate => [Str("ALLOCATE"), Str("MEMORY"), Str("FOR"), Str("EXECUTION"), Str("END")]
    case Deallocate => [Str("DEALLOCATE"), Str("MEMORY"), Str("END")]
    case Secure(body, otherwise) =>
      [Str("SECURE")] + UnparseAll(body) + [Str("OTHERWISE")] + UnparseAll(otherwise) + [Str("END")]
    case Establish(vtype, name, value, resistant) =>
      [Str("ESTABLISH")] + (if resistant then [Str("RESISTANT")] else [])
      + [vtype, name, Str("AS"), value, Str("END")]
    case Transmit(target) => [Str("TRANSMIT"), target, Str("TO"), Str("CONSOLE"), Str("END")]
    case Calculate(op, left, right, dest) =>
      [Str("CALCULATE"), op, Str("WITH"), left, Str("AND"), right, Str("STORE"), Str("IN"), dest, Str("END")]
    case InitializeServer(port) => [Str("INITIALIZE"), Str("SERVER"), Str("ON"), Str("PORT"), port, Str("END")]
    case ListenRequest(store) => [Str("LISTEN"), Str("FOR"), Str("REQUEST"), Str("STORE"), Str("IN"), store, Str("END")]
    case Respond(message) => [Str("RESPOND"), Str("WITH"), message, Str("END")]
  }

  function UnparseAll(ss: seq<Stmt>): seq<Value> {
    if ss == [] then [] else Unparse(ss[0]) + UnparseAll(ss[1..])
  }

  /** A node the parser can produce: an ESTABLISH without RESISTANT cannot
      declare the kind `RESISTANT`, since that value would be read as the
      modifier (esharp.py:255-258). */
  predicate WellFormedStmt(s: Stmt) {
    match s
    case Secure(body, otherwise) => WellFormedStmts(body) && WellFormedStmts(otherwise)
    case Establish(vtype, _, _, resistant) => resistant || vtype != Str("RESISTANT")
    case _ => true
  }

  predicate WellFormedStmts(ss: seq<Stmt>) {
    forall k :: 0 <= k < |ss| ==> WellFormedStmt(ss[k])
  }
}
