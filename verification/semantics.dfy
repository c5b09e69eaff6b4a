/** What executing E# statements does (esharp.py:61-154), as functions from
    an interpreter state to the state after the statement and the failure it
    raised, if any. A raised exception is an outcome whose `fault` is set:
    it carries the state reached so far, since nothing is rolled back. The
    class in module Interpreting is proved to compute exactly these. */
module Semantics {
  import opened Values
  import opened Ast

  /** `server_socket`: none yet, a socket whose `bind` failed, or a socket
      bound and listening. */
  datatype Server = NoSocket | Unbound | Listening

  /** What the network does, which the program cannot see: the ports `bind`
      succeeds on, and the text the `k`-th accepted client sends. */
  datatype Network = Network(bindable: set<int>, request: nat -> string)

  /** The exceptions the statements raise. */
  datatype Fault =
    | MemoryNotAllocated
    | Locked(name: Value)
    | OperandTypes(op: Value, left: Value, right: Value)
    | UnknownOperation(op: Value)
    | BindFailed(port: Value)
    | ServerNotInitialized
    | AcceptFailed
    | NoActiveRequest
    | NotEncodable(message: Value)

  /** The interpreter's fields, with `print` output and the replies sent to
      clients collected in order. `hasClient` is whether `current_client`
      is set; `accepted` counts the clients accepted so far. */
  datatype State = State(
    variables: map<Value, Value>,
    memoryAllocated: bool,
    lockedVars: set<Value>,
    server: Server,
    hasClient: bool,
    accepted: nat,
    output: seq<Value>,
    replies: seq<string>)

  datatype Outcome = Outcome(state: State, fault: Option<Fault>)

  /** `Interpreter.__init__` (esharp.py:62-66). */
  const Initial: State := State(map[], false, {}, NoSocket, false, 0, [], [])

  function Fail(st: State, f: Fault): Outcome {
    Outcome(st, Some(f))
  }

  function Done(st: State): Outcome {
    Outcome(st, None)
  }

  /** `variables.get(v, v)`: the value bound to `v`, or `v` itself. */
  function Resolve(variables: map<Value, Value>, v: Value): Value {
    if v in variables then variables[v] else v
  }

  /** What TRANSMIT prints: only a string names a variable there
      (esharp.py:110-113). */
  function Shown(variables: map<Value, Value>, target: Value): Value {
    if target.Str? && target in variables then variables[target] else target
  }

  /** Python's `+` and `-` on the two resolved operands (esharp.py:123-126):
      `+` adds integers and joins strings, `-` subtracts integers, anything
      else raises; an operation other than ADD or SUBTRACT leaves `res`
      unbound, which raises too. */
  function Arith(op: Value, a: Value, b: Value): (r: Result<Value, Fault>)
    ensures r.Ok? <==> (op == Str("ADD") && a.Int? == b.Int?) || (op == Str("SUBTRACT") && a.Int? && b.Int?)
    ensures r.Ok? && a.Int? ==> r.value == Int(if op == Str("ADD") then a.i + b.i else a.i - b.i)
    ensures r.Ok? && a.Str? ==> r.value == Str(a.s + b.s)
  {
    if op == Str("ADD") then
      if a.Int? && b.Int? then Ok(Int(a.i + b.i))
      else if a.Str? && b.Str? then Ok(Str(a.s + b.s))
      else Err(OperandTypes(op, a, b))
    else if op == Str("SUBTRACT") then
      if a.Int? && b.Int? then Ok(Int(a.i - b.i)) else Err(OperandTypes(op, a, b))
    else Err(UnknownOperation(op))
  }

  /** A port `bind` accepts: an integer in 0..65535 that the network lets
      the program bind. */
  predicate Binds(net: Network, port: Value) {
    port.Int? && 0 <= port.i <= 65535 && port.i in net.bindable
  }

  /** `execute` (esharp.py:72-154), one statement. */
  function Exec(st: State, net: Network, s: Stmt): Outcome
    decreases s
  {
    match s
    case Allocate => Done(st.(memoryAllocated := true))
    case Deallocate => Done(st.(memoryAllocated := false, variables := map[]))
    case Secure(body, otherwise) =>
      var tried := ExecAll(st, net, body);
      if tried.fault.None? then tried else ExecAll(tried.state, net, otherwise)
    case Establish(_, name, value, resistant) =>
      if !st.memoryAllocated then Fail(st, MemoryNotAllocated)
      else if name in st.lockedVars then Fail(st, Locked(name))
      else Done(st.(variables := st.variables[name := value],
                    lockedVars := if resistant then st.lockedVars + {name} else st.lockedVars))
    case Transmit(target) =>
      if !st.memoryAllocated then Fail(st, MemoryNotAllocated)
      else Done(st.(output := st.output + [Shown(st.variables, target)]))
    case Calculate(op, left, right, dest) =>
      if !st.memoryAllocated then Fail(st, MemoryNotAllocated)
      else if dest in st.lockedVars then Fail(st, Locked(dest))
      else
        var res := Arith(op, Resolve(st.variables, left), Resolve(st.variables, right));
        if res.Err? then Fail(st, res.error)
        else Done(st.(variables := st.variables[dest := res.value]))
    case InitializeServer(port) =>
      var p := Resolve(st.variables, port);
      if Binds(net, p) then Done(st.(server := Listening))
      else Fail(st.(server := Unbound), BindFailed(p))
    case ListenRequest(store) =>
      if st.server.NoSocket? then Fail(st, ServerNotInitialized)
      else if st.server.Unbound? then Fail(st, AcceptFailed)
      else Done(st.(variables := st.variables[store := Str(net.request(st.accepted))],
                    hasClient := true, accepted := st.accepted + 1))
    case Respond(message) =>
      if !st.hasClient then Fail(st, NoActiveRequest)
      else
        var m := Resolve(st.variables, message);
        if m.Int? then Fail(st, NotEncodable(m))
        else Done(st.(replies := st.replies + [m.s], hasClient := false))
  }

  /** A statement list run in order, stopping at the first failure: the loop
      of `run` (esharp.py:68-70) and each loop of `execute_SECURE`. */
  function ExecAll(st: State, net: Network, ss: seq<Stmt>): Outcome
    decreases ss
  {
    if |ss| == 0 then Done(st)
    else
      var first := Exec(st, net, ss[0]);
      if first.fault.Some? then first else ExecAll(first.state, net, ss[1..])
  }
}
