/** The E# interpreter object (esharp.py:61-154): its fields are updated in
    place statement by statement. Every method is proved to leave the
    object in the state, and to raise the failure, that module Semantics
    prescribes; the properties of those functions are in
    SemanticsProperties. */
module Interpreting {
  import opened Values
  import opened Ast
  import opened Semantics

  class Interpreter {
    var variables: map<Value, Value>
    var memoryAllocated: bool
    var lockedVars: set<Value>
    var serverSocket: Server
    /** Whether `current_client` is set. */
    var hasClient: bool
    /** The clients accepted so far. */
    var accepted: nat
    /** What TRANSMIT printed, in order. */
    var output: seq<Value>
    /** What RESPOND sent, in order. */
    var replies: seq<string>
    /** The network the server statements talk to. */
    const net: Network

    /** The fields, as one value. */
    function Snapshot(): State
      reads this
    {
      State(variables, memoryAllocated, lockedVars, serverSocket, hasClient, accepted, output, replies)
    }

    /** `__init__` (esharp.py:62-66): no variables, no locks, memory not
        allocated, no socket. */
    constructor(net: Network)
      ensures Snapshot() == Initial && this.net == net
    {
      variables := map[];
      memoryAllocated := false;
      lockedVars := {};
      serverSocket := NoSocket;
      hasClient := false;
      accepted := 0;
      output := [];
      replies := [];
      this.net := net;
    }

    /** `run` (esharp.py:68-70): the statements in order; the first failure
        ends the run. */
    method Run(nodes: seq<Stmt>) returns (fault: Option<Fault>)
      modifies this
      ensures Outcome(Snapshot(), fault) == ExecAll(old(Snapshot()), net, nodes)
    {
      fault := None;
      var i := 0;
      while i < |nodes|
        invariant 0 <= i <= |nodes|
        invariant fault.None?
        invariant ExecAll(old(Snapshot()), net, nodes) == ExecAll(Snapshot(), net, nodes[i..])
      {
        assert nodes[i..][0] == nodes[i] && nodes[i..][1..] == nodes[i + 1..];
        fault := Execute(nodes[i]);
        if fault.Some? {
          return;
        }
        i := i + 1;
      }
    }

    /** `execute` (esharp.py:72-75): the method for the node's kind. */
    method Execute(node: Stmt) returns (fault: Option<Fault>)
      modifies this
      ensures Outcome(Snapshot(), fault) == Exec(old(Snapshot()), net, node)
      decreases node, 1
    {
      match node
      case Allocate => ExecuteAllocate(); fault := None;
      case Deallocate => ExecuteDeallocate(); fault := None;
      case Secure(_, _) => fault := ExecuteSecure(node);
      case Establish(_, _, _, _) => fault := ExecuteEstablish(node);
      case Transmit(_) => fault := ExecuteTransmit(node);
      case Calculate(_, _, _, _) => fault := ExecuteCalculate(node);
      case InitializeServer(_) => fault := ExecuteInitializeServer(node);
      case ListenRequest(_) => fault := ExecuteListenRequest(node);
      case Respond(_) => fault := ExecuteRespond(node);
    }

    /** `execute_ALLOCATE` (esharp.py:80-81). */
    method ExecuteAllocate()
      modifies this
      ensures Snapshot() == old(Snapshot()).(memoryAllocated := true)
    {
      memoryAllocated := true;
    }

    /** `execute_DEALLOCATE` (esharp.py:83-85): the locks stay. */
    method ExecuteDeallocate()
      modifies this
      ensures Snapshot() == old(Snapshot()).(memoryAllocated := false, variables := map[])
    {
      memoryAllocated := false;
      variables := map[];
    }

    /** `execute_SECURE` (esharp.py:87-93): the body until a statement
        fails; then, from the state it left, the otherwise list, whose own
        failure is not caught. */
    method ExecuteSecure(node: Stmt) returns (fault: Option<Fault>)
      requires node.Secure?
      modifies this
      ensures Outcome(Snapshot(), fault) == Exec(old(Snapshot()), net, node)
      decreases node, 0
    {
      fault := None;
      var i := 0;
      while i < |node.body|
        invariant 0 <= i <= |node.body|
        invariant fault.None?
        invariant ExecAll(old(Snapshot()), net, node.body) == ExecAll(Snapshot(), net, node.body[i..])
      {
        assert node.body[i..][0] == node.body[i] && node.body[i..][1..] == node.body[i + 1..];
        fault := Execute(node.body[i]);
        if fault.Some? {
          break;
        }
        i := i + 1;
      }
      if fault.None? {
        return;
      }
      ghost var failed := Snapshot();
      fault := None;
      var j := 0;
      while j < |node.otherwise|
        invariant 0 <= j <= |node.otherwise|
        invariant fault.None?
        invariant ExecAll(failed, net, node.otherwise) == ExecAll(Snapshot(), net, node.otherwise[j..])
      {
        assert node.otherwise[j..][0] == node.otherwise[j] && node.otherwise[j..][1..] == node.otherwise[j + 1..];
        fault := Execute(node.otherwise[j]);
        if fault.Some? {
          return;
        }
        j := j + 1;
      }
    }

    /** `execute_ESTABLISH` (esharp.py:95-104). */
    method ExecuteEstablish(node: Stmt) returns (fault: Option<Fault>)
      requires node.Establish?
      modifies this
      ensures Outcome(Snapshot(), fault) == Exec(old(Snapshot()), net, node)
    {
      if !memoryAllocated {
        return Some(MemoryNotAllocated);
      }
      var name := node.name;
      if name in lockedVars {
        return Some(Locked(name));
      }
      variables := variables[name := node.value];
      if node.resistant {
        lockedVars := lockedVars + {name};
      }
      fault := None;
    }

    /** `execute_TRANSMIT` (esharp.py:106-113). */
    method ExecuteTransmit(node: Stmt) returns (fault: Option<Fault>)
      requires node.Transmit?
      modifies this
      ensures Outcome(Snapshot(), fault) == Exec(old(Snapshot()), net, node)
    {
      if !memoryAllocated {
        return Some(MemoryNotAllocated);
      }
      var val := node.target;
      if val.Str? && val in variables {
        output := output + [variables[val]];
      } else {
        output := output + [val];
      }
      fault := None;
    }

    /** `execute_CALCULATE` (esharp.py:115-128). */
    method ExecuteCalculate(node: Stmt) returns (fault: Option<Fault>)
      requires node.Calculate?
      modifies this
      ensures Outcome(Snapshot(), fault) == Exec(old(Snapshot()), net, node)
    {
      if !memoryAllocated {
        return Some(MemoryNotAllocated);
      }
      var dest := node.dest;
      if dest in lockedVars {
        return Some(Locked(dest));
      }
      var v1 := if node.left in variables then variables[node.left] else node.left;
      var v2 := if node.right in variables then variables[node.right] else node.right;
      var res: Value;
      if node.op == Str("ADD") {
        if v1.Int? && v2.Int? {
          res := Int(v1.i + v2.i);
        } else if v1.Str? && v2.Str? {
          res := Str(v1.s + v2.s);
        } else {
          return Some(OperandTypes(node.op, v1, v2));
        }
      } else if node.op == Str("SUBTRACT") {
        if v1.Int? && v2.Int? {
          res := Int(v1.i - v2.i);
        } else {
          return Some(OperandTypes(node.op, v1, v2));
        }
      } else {
        return Some(UnknownOperation(node.op));
      }
      variables := variables[dest := res];
      fault := None;
    }

    /** `execute_INITIALIZE_SERVER` (esharp.py:130-137): the new socket is
        kept even when `bind` fails. */
    method ExecuteInitializeServer(node: Stmt) returns (fault: Option<Fault>)
      requires node.InitializeServer?
      modifies this
      ensures Outcome(Snapshot(), fault) == Exec(old(Snapshot()), net, node)
    {
      var port := if node.port in variables then variables[node.port] else node.port;
      serverSocket := Unbound;
      if !(port.Int? && 0 <= port.i <= 65535 && port.i in net.bindable) {
        return Some(BindFailed(port));
      }
      serverSocket := Listening;
      fault := None;
    }

    /** `execute_LISTEN_REQUEST` (esharp.py:139-146): no memory or lock
        check. */
    method ExecuteListenRequest(node: Stmt) returns (fault: Option<Fault>)
      requires node.ListenRequest?
      modifies this
      ensures Outcome(Snapshot(), fault) == Exec(old(Snapshot()), net, node)
    {
      if serverSocket.NoSocket? {
        return Some(ServerNotInitialized);
      }
      if serverSocket.Unbound? {
        return Some(AcceptFailed);
      }
      var data := net.request(accepted);
      accepted := accepted + 1;
      variables := variables[node.store := Str(data)];
      hasClient := true;
      fault := None;
    }

    /** `execute_RESPOND` (esharp.py:148-154): an integer message has no
        `encode`, and the client is then kept. */
    method ExecuteRespond(node: Stmt) returns (fault: Option<Fault>)
      requires node.Respond?
      modifies this
      ensures Outcome(Snapshot(), fault) == Exec(old(Snapshot()), net, node)
    {
      if !hasClient {
        return Some(NoActiveRequest);
      }
      var msg := if node.message in variables then variables[node.message] else node.message;
      if msg.Int? {
        return Some(NotEncodable(msg));
      }
      replies := replies + [msg.s];
      hasClient := false;
      fault := None;
    }
  }
}
