/** Properties of E# execution: the memory guard, the lock rules, arithmetic,
    SECURE recovery without rollback, and `run` stopping at the first
    failure. */
module SemanticsProperties {
  import opened Values
  import opened Ast
  import opened Semantics

  /** `st2` keeps everything `st` had that execution never takes back: its
      locks, what it printed, the replies it sent and the clients it
      accepted. */
  predicate Grows(st: State, st2: State) {
    st.lockedVars <= st2.lockedVars && st.output <= st2.output
    && st.replies <= st2.replies && st.accepted <= st2.accepted
  }

  lemma GrowsTransitive(a: State, b: State, c: State)
    requires Grows(a, b) && Grows(b, c)
    ensures Grows(a, c)
  {
    assert a.output == b.output[..|a.output|] && b.output == c.output[..|b.output|];
    assert a.output == c.output[..|a.output|];
    assert a.replies == b.replies[..|a.replies|] && b.replies == c.replies[..|b.replies|];
    assert a.replies == c.replies[..|a.replies|];
  }

  /** `locked_vars` never shrinks, output and replies are only appended to,
      whatever a statement does, failing or not. */
  lemma {:induction false} ExecGrows(st: State, net: Network, s: Stmt)
    ensures Grows(st, Exec(st, net, s).state)
    decreases s
  {
    match s
    case Secure(body, otherwise) =>
      var tried := ExecAll(st, net, body);
      ExecAllGrows(st, net, body);
      if tried.fault.Some? {
        ExecAllGrows(tried.state, net, otherwise);
        GrowsTransitive(st, tried.state, ExecAll(tried.state, net, otherwise).state);
      }
    case _ =>
  }

  lemma {:induction false} ExecAllGrows(st: State, net: Network, ss: seq<Stmt>)
    ensures Grows(st, ExecAll(st, net, ss).state)
    decreases ss
  {
    if |ss| > 0 {
      var first := Exec(st, net, ss[0]);
      ExecGrows(st, net, ss[0]);
      if first.fault.None? {
        ExecAllGrows(first.state, net, ss[1..]);
        GrowsTransitive(st, first.state, ExecAll(first.state, net, ss[1..]).state);
      }
    }
  }

  /** ESTABLISH, TRANSMIT and CALCULATE fail while memory is not allocated,
      and change nothing. */
  lemma MemoryGuard(st: State, net: Network, s: Stmt)
    requires s.Establish? || s.Transmit? || s.Calculate?
    requires !st.memoryAllocated
    ensures Exec(st, net, s) == Fail(st, MemoryNotAllocated)
  {
  }

  /** A statement other than SECURE and INITIALIZE fails before it changes
      anything. */
  lemma FailureChangesNothing(st: State, net: Network, s: Stmt)
    requires !s.Secure? && !s.InitializeServer?
    ensures Exec(st, net, s).fault.Some? ==> Exec(st, net, s).state == st
  {
  }

  /** ESTABLISH binds the raw value it was written with and locks the name
      only when RESISTANT; it fails on a locked name. */
  lemma EstablishEffect(st: State, net: Network, vtype: Value, name: Value, value: Value, resistant: bool)
    ensures var o := Exec(st, net, Establish(vtype, name, value, resistant));
      && (o.fault.None? <==> st.memoryAllocated && name !in st.lockedVars)
      && (st.memoryAllocated && name in st.lockedVars ==> o == Fail(st, Locked(name)))
      && (o.fault.None? ==> o.state.variables == st.variables[name := value]
                            && o.state.lockedVars == (if resistant then st.lockedVars + {name} else st.lockedVars)
                            && o.state.output == st.output)
  {
  }

  /** CALCULATE: with memory allocated and an unlocked destination it
      succeeds exactly when the arithmetic does, on operands looked up
      among the variables, and then changes `variables[dest]` only. */
  lemma CalculateEffect(st: State, net: Network, op: Value, left: Value, right: Value, dest: Value)
    ensures var o := Exec(st, net, Calculate(op, left, right, dest));
      var a, b := Resolve(st.variables, left), Resolve(st.variables, right);
      && (st.memoryAllocated && dest in st.lockedVars ==> o == Fail(st, Locked(dest)))
      && (o.fault.None? <==> st.memoryAllocated && dest !in st.lockedVars && Arith(op, a, b).Ok?)
      && (o.fault.None? ==> o.state == st.(variables := st.variables[dest := Arith(op, a, b).value]))
      && (o.fault.Some? ==> o.state == st)
  {
  }

  /** DEALLOCATE empties `variables` and clears the flag but keeps every
      lock. */
  lemma DeallocateEffect(st: State, net: Network)
    ensures var o := Exec(st, net, Deallocate);
      o.fault.None? && o.state.variables == map[] && !o.state.memoryAllocated
      && o.state.lockedVars == st.lockedVars
  {
  }

  /** LISTEN checks neither the memory flag nor the locks: on a listening
      socket it stores the request even in a locked name. */
  lemma ListenUnguarded(st: State, net: Network, store: Value)
    requires st.server.Listening?
    ensures var o := Exec(st, net, ListenRequest(store));
      o.fault.None? && o.state.variables[store] == Str(net.request(st.accepted))
      && o.state.hasClient && o.state.lockedVars == st.lockedVars
  {
  }

  /** A reply goes out once per accepted request: after RESPOND succeeds, a
      second RESPOND fails. A message that is an integer cannot be encoded
      and the client stays current. */
  lemma RespondOnce(st: State, net: Network, m1: Value, m2: Value)
    requires st.hasClient
    ensures var o := ExecAll(st, net, [Respond(m1), Respond(m2)]);
      Resolve(st.variables, m1).Str? ==> o.fault == Some(NoActiveRequest)
    ensures var o := Exec(st, net, Respond(m1));
      Resolve(st.variables, m1).Int? ==> o.fault.Some? && o.state.hasClient
  {
    var first := Exec(st, net, Respond(m1));
    if first.fault.None? {
      assert [Respond(m1), Respond(m2)][1..] == [Respond(m2)];
      assert Exec(first.state, net, Respond(m2)).fault == Some(NoActiveRequest);
      assert ExecAll(first.state, net, [Respond(m2)]) == Exec(first.state, net, Respond(m2));
    }
  }

  /** A failed INITIALIZE replaces the listening socket by one that cannot
      accept: LISTEN then fails. */
  lemma FailedRebind(st: State, net: Network, port: Value, store: Value)
    requires !Binds(net, Resolve(st.variables, port))
    ensures ExecAll(st, net, [InitializeServer(port), ListenRequest(store)]).fault == Some(BindFailed(Resolve(st.variables, port)))
    ensures Exec(Exec(st, net, InitializeServer(port)).state, net, ListenRequest(store)).fault == Some(AcceptFailed)
  {
  }

  /** What remains to run after a first part ran without failing. */
  function Then(o: Outcome, net: Network, ss: seq<Stmt>): Outcome {
    if o.fault.Some? then o else ExecAll(o.state, net, ss)
  }

  /** Running two lists one after the other is running their
      concatenation. */
  lemma {:induction false} ExecAllAppend(st: State, net: Network, a: seq<Stmt>, b: seq<Stmt>)
    ensures ExecAll(st, net, a + b) == Then(ExecAll(st, net, a), net, b)
    decreases a
  {
    if |a| == 0 {
      assert a + b == b;
    } else {
      assert (a + b)[0] == a[0] && (a + b)[1..] == a[1..] + b;
      var first := Exec(st, net, a[0]);
      if first.fault.None? {
        ExecAllAppend(first.state, net, a[1..], b);
      }
    }
  }

  /** `run` stops at the first statement that fails: if the first `k`
      statements succeed and statement `k` fails, the run ends as that
      statement did and nothing after it runs. */
  lemma StopsAtFirstFailure(st: State, net: Network, ss: seq<Stmt>, k: nat)
    requires k < |ss|
    requires ExecAll(st, net, ss[..k]).fault.None?
    requires Exec(ExecAll(st, net, ss[..k]).state, net, ss[k]).fault.Some?
    ensures ExecAll(st, net, ss) == Exec(ExecAll(st, net, ss[..k]).state, net, ss[k])
  {
    var pre := ExecAll(st, net, ss[..k]);
    assert ss == ss[..k] + ss[k..];
    ExecAllAppend(st, net, ss[..k], ss[k..]);
    assert ss[k..][0] == ss[k];
  }

  /** SECURE runs `otherwise` exactly when its body fails, and a failure in
      `otherwise` is the failure of the whole statement. */
  lemma SecureOutcome(st: State, net: Network, body: seq<Stmt>, otherwise: seq<Stmt>)
    ensures var tried := ExecAll(st, net, body);
      var o := Exec(st, net, Secure(body, otherwise));
      && (tried.fault.None? ==> o == tried)
      && (tried.fault.Some? ==> o == ExecAll(tried.state, net, otherwise))
      && (o.fault.Some? <==> tried.fault.Some? && ExecAll(tried.state, net, otherwise).fault.Some?)
  {
  }

  /** No rollback: when statement `k` of the body fails, `otherwise` starts
      from the state the first `k` statements left, which the failed
      statement did not change unless it is a SECURE or INITIALIZE. */
  lemma SecureKeepsEffects(st: State, net: Network, body: seq<Stmt>, otherwise: seq<Stmt>, k: nat)
    requires k < |body|
    requires ExecAll(st, net, body[..k]).fault.None?
    requires Exec(ExecAll(st, net, body[..k]).state, net, body[k]).fault.Some?
    ensures var kept := ExecAll(st, net, body[..k]).state;
      var failed := Exec(kept, net, body[k]).state;
      && Exec(st, net, Secure(body, otherwise)) == ExecAll(failed, net, otherwise)
      && (!body[k].Secure? && !body[k].InitializeServer? ==> failed == kept)
  {
    StopsAtFirstFailure(st, net, body, k);
    if !body[k].Secure? && !body[k].InitializeServer? {
      FailureChangesNothing(ExecAll(st, net, body[..k]).state, net, body[k]);
    }
  }

  /** No ALLOCATE anywhere in a statement, nested SECURE lists included. */
  predicate NoAllocate(s: Stmt) {
    match s
    case Allocate => false
    case Secure(body, otherwise) => NoAllocateAll(body) && NoAllocateAll(otherwise)
    case _ => true
  }

  predicate NoAllocateAll(ss: seq<Stmt>) {
    forall k :: 0 <= k < |ss| ==> NoAllocate(ss[k])
  }

  /** Without an ALLOCATE, memory stays unallocated: no ESTABLISH, TRANSMIT
      or CALCULATE succeeds, so no lock is added and nothing is printed. */
  lemma {:induction false} UnallocatedExec(st: State, net: Network, s: Stmt)
    requires !st.memoryAllocated && NoAllocate(s)
    ensures var o := Exec(st, net, s).state;
      !o.memoryAllocated && o.lockedVars == st.lockedVars && o.output == st.output
    decreases s
  {
    match s
    case Secure(body, otherwise) =>
      var tried := ExecAll(st, net, body);
      UnallocatedExecAll(st, net, body);
      if tried.fault.Some? {
        UnallocatedExecAll(tried.state, net, otherwise);
      }
    case _ =>
  }

  lemma {:induction false} UnallocatedExecAll(st: State, net: Network, ss: seq<Stmt>)
    requires !st.memoryAllocated && NoAllocateAll(ss)
    ensures var o := ExecAll(st, net, ss).state;
      !o.memoryAllocated && o.lockedVars == st.lockedVars && o.output == st.output
    decreases ss
  {
    if |ss| > 0 {
      var first := Exec(st, net, ss[0]);
      UnallocatedExec(st, net, ss[0]);
      if first.fault.None? {
        assert NoAllocateAll(ss[1..]) by {
          forall k | 0 <= k < |ss[1..]| ensures NoAllocate(ss[1..][k]) {
            assert ss[1..][k] == ss[k + 1];
          }
        }
        UnallocatedExecAll(first.state, net, ss[1..]);
      }
    }
  }

  /** A statement that can rebind `name` although it is locked: DEALLOCATE
      (which empties `variables`) or a LISTEN storing into it, anywhere
      inside. */
  predicate Unlocks(s: Stmt, name: Value) {
    match s
    case Deallocate => true
    case ListenRequest(store) => store == name
    case Secure(body, otherwise) => UnlocksAny(body, name) || UnlocksAny(otherwise, name)
    case _ => false
  }

  predicate UnlocksAny(ss: seq<Stmt>, name: Value) {
    exists k :: 0 <= k < |ss| && Unlocks(ss[k], name)
  }

  /** A locked, bound name keeps its value: only DEALLOCATE and LISTEN can
      change it. */
  lemma {:induction false} LockedStaysExec(st: State, net: Network, s: Stmt, name: Value)
    requires name in st.lockedVars && name in st.variables && !Unlocks(s, name)
    ensures var o := Exec(st, net, s).state;
      name in o.lockedVars && name in o.variables && o.variables[name] == st.variables[name]
    decreases s
  {
    ExecGrows(st, net, s);
    match s
    case Secure(body, otherwise) =>
      var tried := ExecAll(st, net, body);
      LockedStaysExecAll(st, net, body, name);
      if tried.fault.Some? {
        LockedStaysExecAll(tried.state, net, otherwise, name);
      }
    case _ =>
  }

  lemma {:induction false} LockedStaysExecAll(st: State, net: Network, ss: seq<Stmt>, name: Value)
    requires name in st.lockedVars && name in st.variables && !UnlocksAny(ss, name)
    ensures var o := ExecAll(st, net, ss).state;
      name in o.lockedVars && name in o.variables && o.variables[name] == st.variables[name]
    decreases ss
  {
    if |ss| > 0 {
      var first := Exec(st, net, ss[0]);
      assert !Unlocks(ss[0], name);
      LockedStaysExec(st, net, ss[0], name);
      if first.fault.None? {
        assert !UnlocksAny(ss[1..], name) by {
          forall k | 0 <= k < |ss[1..]| ensures !Unlocks(ss[1..][k], name) {
            assert ss[1..][k] == ss[k + 1];
          }
        }
        LockedStaysExecAll(first.state, net, ss[1..], name);
      }
    }
  }
}
