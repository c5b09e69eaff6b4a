/** The E# recursive-descent parser (esharp.py:156-285). The functions below
    are its specification, over the values of the tokens from a position on:
    the parser never looks at a token's kind. Each fixed-shape statement is
    the sequence of `consume` calls its parse method makes, written as a
    pattern. The `Parser` class holds the position and is proved to compute
    exactly what these functions compute; module ParserProperties proves
    which token sequences they accept. */
module Parsing {
  import opened Values
  import opened Tokens
  import opened Ast

  datatype ParseError =
    | UnexpectedEof
    | Expected(want: string, got: Value)
    | UnknownStatement(got: Value)

  /** A parsed item and the position just after it. */
  datatype Parsed<+T> = Parsed(node: T, next: nat)

  /** The values of a token sequence, in order. */
  function ValuesOf(ts: seq<Token>): (vs: seq<Value>)
    ensures |vs| == |ts|
    ensures forall k :: 0 <= k < |ts| ==> vs[k] == ts[k].value
  {
    seq(|ts|, k requires 0 <= k < |ts| => ts[k].value)
  }

  /** An outcome with `done` already taken in front of it: the statements
      parsed so far in a list, or the values consumed so far in a pattern. */
  function Prefixed<T>(done: seq<T>, r: Result<Parsed<seq<T>>, ParseError>): Result<Parsed<seq<T>>, ParseError> {
    match r
    case Ok(p) => Ok(Parsed(done + p.node, p.next))
    case Err(e) => Err(e)
  }

  lemma PrefixedNothing<T>(r: Result<Parsed<seq<T>>, ParseError>)
    ensures Prefixed([], r) == r
  {
    if r.Ok? {
      assert [] + r.value.node == r.value.node;
    }
  }

  lemma PrefixedStep<T>(done: seq<T>, x: T, r: Result<Parsed<seq<T>>, ParseError>)
    ensures Prefixed(done, Prefixed([x], r)) == Prefixed(done + [x], r)
  {
    if r.Ok? {
      assert done + ([x] + r.value.node) == done + [x] + r.value.node;
    }
  }

  /** One turn of the statement loop: the first statement, then the rest. */
  lemma StatementsStep(vs: seq<Value>, pos: nat, stop: Option<string>)
    requires pos < |vs| && !(stop.Some? && vs[pos] == Str(stop.value))
    ensures StatementAt(vs, pos).Err? ==> StatementsUntil(vs, pos, stop) == Err(StatementAt(vs, pos).error)
    ensures StatementAt(vs, pos).Ok? ==>
      StatementsUntil(vs, pos, stop)
      == Prefixed([StatementAt(vs, pos).value.node], StatementsUntil(vs, StatementAt(vs, pos).value.next, stop))
  {
  }

  /** Step `j` of `pattern`, begun at `start`, finds what it asks for. */
  predicate StepMatches(vs: seq<Value>, start: nat, pattern: Pattern, j: nat)
    requires j < |pattern| && start + j < |vs|
  {
    pattern[j].None? || vs[start + j] == Str(pattern[j].value)
  }

  /** The first `n` steps of `pattern`, begun at `start`, all succeed. */
  predicate Accepts(vs: seq<Value>, start: nat, pattern: Pattern, n: nat) {
    n <= |pattern| && start + n <= |vs| && forall j :: 0 <= j < n ==> StepMatches(vs, start, pattern, j)
  }

  /** A pattern whose first `n` steps succeed fails at step `n` as `consume`
      does there, whichever step `j <= n` it is resumed from. */
  lemma {:induction false} ExpectFails(vs: seq<Value>, start: nat, pattern: Pattern, j: nat, n: nat)
    requires j <= n < |pattern| && Accepts(vs, start, pattern, n)
    requires ConsumeAt(vs, start + n, pattern[n]).Err?
    ensures Expect(vs, start + j, pattern, j) == Err(ConsumeAt(vs, start + n, pattern[n]).error)
    decreases n - j
  {
    if j < n {
      assert StepMatches(vs, start, pattern, j);
      ExpectFails(vs, start, pattern, j + 1, n);
    }
  }

  /** A pattern whose steps all succeed yields the values it passed over. */
  lemma {:induction false} ExpectSucceeds(vs: seq<Value>, start: nat, pattern: Pattern, j: nat)
    requires j <= |pattern| && Accepts(vs, start, pattern, |pattern|)
    ensures Expect(vs, start + j, pattern, j) == Ok(Parsed(vs[start + j..start + |pattern|], start + |pattern|))
    decreases |pattern| - j
  {
    if j < |pattern| {
      assert StepMatches(vs, start, pattern, j);
      ExpectSucceeds(vs, start, pattern, j + 1);
      assert Expect(vs, start + j, pattern, j) == Prefixed([vs[start + j]], Expect(vs, start + (j + 1), pattern, j + 1));
      assert [vs[start + j]] + vs[start + (j + 1)..start + |pattern|] == vs[start + j..start + |pattern|];
    } else {
      assert vs[start + j..start + |pattern|] == [];
    }
  }

  /** What a fixed-shape statement asks `consume` for, step by step:
      `Some(w)` is `consume(w)`, `None` is `consume()`, which takes any value. */
  type Pattern = seq<Option<string>>

  const AllocatePattern: Pattern :=
    [Some("ALLOCATE"), Some("MEMORY"), Some("FOR"), Some("EXECUTION"), Some("END")]
  const DeallocatePattern: Pattern :=
    [Some("DEALLOCATE"), Some("MEMORY"), Some("END")]
  const TransmitPattern: Pattern :=
    [Some("TRANSMIT"), None, Some("TO"), Some("CONSOLE"), Some("END")]
  const CalculatePattern: Pattern :=
    [Some("CALCULATE"), None, Some("WITH"), None, Some("AND"), None, Some("STORE"), Some("IN"), None, Some("END")]
  const InitializeServerPattern: Pattern :=
    [Some("INITIALIZE"), Some("SERVER"), Some("ON"), Some("PORT"), None, Some("END")]
  const ListenRequestPattern: Pattern :=
    [Some("LISTEN"), Some("FOR"), Some("REQUEST"), Some("STORE"), Some("IN"), None, Some("END")]
  const RespondPattern: Pattern :=
    [Some("RESPOND"), Some("WITH"), None, Some("END")]
  /** What follows ESTABLISH and the optional RESISTANT. */
  const EstablishTail: Pattern :=
    [None, None, Some("AS"), None, Some("END")]

  /** `consume(val)` at `pos` (esharp.py:164-169): the value there and the
      position after it when it is the one asked for, the error `consume`
      raises otherwise. */
  function ConsumeAt(vs: seq<Value>, pos: nat, want: Option<string>): Result<Parsed<Value>, ParseError>
    requires pos <= |vs|
  {
    if pos == |vs| then Err(UnexpectedEof)
    else if want.Some? && vs[pos] != Str(want.value) then Err(Expected(want.value, vs[pos]))
    else Ok(Parsed(vs[pos], pos + 1))
  }

  /** `parse_statement` (esharp.py:177-198): dispatch on the leading value. */
  function StatementAt(vs: seq<Value>, pos: nat): (r: Result<Parsed<Stmt>, ParseError>)
    requires pos <= |vs|
    ensures r.Ok? ==> pos < r.value.next <= |vs|
    ensures pos < |vs| && !(vs[pos].Str? && IsStatementKeyword(vs[pos].s)) ==> r == Err(UnknownStatement(vs[pos]))
    decreases |vs| - pos, 1
  {
    if pos == |vs| then Err(UnexpectedEof)
    else
      var v := vs[pos];
      if v == Str("SECURE") then SecureAt(vs, pos)
      else if v == Str("ESTABLISH") then EstablishAt(vs, pos)
      else if v == Str("TRANSMIT") then TransmitAt(vs, pos)
      else if v == Str("CALCULATE") then CalculateAt(vs, pos)
      else if v == Str("ALLOCATE") then AllocateAt(vs, pos)
      else if v == Str("DEALLOCATE") then DeallocateAt(vs, pos)
      else if v == Str("INITIALIZE") then InitializeServerAt(vs, pos)
      else if v == Str("LISTEN") then ListenRequestAt(vs, pos)
      else if v == Str("RESPOND") then RespondAt(vs, pos)
      else Err(UnknownStatement(v))
  }

  /** The statement-list loops of `parse` and `parse_secure`
      (esharp.py:173-174, 243-244, 247-248): parse statements until the input
      ends or, when `stop` is given, until the next value is `stop`. */
  function StatementsUntil(vs: seq<Value>, pos: nat, stop: Option<string>): (r: Result<Parsed<seq<Stmt>>, ParseError>)
    requires pos <= |vs|
    ensures r.Ok? ==> pos <= r.value.next <= |vs|
                      && (r.value.next == |vs| || (stop.Some? && vs[r.value.next] == Str(stop.value)))
    decreases |vs| - pos, 2
  {
    if pos == |vs| || (stop.Some? && vs[pos] == Str(stop.value)) then Ok(Parsed([], pos))
    else
      match StatementAt(vs, pos)
      case Err(e) => Err(e)
      case Ok(first) => Prefixed([first.node], StatementsUntil(vs, first.next, stop))
  }

  /** `parse` (esharp.py:171-175): the whole input as a program. */
  function Program(vs: seq<Value>): Result<seq<Stmt>, ParseError> {
    match StatementsUntil(vs, 0, None)
    case Err(e) => Err(e)
    case Ok(p) => Ok(p.node)
  }

  /** `parse_secure` (esharp.py:240-250). */
  function SecureAt(vs: seq<Value>, pos: nat): (r: Result<Parsed<Stmt>, ParseError>)
    requires pos <= |vs|
    ensures r.Ok? ==> pos < r.value.next <= |vs|
    decreases |vs| - pos, 0
  {
    if pos == |vs| then Err(UnexpectedEof)
    else if vs[pos] != Str("SECURE") then Err(Expected("SECURE", vs[pos]))
    else match StatementsUntil(vs, pos + 1, Some("OTHERWISE"))
      case Err(e) => Err(e)
      case Ok(body) => OtherwiseAt(vs, body.next, body.node)
  }

  /** The second half of `parse_secure` (esharp.py:245-250), once the body
      has been parsed up to `pos`. */
  function OtherwiseAt(vs: seq<Value>, pos: nat, body: seq<Stmt>): (r: Result<Parsed<Stmt>, ParseError>)
    requires pos <= |vs|
    ensures r.Ok? ==> pos < r.value.next <= |vs|
    decreases |vs| - pos, 3
  {
    if pos == |vs| then Err(UnexpectedEof)
    else if vs[pos] != Str("OTHERWISE") then Err(Expected("OTHERWISE", vs[pos]))
    else match StatementsUntil(vs, pos + 1, Some("END"))
      case Err(e) => Err(e)
      case Ok(otherwise) =>
        if otherwise.next == |vs| then Err(UnexpectedEof)
        else Ok(Parsed(Secure(body, otherwise.node), otherwise.next + 1))
  }

  /** `consume` along a pattern from its `i`-th step on: the values taken,
      in order, or the first failure. */
  function Expect(vs: seq<Value>, pos: nat, pattern: Pattern, i: nat): (r: Result<Parsed<seq<Value>>, ParseError>)
    requires pos <= |vs| && i <= |pattern|
    ensures r.Ok? ==> |r.value.node| == |pattern| - i && r.value.next == pos + |pattern| - i <= |vs|
    decreases |pattern| - i
  {
    if i == |pattern| then Ok(Parsed([], pos))
    else if pos == |vs| then Err(UnexpectedEof)
    else if pattern[i].Some? && vs[pos] != Str(pattern[i].value) then Err(Expected(pattern[i].value, vs[pos]))
    else Prefixed([vs[pos]], Expect(vs, pos + 1, pattern, i + 1))
  }

  /** `parse_establish` (esharp.py:252-264): an optional RESISTANT, then a
      declared kind and a name taken as they come, AS, a value, END. Looking
      at the next value when there is none is a failure. */
  function EstablishAt(vs: seq<Value>, pos: nat): (r: Result<Parsed<Stmt>, ParseError>)
    requires pos <= |vs|
    ensures r.Ok? ==> pos < r.value.next <= |vs|
  {
    if pos == |vs| then Err(UnexpectedEof)
    else if vs[pos] != Str("ESTABLISH") then Err(Expected("ESTABLISH", vs[pos]))
    else if pos + 1 == |vs| then Err(UnexpectedEof)
    else
      var resistant := vs[pos + 1] == Str("RESISTANT");
      EstablishTailAt(vs, if resistant then pos + 2 else pos + 1, resistant)
  }

  /** The part of `parse_establish` after the optional RESISTANT. */
  function EstablishTailAt(vs: seq<Value>, pos: nat, resistant: bool): (r: Result<Parsed<Stmt>, ParseError>)
    requires pos <= |vs|
    ensures r.Ok? ==> pos < r.value.next <= |vs|
  {
    match Expect(vs, pos, EstablishTail, 0)
    case Err(e) => Err(e)
    case Ok(p) => Ok(Parsed(Establish(p.node[0], p.node[1], p.node[3], resistant), p.next))
  }

  /** `parse_transmit` (esharp.py:266-272). */
  function TransmitAt(vs: seq<Value>, pos: nat): (r: Result<Parsed<Stmt>, ParseError>)
    requires pos <= |vs|
    ensures r.Ok? ==> pos < r.value.next <= |vs|
  {
    match Expect(vs, pos, TransmitPattern, 0)
    case Err(e) => Err(e)
    case Ok(p) => Ok(Parsed(Transmit(p.node[1]), p.next))
  }

  /** `parse_calculate` (esharp.py:274-285): the operation is any value; it
      is only checked when the statement runs. */
  function CalculateAt(vs: seq<Value>, pos: nat): (r: Result<Parsed<Stmt>, ParseError>)
    requires pos <= |vs|
    ensures r.Ok? ==> pos < r.value.next <= |vs|
  {
    match Expect(vs, pos, CalculatePattern, 0)
    case Err(e) => Err(e)
    case Ok(p) => Ok(Parsed(Calculate(p.node[1], p.node[3], p.node[5], p.node[8]), p.next))
  }

  /** `parse_allocate` (esharp.py:226-232). */
  function AllocateAt(vs: seq<Value>, pos: nat): (r: Result<Parsed<Stmt>, ParseError>)
    requires pos <= |vs|
    ensures r.Ok? ==> pos < r.value.next <= |vs|
  {
    match Expect(vs, pos, AllocatePattern, 0)
    case Err(e) => Err(e)
    case Ok(p) => Ok(Parsed(Allocate, p.next))
  }

  /** `parse_deallocate` (esharp.py:234-238). */
  function DeallocateAt(vs: seq<Value>, pos: nat): (r: Result<Parsed<Stmt>, ParseError>)
    requires pos <= |vs|
    ensures r.Ok? ==> pos < r.value.next <= |vs|
  {
    match Expect(vs, pos, DeallocatePattern, 0)
    case Err(e) => Err(e)
    case Ok(p) => Ok(Parsed(Deallocate, p.next))
  }

  /** `parse_initialize_server` (esharp.py:200-207). */
  function InitializeServerAt(vs: seq<Value>, pos: nat): (r: Result<Parsed<Stmt>, ParseError>)
    requires pos <= |vs|
    ensures r.Ok? ==> pos < r.value.next <= |vs|
  {
    match Expect(vs, pos, InitializeServerPattern, 0)
    case Err(e) => Err(e)
    case Ok(p) => Ok(Parsed(InitializeServer(p.node[4]), p.next))
  }

  /** `parse_listen_request` (esharp.py:209-217). */
  function ListenRequestAt(vs: seq<Value>, pos: nat): (r: Result<Parsed<Stmt>, ParseError>)
    requires pos <= |vs|
    ensures r.Ok? ==> pos < r.value.next <= |vs|
  {
    match Expect(vs, pos, ListenRequestPattern, 0)
    case Err(e) => Err(e)
    case Ok(p) => Ok(Parsed(ListenRequest(p.node[5]), p.next))
  }

  /** `parse_respond` (esharp.py:219-224). */
  function RespondAt(vs: seq<Value>, pos: nat): (r: Result<Parsed<Stmt>, ParseError>)
    requires pos <= |vs|
    ensures r.Ok? ==> pos < r.value.next <= |vs|
  {
    match Expect(vs, pos, RespondPattern, 0)
    case Err(e) => Err(e)
    case Ok(p) => Ok(Parsed(Respond(p.node[2]), p.next))
  }
}

/** The parser object of esharp.py:156-285: a token list and a cursor that
    the parse methods advance. Each method is proved to return what the
    matching function of module Parsing returns from the cursor's starting
    position, and to leave the cursor where that function stops. A raised
    exception is an `Err` result; the cursor is then left unspecified, as
    nothing reads it after a failed parse. */
module ParserObject {
  import opened Values
  import opened Tokens
  import opened Ast
  import opened Parsing

  /** The method result `r` and the cursor `pos` match the specification's
      outcome `spec`. */
  predicate Agrees<T(==)>(r: Result<T, ParseError>, spec: Result<Parsed<T>, ParseError>, pos: nat) {
    match spec
    case Ok(p) => r == Ok(p.node) && pos == p.next
    case Err(e) => r == Err(e)
  }

  class Parser {
    const tokens: seq<Token>
    var pos: nat

    predicate Valid()
      reads this
    {
      pos <= |tokens|
    }

    /** The token values the specification functions read. */
    function Input(): seq<Value> {
      ValuesOf(tokens)
    }

    constructor(tokens: seq<Token>)
      ensures this.tokens == tokens && pos == 0 && Valid()
    {
      this.tokens := tokens;
      pos := 0;
    }

    /** `peek` (esharp.py:161-162). */
    function Peek(): (t: Option<Token>)
      reads this
      ensures t.Some? <==> pos < |tokens|
      ensures t.Some? ==> t.value == tokens[pos]
    {
      if pos < |tokens| then Some(tokens[pos]) else None
    }

    /** `consume` (esharp.py:164-169): it fails at the end of the input and
        on a value other than the one asked for; otherwise it returns the
        whole token and moves one token on. */
    method Consume(want: Option<string>) returns (r: Result<Token, ParseError>)
      requires Valid()
      modifies this`pos
      ensures Valid()
      ensures r.Ok? <==> old(pos) < |tokens| && (want.None? || tokens[old(pos)].value == Str(want.value))
      ensures r.Ok? ==> r.value == tokens[old(pos)] && pos == old(pos) + 1
      ensures r.Err? ==> pos == old(pos)
      ensures ConsumeAt(Input(), old(pos), want).Ok? ==> r == Ok(tokens[old(pos)]) && pos == old(pos) + 1
      ensures ConsumeAt(Input(), old(pos), want).Err? ==> r == Err(ConsumeAt(Input(), old(pos), want).error)
    {
      var token := Peek();
      if token.None? {
        return Err(UnexpectedEof);
      }
      if want.Some? && token.value.value != Str(want.value) {
        return Err(Expected(want.value, token.value.value));
      }
      pos := pos + 1;
      return Ok(token.value);
    }

    /** The run of `consume` calls a fixed-shape statement makes, one per
        step of `pattern`, in order, stopping at the first that fails; the
        tokens taken are returned. */
    method ConsumePattern(pattern: Pattern) returns (r: Result<seq<Token>, ParseError>)
      requires Valid()
      modifies this`pos
      ensures Valid()
      ensures r.Err? ==> Expect(Input(), old(pos), pattern, 0) == Err(r.error)
      ensures r.Ok? ==> Expect(Input(), old(pos), pattern, 0) == Ok(Parsed(ValuesOf(r.value), pos))
    {
      ghost var start := pos;
      var taken := [];
      for i := 0 to |pattern|
        invariant Valid() && pos == start + i && |taken| == i
        invariant Accepts(Input(), start, pattern, i)
        invariant forall k :: 0 <= k < i ==> taken[k] == tokens[start + k]
      {
        var t := Consume(pattern[i]);
        if t.Err? {
          ExpectFails(Input(), start, pattern, 0, i);
          return Err(t.error);
        }
        assert StepMatches(Input(), start, pattern, i);
        taken := taken + [t.value];
      }
      ExpectSucceeds(Input(), start, pattern, 0);
      assert ValuesOf(taken) == Input()[start..pos];
      return Ok(taken);
    }

    /** `parse` (esharp.py:171-175). */
    method Parse() returns (r: Result<seq<Stmt>, ParseError>)
      requires Valid()
      modifies this`pos
      ensures Valid()
      ensures Agrees(r, StatementsUntil(Input(), old(pos), None), pos)
      ensures old(pos) == 0 ==> r == Program(Input())
    {
      r := ParseStatements(None);
    }

    /** The statement loop of `parse` and the two loops of `parse_secure`
        (esharp.py:173-174, 243-244, 247-248): parse statements while a token
        is left and, when `stop` is given, it is not `stop`. */
    method ParseStatements(stop: Option<string>) returns (r: Result<seq<Stmt>, ParseError>)
      requires Valid()
      modifies this`pos
      ensures Valid()
      ensures Agrees(r, StatementsUntil(Input(), old(pos), stop), pos)
      decreases |tokens| - pos, 2
    {
      ghost var start := pos;
      var statements := [];
      PrefixedNothing(StatementsUntil(Input(), pos, stop));
      while pos < |tokens| && (stop.None? || tokens[pos].value != Str(stop.value))
        invariant Valid() && start <= pos
        invariant StatementsUntil(Input(), start, stop) == Prefixed(statements, StatementsUntil(Input(), pos, stop))
        decreases |tokens| - pos
      {
        StatementsStep(Input(), pos, stop);
        var s := ParseStatement();
        if s.Err? {
          assert StatementsUntil(Input(), start, stop) == Err(s.error);
          return Err(s.error);
        }
        PrefixedStep(statements, s.value, StatementsUntil(Input(), pos, stop));
        statements := statements + [s.value];
      }
      assert StatementsUntil(Input(), pos, stop) == Ok(Parsed([], pos));
      assert statements + [] == statements;
      return Ok(statements);
    }

    /** `parse_statement` (esharp.py:177-198). */
    method ParseStatement() returns (r: Result<Stmt, ParseError>)
      requires Valid()
      modifies this`pos
      ensures Valid()
      ensures Agrees(r, StatementAt(Input(), old(pos)), pos)
      decreases |tokens| - pos, 1
    {
      var token := Peek();
      if token.None? {
        return Err(UnexpectedEof);
      }
      var v := token.value.value;
      if v == Str("SECURE") {
        r := ParseSecure();
      } else if v == Str("ESTABLISH") {
        r := ParseEstablish();
      } else if v == Str("TRANSMIT") {
        r := ParseTransmit();
      } else if v == Str("CALCULATE") {
        r := ParseCalculate();
      } else if v == Str("ALLOCATE") {
        r := ParseAllocate();
      } else if v == Str("DEALLOCATE") {
        r := ParseDeallocate();
      } else if v == Str("INITIALIZE") {
        r := ParseInitializeServer();
      } else if v == Str("LISTEN") {
        r := ParseListenRequest();
      } else if v == Str("RESPOND") {
        r := ParseRespond();
      } else {
        r := Err(UnknownStatement(v));
      }
    }

    /** `parse_secure` (esharp.py:240-250). */
    method ParseSecure() returns (r: Result<Stmt, ParseError>)
      requires Valid()
      modifies this`pos
      ensures Valid()
      ensures Agrees(r, SecureAt(Input(), old(pos)), pos)
      decreases |tokens| - pos, 0
    {
      var t :- Consume(Some("SECURE"));
      var body :- ParseStatements(Some("OTHERWISE"));
      t :- Consume(Some("OTHERWISE"));
      var otherwise :- ParseStatements(Some("END"));
      t :- Consume(Some("END"));
      return Ok(Secure(body, otherwise));
    }

    /** `parse_establish` (esharp.py:252-264). Reading the token after
        ESTABLISH when there is none is a failure. */
    method ParseEstablish() returns (r: Result<Stmt, ParseError>)
      requires Valid()
      modifies this`pos
      ensures Valid()
      ensures Agrees(r, EstablishAt(Input(), old(pos)), pos)
    {
      ghost var start := pos;
      var t :- Consume(Some("ESTABLISH"));
      var next := Peek();
      if next.None? {
        return Err(UnexpectedEof);
      }
      var resistant := false;
      if next.value.value == Str("RESISTANT") {
        var modifier := Consume(Some("RESISTANT"));
        resistant := true;
      }
      assert EstablishAt(Input(), start) == EstablishTailAt(Input(), pos, resistant);
      var ts :- ConsumePattern(EstablishTail);
      return Ok(Establish(ts[0].value, ts[1].value, ts[3].value, resistant));
    }

    /** `parse_transmit` (esharp.py:266-272). */
    method ParseTransmit() returns (r: Result<Stmt, ParseError>)
      requires Valid()
      modifies this`pos
      ensures Valid()
      ensures Agrees(r, TransmitAt(Input(), old(pos)), pos)
    {
      var ts :- ConsumePattern(TransmitPattern);
      return Ok(Transmit(ts[1].value));
    }

    /** `parse_calculate` (esharp.py:274-285). */
    method ParseCalculate() returns (r: Result<Stmt, ParseError>)
      requires Valid()
      modifies this`pos
      ensures Valid()
      ensures Agrees(r, CalculateAt(Input(), old(pos)), pos)
    {
      var ts :- ConsumePattern(CalculatePattern);
      return Ok(Calculate(ts[1].value, ts[3].value, ts[5].value, ts[8].value));
    }

    /** `parse_allocate` (esharp.py:226-232). */
    method ParseAllocate() returns (r: Result<Stmt, ParseError>)
      requires Valid()
      modifies this`pos
      ensures Valid()
      ensures Agrees(r, AllocateAt(Input(), old(pos)), pos)
    {
      var ts :- ConsumePattern(AllocatePattern);
      return Ok(Allocate);
    }

    /** `parse_deallocate` (esharp.py:234-238). */
    method ParseDeallocate() returns (r: Result<Stmt, ParseError>)
      requires Valid()
      modifies this`pos
      ensures Valid()
      ensures Agrees(r, DeallocateAt(Input(), old(pos)), pos)
    {
      var ts :- ConsumePattern(DeallocatePattern);
      return Ok(Deallocate);
    }

    /** `parse_initialize_server` (esharp.py:200-207). */
    method ParseInitializeServer() returns (r: Result<Stmt, ParseError>)
      requires Valid()
      modifies this`pos
      ensures Valid()
      ensures Agrees(r, InitializeServerAt(Input(), old(pos)), pos)
    {
      var ts :- ConsumePattern(InitializeServerPattern);
      return Ok(InitializeServer(ts[4].value));
    }

    /** `parse_listen_request` (esharp.py:209-217). */
    method ParseListenRequest() returns (r: Result<Stmt, ParseError>)
      requires Valid()
      modifies this`pos
      ensures Valid()
      ensures Agrees(r, ListenRequestAt(Input(), old(pos)), pos)
    {
      var ts :- ConsumePattern(ListenRequestPattern);
      return Ok(ListenRequest(ts[5].value));
    }

    /** `parse_respond` (esharp.py:219-224). */
    method ParseRespond() returns (r: Result<Stmt, ParseError>)
      requires Valid()
      modifies this`pos
      ensures Valid()
      ensures Agrees(r, RespondAt(Input(), old(pos)), pos)
    {
      var ts :- ConsumePattern(RespondPattern);
      return Ok(Respond(ts[2].value));
    }
  }
}
