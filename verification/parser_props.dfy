/** What the E# parser accepts, stated over the specification functions of
    module Parsing. Their own postconditions give soundness: whatever is
    parsed reads back as the tokens consumed. The lemmas here give the
    converse, so that the parser accepts exactly the unparsed well-formed
    programs, and the consequences of both: statements are prefix-free and
    a statement cut short is a failure. */
module ParserProperties {
  import opened Values
  import opened Ast
  import opened Parsing

  lemma SplitSlice(vs: seq<Value>, a: nat, n: nat, x: seq<Value>, y: seq<Value>)
    requires a + |x| + |y| == n <= |vs| && vs[a..n] == x + y
    ensures vs[a..a + |x|] == x && vs[a + |x|..n] == y
  {
    assert vs[a..a + |x|] == vs[a..n][..|x|];
    assert vs[a + |x|..n] == vs[a..n][|x|..];
  }

  /** The positions of the pieces of a SECURE statement. */
  lemma SecurePieces(vs: seq<Value>, a: nat, body: seq<Value>, otherwise: seq<Value>)
    requires a + |body| + |otherwise| + 3 <= |vs|
    requires vs[a..a + |body| + |otherwise| + 3] == [Str("SECURE")] + body + [Str("OTHERWISE")] + otherwise + [Str("END")]
    ensures vs[a] == Str("SECURE")
    ensures vs[a + 1..a + 1 + |body|] == body
    ensures vs[a + 1 + |body|] == Str("OTHERWISE")
    ensures vs[a + 2 + |body|..a + 2 + |body| + |otherwise|] == otherwise
    ensures vs[a + 2 + |body| + |otherwise|] == Str("END")
  {
    var n := a + |body| + |otherwise| + 3;
    SplitSlice(vs, a, n, [Str("SECURE")], body + [Str("OTHERWISE")] + otherwise + [Str("END")]);
    SplitSlice(vs, a + 1, n, body, [Str("OTHERWISE")] + otherwise + [Str("END")]);
    SplitSlice(vs, a + 1 + |body|, n, [Str("OTHERWISE")], otherwise + [Str("END")]);
    SplitSlice(vs, a + 2 + |body|, n, otherwise, [Str("END")]);
  }

  lemma SliceSplit(vs: seq<Value>, a: nat, b: nat, c: nat)
    requires a <= b <= c <= |vs|
    ensures vs[a..c] == vs[a..b] + vs[b..c]
  {
  }

  /** The pieces `parse_secure` reads, laid side by side. */
  lemma SecureSlices(vs: seq<Value>, a: nat, b: nat, c: nat, d: nat, e: nat, f: nat,
                     body: seq<Value>, otherwise: seq<Value>)
    requires a + 1 == b <= c && c + 1 == d <= e && e + 1 == f <= |vs|
    requires vs[a] == Str("SECURE") && vs[c] == Str("OTHERWISE") && vs[e] == Str("END")
    requires vs[b..c] == body && vs[d..e] == otherwise
    ensures vs[a..f] == [Str("SECURE")] + body + [Str("OTHERWISE")] + otherwise + [Str("END")]
  {
    SliceSplit(vs, a, b, f);
    SliceSplit(vs, b, c, f);
    SliceSplit(vs, c, d, f);
    SliceSplit(vs, d, e, f);
  }

  /** A successful statement parse read exactly the tokens of a
      well-formed statement. */
  predicate ReadsBack(vs: seq<Value>, pos: nat, r: Result<Parsed<Stmt>, ParseError>) {
    r.Ok? ==> pos <= r.value.next <= |vs| && vs[pos..r.value.next] == Unparse(r.value.node)
              && WellFormedStmt(r.value.node)
  }

  predicate ReadsBackAll(vs: seq<Value>, pos: nat, r: Result<Parsed<seq<Stmt>>, ParseError>) {
    r.Ok? ==> pos <= r.value.next <= |vs| && vs[pos..r.value.next] == UnparseAll(r.value.node)
              && WellFormedStmts(r.value.node)
  }

  /** A pattern that `Expect` gets through matched at every step. */
  lemma {:induction false} ExpectSound(vs: seq<Value>, start: nat, pattern: Pattern, j: nat)
    requires j <= |pattern| && start + j <= |vs| && Accepts(vs, start, pattern, j)
    requires Expect(vs, start + j, pattern, j).Ok?
    ensures Accepts(vs, start, pattern, |pattern|)
    decreases |pattern| - j
  {
    if j < |pattern| {
      assert StepMatches(vs, start, pattern, j);
      ExpectSound(vs, start, pattern, j + 1);
    }
  }

  /** `Expect` succeeds exactly when every step of the pattern matches, and
      then returns the values it passed over. */
  lemma ExpectMeaning(vs: seq<Value>, pos: nat, pattern: Pattern)
    requires pos <= |vs|
    ensures Expect(vs, pos, pattern, 0).Ok? <==> Accepts(vs, pos, pattern, |pattern|)
    ensures Expect(vs, pos, pattern, 0).Ok? ==>
      Expect(vs, pos, pattern, 0) == Ok(Parsed(vs[pos..pos + |pattern|], pos + |pattern|))
  {
    if Expect(vs, pos, pattern, 0).Ok? {
      ExpectSound(vs, pos, pattern, 0);
    }
    if Accepts(vs, pos, pattern, |pattern|) {
      ExpectSucceeds(vs, pos, pattern, 0);
    }
  }

  /** Where every step of a pattern matches, the values there are the
      pattern's words, with the taken values in its open places. */
  lemma AcceptedValues(vs: seq<Value>, pos: nat, pattern: Pattern, u: seq<Value>)
    requires Accepts(vs, pos, pattern, |pattern|) && |u| == |pattern|
    requires forall k :: 0 <= k < |u| ==> if pattern[k].Some? then u[k] == Str(pattern[k].value) else u[k] == vs[pos + k]
    ensures vs[pos..pos + |u|] == u
  {
    forall k | 0 <= k < |u| ensures vs[pos + k] == u[k] {
      assert StepMatches(vs, pos, pattern, k);
    }
  }

  /** The values of `u` match `pattern` at `pos` wherever it names a word. */
  lemma MatchedValues(vs: seq<Value>, pos: nat, pattern: Pattern, u: seq<Value>)
    requires pos + |u| <= |vs| && vs[pos..pos + |u|] == u && |u| == |pattern|
    requires forall k :: 0 <= k < |u| && pattern[k].Some? ==> u[k] == Str(pattern[k].value)
    ensures Accepts(vs, pos, pattern, |pattern|)
  {
    forall k | 0 <= k < |u| ensures StepMatches(vs, pos, pattern, k) {
      assert vs[pos..pos + |u|][k] == vs[pos + k];
    }
  }

  lemma EstablishSound(vs: seq<Value>, pos: nat)
    requires pos <= |vs|
    ensures ReadsBack(vs, pos, EstablishAt(vs, pos))
  {
    var r := EstablishAt(vs, pos);
    if r.Ok? {
      var resistant := vs[pos + 1] == Str("RESISTANT");
      var at := if resistant then pos + 2 else pos + 1;
      assert r == EstablishTailAt(vs, at, resistant);
      EstablishTailSound(vs, at, resistant);
      assert vs[pos..r.value.next] == vs[pos..at] + vs[at..at + 5];
    }
  }

  /** After the optional RESISTANT, `parse_establish` takes five values. */
  lemma EstablishTailSound(vs: seq<Value>, at: nat, resistant: bool)
    requires at <= |vs|
    ensures EstablishTailAt(vs, at, resistant).Ok? ==>
      at + 5 <= |vs| && EstablishTailAt(vs, at, resistant) == Ok(Parsed(Establish(vs[at], vs[at + 1], vs[at + 3], resistant), at + 5))
      && vs[at..at + 5] == [vs[at], vs[at + 1], Str("AS"), vs[at + 3], Str("END")]
  {
    if EstablishTailAt(vs, at, resistant).Ok? {
      ExpectMeaning(vs, at, EstablishTail);
      AcceptedValues(vs, at, EstablishTail, [vs[at], vs[at + 1], Str("AS"), vs[at + 3], Str("END")]);
    }
  }

  lemma TransmitSound(vs: seq<Value>, pos: nat)
    requires pos <= |vs|
    ensures ReadsBack(vs, pos, TransmitAt(vs, pos))
  {
    if TransmitAt(vs, pos).Ok? {
      ExpectMeaning(vs, pos, TransmitPattern);
      AcceptedValues(vs, pos, TransmitPattern, Unparse(TransmitAt(vs, pos).value.node));
    }
  }

  lemma CalculateSound(vs: seq<Value>, pos: nat)
    requires pos <= |vs|
    ensures ReadsBack(vs, pos, CalculateAt(vs, pos))
  {
    if CalculateAt(vs, pos).Ok? {
      ExpectMeaning(vs, pos, CalculatePattern);
      AcceptedValues(vs, pos, CalculatePattern, Unparse(CalculateAt(vs, pos).value.node));
    }
  }

  lemma AllocateSound(vs: seq<Value>, pos: nat)
    requires pos <= |vs|
    ensures ReadsBack(vs, pos, AllocateAt(vs, pos))
  {
    if AllocateAt(vs, pos).Ok? {
      ExpectMeaning(vs, pos, AllocatePattern);
      AcceptedValues(vs, pos, AllocatePattern, Unparse(AllocateAt(vs, pos).value.node));
    }
  }

  lemma DeallocateSound(vs: seq<Value>, pos: nat)
    requires pos <= |vs|
    ensures ReadsBack(vs, pos, DeallocateAt(vs, pos))
  {
    if DeallocateAt(vs, pos).Ok? {
      ExpectMeaning(vs, pos, DeallocatePattern);
      AcceptedValues(vs, pos, DeallocatePattern, Unparse(DeallocateAt(vs, pos).value.node));
    }
  }

  lemma InitializeServerSound(vs: seq<Value>, pos: nat)
    requires pos <= |vs|
    ensures ReadsBack(vs, pos, InitializeServerAt(vs, pos))
  {
    if InitializeServerAt(vs, pos).Ok? {
      ExpectMeaning(vs, pos, InitializeServerPattern);
      AcceptedValues(vs, pos, InitializeServerPattern, Unparse(InitializeServerAt(vs, pos).value.node));
    }
  }

  lemma ListenRequestSound(vs: seq<Value>, pos: nat)
    requires pos <= |vs|
    ensures ReadsBack(vs, pos, ListenRequestAt(vs, pos))
  {
    if ListenRequestAt(vs, pos).Ok? {
      ExpectMeaning(vs, pos, ListenRequestPattern);
      AcceptedValues(vs, pos, ListenRequestPattern, Unparse(ListenRequestAt(vs, pos).value.node));
    }
  }

  lemma RespondSound(vs: seq<Value>, pos: nat)
    requires pos <= |vs|
    ensures ReadsBack(vs, pos, RespondAt(vs, pos))
  {
    if RespondAt(vs, pos).Ok? {
      ExpectMeaning(vs, pos, RespondPattern);
      AcceptedValues(vs, pos, RespondPattern, Unparse(RespondAt(vs, pos).value.node));
    }
  }

  /** Soundness of `parse_statement`: a statement it returns was written as
      the tokens it read, and is well formed. */
  lemma StatementSound(vs: seq<Value>, pos: nat)
    requires pos <= |vs|
    ensures ReadsBack(vs, pos, StatementAt(vs, pos))
  {
    CheckStatement(vs, pos);
    Open(StatementBack(vs, pos));
  }

  /** Soundness of the statement loops. */
  lemma StatementsSound(vs: seq<Value>, pos: nat, stop: Option<string>)
    requires pos <= |vs|
    ensures ReadsBackAll(vs, pos, StatementsUntil(vs, pos, stop))
  {
    CheckStatements(vs, pos, stop);
    Open(ListBack(vs, pos, stop));
  }

  /** Everything `parse` returns was written as the tokens it read. */
  lemma ProgramSound(vs: seq<Value>)
    ensures Program(vs).Ok? ==> vs == UnparseAll(Program(vs).value) && WellFormedStmts(Program(vs).value)
  {
    StatementsSound(vs, 0, None);
    assert vs[0..|vs|] == vs;
  }

  /** The token values of `u` stand at `pos`, one by one. */
  lemma Elements(vs: seq<Value>, pos: nat, u: seq<Value>)
    requires pos + |u| <= |vs| && vs[pos..pos + |u|] == u
    ensures forall k :: 0 <= k < |u| ==> vs[pos + k] == u[k]
  {
    forall k | 0 <= k < |u| ensures vs[pos + k] == u[k] {
      assert vs[pos..pos + |u|][k] == vs[pos + k];
    }
  }

  lemma EstablishComplete(vs: seq<Value>, pos: nat, s: Stmt)
    requires s.Establish? && WellFormedStmt(s)
    requires pos + |Unparse(s)| <= |vs| && vs[pos..pos + |Unparse(s)|] == Unparse(s)
    ensures StatementAt(vs, pos) == Ok(Parsed(s, pos + |Unparse(s)|))
  {
    assert vs[pos] == vs[pos..pos + |Unparse(s)|][0];
    EstablishValues(vs, pos, s);
  }

  lemma EstablishValues(vs: seq<Value>, pos: nat, s: Stmt)
    requires s.Establish? && WellFormedStmt(s)
    requires pos + |Unparse(s)| <= |vs| && vs[pos..pos + |Unparse(s)|] == Unparse(s)
    ensures EstablishAt(vs, pos) == Ok(Parsed(s, pos + |Unparse(s)|))
  {
    var at := if s.resistant then pos + 2 else pos + 1;
    var tail := [s.vtype, s.name, Str("AS"), s.value, Str("END")];
    assert Unparse(s) == [Str("ESTABLISH")] + (if s.resistant then [Str("RESISTANT")] else []) + tail;
    SplitSlice(vs, pos, pos + |Unparse(s)|, Unparse(s)[..at - pos], tail);
    assert vs[pos] == Unparse(s)[0];
    if s.resistant {
      assert vs[pos + 1] == Unparse(s)[1];
    } else {
      assert vs[pos + 1] == s.vtype;
    }
    MatchedValues(vs, at, EstablishTail, tail);
    ExpectMeaning(vs, at, EstablishTail);
  }

  lemma TransmitComplete(vs: seq<Value>, pos: nat, s: Stmt)
    requires s.Transmit?
    requires pos + |Unparse(s)| <= |vs| && vs[pos..pos + |Unparse(s)|] == Unparse(s)
    ensures StatementAt(vs, pos) == Ok(Parsed(s, pos + |Unparse(s)|))
  {
    assert vs[pos] == vs[pos..pos + |Unparse(s)|][0];
    TransmitValues(vs, pos, s);
  }

  lemma TransmitValues(vs: seq<Value>, pos: nat, s: Stmt)
    requires s.Transmit?
    requires pos + |Unparse(s)| <= |vs| && vs[pos..pos + |Unparse(s)|] == Unparse(s)
    ensures TransmitAt(vs, pos) == Ok(Parsed(s, pos + |Unparse(s)|))
  {
    MatchedValues(vs, pos, TransmitPattern, Unparse(s));
    ExpectMeaning(vs, pos, TransmitPattern);
    Elements(vs, pos, Unparse(s));
  }

  lemma CalculateComplete(vs: seq<Value>, pos: nat, s: Stmt)
    requires s.Calculate?
    requires pos + |Unparse(s)| <= |vs| && vs[pos..pos + |Unparse(s)|] == Unparse(s)
    ensures StatementAt(vs, pos) == Ok(Parsed(s, pos + |Unparse(s)|))
  {
    assert vs[pos] == vs[pos..pos + |Unparse(s)|][0];
    CalculateValues(vs, pos, s);
  }

  lemma CalculateValues(vs: seq<Value>, pos: nat, s: Stmt)
    requires s.Calculate?
    requires pos + |Unparse(s)| <= |vs| && vs[pos..pos + |Unparse(s)|] == Unparse(s)
    ensures CalculateAt(vs, pos) == Ok(Parsed(s, pos + |Unparse(s)|))
  {
    MatchedValues(vs, pos, CalculatePattern, Unparse(s));
    ExpectMeaning(vs, pos, CalculatePattern);
    Elements(vs, pos, Unparse(s));
  }

  lemma AllocateComplete(vs: seq<Value>, pos: nat)
    requires pos + |Unparse(Allocate)| <= |vs| && vs[pos..pos + |Unparse(Allocate)|] == Unparse(Allocate)
    ensures StatementAt(vs, pos) == Ok(Parsed(Allocate, pos + |Unparse(Allocate)|))
  {
    assert vs[pos] == vs[pos..pos + |Unparse(Allocate)|][0];
    AllocateValues(vs, pos);
  }

  lemma AllocateValues(vs: seq<Value>, pos: nat)
    requires pos + |Unparse(Allocate)| <= |vs| && vs[pos..pos + |Unparse(Allocate)|] == Unparse(Allocate)
    ensures AllocateAt(vs, pos) == Ok(Parsed(Allocate, pos + |Unparse(Allocate)|))
  {
    MatchedValues(vs, pos, AllocatePattern, Unparse(Allocate));
    ExpectMeaning(vs, pos, AllocatePattern);
  }

  lemma DeallocateComplete(vs: seq<Value>, pos: nat)
    requires pos + |Unparse(Deallocate)| <= |vs| && vs[pos..pos + |Unparse(Deallocate)|] == Unparse(Deallocate)
    ensures StatementAt(vs, pos) == Ok(Parsed(Deallocate, pos + |Unparse(Deallocate)|))
  {
    assert vs[pos] == vs[pos..pos + |Unparse(Deallocate)|][0];
    DeallocateValues(vs, pos);
  }

  lemma DeallocateValues(vs: seq<Value>, pos: nat)
    requires pos + |Unparse(Deallocate)| <= |vs| && vs[pos..pos + |Unparse(Deallocate)|] == Unparse(Deallocate)
    ensures DeallocateAt(vs, pos) == Ok(Parsed(Deallocate, pos + |Unparse(Deallocate)|))
  {
    MatchedValues(vs, pos, DeallocatePattern, Unparse(Deallocate));
    ExpectMeaning(vs, pos, DeallocatePattern);
  }

  lemma InitializeServerComplete(vs: seq<Value>, pos: nat, s: Stmt)
    requires s.InitializeServer?
    requires pos + |Unparse(s)| <= |vs| && vs[pos..pos + |Unparse(s)|] == Unparse(s)
    ensures StatementAt(vs, pos) == Ok(Parsed(s, pos + |Unparse(s)|))
  {
    assert vs[pos] == vs[pos..pos + |Unparse(s)|][0];
    InitializeServerValues(vs, pos, s);
  }

  lemma InitializeServerValues(vs: seq<Value>, pos: nat, s: Stmt)
    requires s.InitializeServer?
    requires pos + |Unparse(s)| <= |vs| && vs[pos..pos + |Unparse(s)|] == Unparse(s)
    ensures InitializeServerAt(vs, pos) == Ok(Parsed(s, pos + |Unparse(s)|))
  {
    MatchedValues(vs, pos, InitializeServerPattern, Unparse(s));
    ExpectMeaning(vs, pos, InitializeServerPattern);
    Elements(vs, pos, Unparse(s));
  }

  lemma ListenRequestComplete(vs: seq<Value>, pos: nat, s: Stmt)
    requires s.ListenRequest?
    requires pos + |Unparse(s)| <= |vs| && vs[pos..pos + |Unparse(s)|] == Unparse(s)
    ensures StatementAt(vs, pos) == Ok(Parsed(s, pos + |Unparse(s)|))
  {
    assert vs[pos] == vs[pos..pos + |Unparse(s)|][0];
    ListenRequestValues(vs, pos, s);
  }

  lemma ListenRequestValues(vs: seq<Value>, pos: nat, s: Stmt)
    requires s.ListenRequest?
    requires pos + |Unparse(s)| <= |vs| && vs[pos..pos + |Unparse(s)|] == Unparse(s)
    ensures ListenRequestAt(vs, pos) == Ok(Parsed(s, pos + |Unparse(s)|))
  {
    MatchedValues(vs, pos, ListenRequestPattern, Unparse(s));
    ExpectMeaning(vs, pos, ListenRequestPattern);
    Elements(vs, pos, Unparse(s));
  }

  lemma RespondComplete(vs: seq<Value>, pos: nat, s: Stmt)
    requires s.Respond?
    requires pos + |Unparse(s)| <= |vs| && vs[pos..pos + |Unparse(s)|] == Unparse(s)
    ensures StatementAt(vs, pos) == Ok(Parsed(s, pos + |Unparse(s)|))
  {
    assert vs[pos] == vs[pos..pos + |Unparse(s)|][0];
    RespondValues(vs, pos, s);
  }

  lemma RespondValues(vs: seq<Value>, pos: nat, s: Stmt)
    requires s.Respond?
    requires pos + |Unparse(s)| <= |vs| && vs[pos..pos + |Unparse(s)|] == Unparse(s)
    ensures RespondAt(vs, pos) == Ok(Parsed(s, pos + |Unparse(s)|))
  {
    MatchedValues(vs, pos, RespondPattern, Unparse(s));
    ExpectMeaning(vs, pos, RespondPattern);
    Elements(vs, pos, Unparse(s));
  }

  /* Soundness and completeness are each proved by a mutual induction over
     statements and statement lists (CheckStatement, CheckSecure,
     CheckStatements; ReadStatement, ReadSecure, ReadStatements). The facts
     these lemmas pass to each other are `TokensShow(c, Hidden)` (the tokens
     are laid out as `c` says) and `ParserGives(c, Hidden)` (the parser
     reads what `c` says). The depth argument only counts unfoldings: at
     depth `Hidden` a fact takes two more unfoldings to reach its content,
     so inside the induction the solver sees only the facts themselves. The
     token-level reasoning stays in the small lemmas around it, which unfold
     (`Unfold`, `Open`) and fold back (`Fold`, `Close`) the facts they use. */

  /** Where the tokens of statements stand. */
  datatype Layout =
      /** The well-formed statement `s` is written at `pos`, up to `next`. */
    | Placed(vs: seq<Value>, pos: nat, s: Stmt, next: nat)
      /** `ss` is written at `pos`, one statement after another, up to
          `end`, where the input ends or the closing word `stop` stands. */
    | LaidOut(vs: seq<Value>, pos: nat, ss: seq<Stmt>, stop: Option<string>, end: nat)
      /** A SECURE statement starts at `pos`, its OTHERWISE stands at `mid`
          and its closing END at `end`. */
    | Frame(vs: seq<Value>, pos: nat, mid: nat, end: nat)

  /** What the parser reads. */
  datatype Reading =
      /** `parse_statement` at `pos` returns `s` and stops at `next`. */
    | Reads(vs: seq<Value>, pos: nat, s: Stmt, next: nat)
      /** The statement loop at `pos` returns `ss` and stops at `end`. */
    | ReadsAll(vs: seq<Value>, pos: nat, stop: Option<string>, ss: seq<Stmt>, end: nat)
      /** What `parse_statement` returns at `pos` reads back. */
    | StatementBack(vs: seq<Value>, pos: nat)
      /** What `parse_secure` returns at `pos` reads back. */
    | SecureBack(vs: seq<Value>, pos: nat)
      /** What the statement loop returns at `pos` reads back. */
    | ListBack(vs: seq<Value>, pos: nat, stop: Option<string>)
      /** The statement loop at `pos` reads one statement, up to `next`,
          before going on. */
    | Continues(vs: seq<Value>, pos: nat, stop: Option<string>, next: nat)
      /** The body of the SECURE statement at `pos` was read up to the
          OTHERWISE at `mid`. */
    | Opens(vs: seq<Value>, pos: nat, mid: nat)

  const Hidden: nat := 2

  predicate TokensShow(c: Layout, depth: nat)
    decreases if c.LaidOut? then |c.ss| else 0, depth
  {
    if depth > 0 then TokensShow(c, depth - 1)
    else match c
      case Placed(vs, pos, s, next) =>
        WellFormedStmt(s) && next == pos + |Unparse(s)| <= |vs| && vs[pos..next] == Unparse(s)
      case LaidOut(vs, pos, ss, stop, end) =>
        if ss == [] then pos == end <= |vs| && (end == |vs| || (stop.Some? && vs[end] == Str(stop.value)))
        else TokensShow(Placed(vs, pos, ss[0], pos + |Unparse(ss[0])|), Hidden)
             && TokensShow(LaidOut(vs, pos + |Unparse(ss[0])|, ss[1..], stop, end), Hidden)
      case Frame(vs, pos, mid, end) =>
        pos < mid < end < |vs| && vs[pos] == Str("SECURE") && vs[mid] == Str("OTHERWISE")
  }

  predicate ParserGives(c: Reading, depth: nat)
    decreases depth
  {
    if depth > 0 then ParserGives(c, depth - 1)
    else match c
      case Reads(vs, pos, s, next) =>
        pos <= |vs| && StatementAt(vs, pos) == Ok(Parsed(s, next))
      case ReadsAll(vs, pos, stop, ss, end) =>
        pos <= |vs| && StatementsUntil(vs, pos, stop) == Ok(Parsed(ss, end))
      case StatementBack(vs, pos) =>
        pos <= |vs| && ReadsBack(vs, pos, StatementAt(vs, pos))
      case SecureBack(vs, pos) =>
        pos <= |vs| && ReadsBack(vs, pos, SecureAt(vs, pos))
      case ListBack(vs, pos, stop) =>
        pos <= |vs| && ReadsBackAll(vs, pos, StatementsUntil(vs, pos, stop))
      case Continues(vs, pos, stop, next) =>
        pos < |vs| && !(stop.Some? && vs[pos] == Str(stop.value))
        && StatementAt(vs, pos).Ok? && StatementAt(vs, pos).value.next == next
      case Opens(vs, pos, mid) =>
        pos < |vs| && vs[pos] == Str("SECURE") && mid < |vs| && vs[mid] == Str("OTHERWISE")
        && StatementsUntil(vs, pos + 1, Some("OTHERWISE")).Ok?
        && StatementsUntil(vs, pos + 1, Some("OTHERWISE")).value.next == mid
  }

  lemma Unfold(c: Layout)
    requires TokensShow(c, Hidden)
    ensures TokensShow(c, 0)
  {
    assert TokensShow(c, 1);
  }

  lemma Fold(c: Layout)
    requires TokensShow(c, 0)
    ensures TokensShow(c, Hidden)
  {
    assert TokensShow(c, 1);
  }

  lemma Open(c: Reading)
    requires ParserGives(c, Hidden)
    ensures ParserGives(c, 0)
  {
    assert ParserGives(c, 1);
  }

  lemma Close(c: Reading)
    requires ParserGives(c, 0)
    ensures ParserGives(c, Hidden)
  {
    assert ParserGives(c, 1);
  }

  /** Soundness for one statement, on hidden claims. */
  lemma {:induction false} CheckStatement(vs: seq<Value>, pos: nat)
    requires pos <= |vs|
    ensures ParserGives(StatementBack(vs, pos), Hidden)
    decreases |vs| - pos, 1
  {
    if pos < |vs| && vs[pos] == Str("SECURE") {
      CheckSecure(vs, pos);
      SecureChecked(vs, pos);
    } else {
      FlatChecked(vs, pos);
    }
  }

  /** Soundness for SECURE: its two lists read back. */
  lemma {:induction false} CheckSecure(vs: seq<Value>, pos: nat)
    requires pos <= |vs|
    ensures ParserGives(SecureBack(vs, pos), Hidden)
    decreases |vs| - pos, 0
  {
    var ok, mid := SecureOpening(vs, pos);
    if ok {
      CheckStatements(vs, pos + 1, Some("OTHERWISE"));
      CheckStatements(vs, mid + 1, Some("END"));
      SecureAssembled(vs, pos, mid);
    }
  }

  /** Soundness for a statement list. */
  lemma {:induction false} CheckStatements(vs: seq<Value>, pos: nat, stop: Option<string>)
    requires pos <= |vs|
    ensures ParserGives(ListBack(vs, pos, stop), Hidden)
    decreases |vs| - pos, 2
  {
    var more, next := ListShape(vs, pos, stop);
    if more {
      CheckStatement(vs, pos);
      CheckStatements(vs, next, stop);
      ListAssembled(vs, pos, stop, next);
    }
  }

  /** Soundness for the statements other than SECURE. */
  lemma FlatChecked(vs: seq<Value>, pos: nat)
    requires pos <= |vs| && !(pos < |vs| && vs[pos] == Str("SECURE"))
    ensures ParserGives(StatementBack(vs, pos), Hidden)
  {
    if pos < |vs| {
      var v := vs[pos];
      if v == Str("ESTABLISH") {
        EstablishSound(vs, pos);
      } else if v == Str("TRANSMIT") {
        TransmitSound(vs, pos);
      } else if v == Str("CALCULATE") {
        CalculateSound(vs, pos);
      } else if v == Str("ALLOCATE") {
        AllocateSound(vs, pos);
      } else if v == Str("DEALLOCATE") {
        DeallocateSound(vs, pos);
      } else if v == Str("INITIALIZE") {
        InitializeServerSound(vs, pos);
      } else if v == Str("LISTEN") {
        ListenRequestSound(vs, pos);
      } else if v == Str("RESPOND") {
        RespondSound(vs, pos);
      }
    }
    Close(StatementBack(vs, pos));
  }

  /** `parse_statement` hands SECURE to `parse_secure`. */
  lemma SecureChecked(vs: seq<Value>, pos: nat)
    requires pos < |vs| && vs[pos] == Str("SECURE") && ParserGives(SecureBack(vs, pos), Hidden)
    ensures ParserGives(StatementBack(vs, pos), Hidden)
  {
    Open(SecureBack(vs, pos));
    assert StatementAt(vs, pos) == SecureAt(vs, pos);
    Close(StatementBack(vs, pos));
  }

  /** Either `parse_secure` fails before its otherwise list, or its body
      was read up to an OTHERWISE at `mid`. */
  lemma SecureOpening(vs: seq<Value>, pos: nat) returns (ok: bool, mid: nat)
    requires pos <= |vs|
    ensures ok ==> pos < mid < |vs| && ParserGives(Opens(vs, pos, mid), Hidden)
    ensures !ok ==> ParserGives(SecureBack(vs, pos), Hidden)
  {
    if pos < |vs| && vs[pos] == Str("SECURE") && StatementsUntil(vs, pos + 1, Some("OTHERWISE")).Ok?
       && StatementsUntil(vs, pos + 1, Some("OTHERWISE")).value.next < |vs|
       && vs[StatementsUntil(vs, pos + 1, Some("OTHERWISE")).value.next] == Str("OTHERWISE")
    {
      ok, mid := true, StatementsUntil(vs, pos + 1, Some("OTHERWISE")).value.next;
      Close(Opens(vs, pos, mid));
    } else {
      ok, mid := false, 0;
      assert SecureAt(vs, pos).Err?;
      Close(SecureBack(vs, pos));
    }
  }

  /** A SECURE statement whose two lists read back reads back. */
  lemma SecureAssembled(vs: seq<Value>, pos: nat, mid: nat)
    requires pos < mid < |vs| && ParserGives(Opens(vs, pos, mid), Hidden)
    requires ParserGives(ListBack(vs, pos + 1, Some("OTHERWISE")), Hidden)
    requires ParserGives(ListBack(vs, mid + 1, Some("END")), Hidden)
    ensures ParserGives(SecureBack(vs, pos), Hidden)
  {
    Open(Opens(vs, pos, mid));
    Open(ListBack(vs, pos + 1, Some("OTHERWISE")));
    Open(ListBack(vs, mid + 1, Some("END")));
    var body := StatementsUntil(vs, pos + 1, Some("OTHERWISE")).value.node;
    assert SecureAt(vs, pos) == OtherwiseAt(vs, mid, body);
    OtherwiseReadsBack(vs, pos, mid, body);
    Close(SecureBack(vs, pos));
  }

  /** Once the body of a SECURE statement has been read back, the whole
      statement reads back. */
  lemma OtherwiseReadsBack(vs: seq<Value>, pos: nat, mid: nat, body: seq<Stmt>)
    requires pos < mid < |vs| && vs[pos] == Str("SECURE") && vs[mid] == Str("OTHERWISE")
    requires vs[pos + 1..mid] == UnparseAll(body) && WellFormedStmts(body)
    requires ReadsBackAll(vs, mid + 1, StatementsUntil(vs, mid + 1, Some("END")))
    ensures ReadsBack(vs, pos, OtherwiseAt(vs, mid, body))
  {
    var r := OtherwiseAt(vs, mid, body);
    if r.Ok? {
      var otherwise := StatementsUntil(vs, mid + 1, Some("END")).value;
      var o := otherwise.next;
      SecureSlices(vs, pos, pos + 1, mid, mid + 1, o, o + 1, UnparseAll(body), UnparseAll(otherwise.node));
    }
  }

  /** Either the statement loop at `pos` returns without reading a
      statement, or it reads one up to `next` and goes on from there. */
  lemma ListShape(vs: seq<Value>, pos: nat, stop: Option<string>) returns (more: bool, next: nat)
    requires pos <= |vs|
    ensures more ==> pos < next <= |vs| && ParserGives(Continues(vs, pos, stop, next), Hidden)
    ensures !more ==> ParserGives(ListBack(vs, pos, stop), Hidden)
  {
    if pos < |vs| && !(stop.Some? && vs[pos] == Str(stop.value)) && StatementAt(vs, pos).Ok? {
      more, next := true, StatementAt(vs, pos).value.next;
      Close(Continues(vs, pos, stop, next));
    } else {
      more, next := false, pos;
      Close(ListBack(vs, pos, stop));
    }
  }

  /** A statement that reads back followed by a list that reads back. */
  lemma ListAssembled(vs: seq<Value>, pos: nat, stop: Option<string>, next: nat)
    requires next <= |vs| && ParserGives(Continues(vs, pos, stop, next), Hidden)
    requires ParserGives(StatementBack(vs, pos), Hidden) && ParserGives(ListBack(vs, next, stop), Hidden)
    ensures ParserGives(ListBack(vs, pos, stop), Hidden)
  {
    Open(Continues(vs, pos, stop, next));
    Open(StatementBack(vs, pos));
    Open(ListBack(vs, next, stop));
    var r := StatementsUntil(vs, pos, stop);
    var first := StatementAt(vs, pos).value;
    if r.Ok? {
      var rest := StatementsUntil(vs, next, stop).value;
      SliceSplit(vs, pos, next, rest.next);
      var ss := [first.node] + rest.node;
      assert ss[0] == first.node && ss[1..] == rest.node;
      assert r.value == Parsed(ss, rest.next);
    }
    Close(ListBack(vs, pos, stop));
  }

  /** Completeness for the statements other than SECURE. */
  lemma FlatComplete(vs: seq<Value>, pos: nat, s: Stmt, next: nat)
    requires !s.Secure? && TokensShow(Placed(vs, pos, s, next), Hidden)
    ensures ParserGives(Reads(vs, pos, s, next), Hidden)
  {
    Unfold(Placed(vs, pos, s, next));
    match s
    case Establish(_, _, _, _) => EstablishComplete(vs, pos, s);
    case Transmit(_) => TransmitComplete(vs, pos, s);
    case Calculate(_, _, _, _) => CalculateComplete(vs, pos, s);
    case Allocate => AllocateComplete(vs, pos);
    case Deallocate => DeallocateComplete(vs, pos);
    case InitializeServer(_) => InitializeServerComplete(vs, pos, s);
    case ListenRequest(_) => ListenRequestComplete(vs, pos, s);
    case Respond(_) => RespondComplete(vs, pos, s);
    Close(Reads(vs, pos, s, next));
  }

  /** Where OTHERWISE and the closing END of a SECURE statement stand. */
  lemma SecureSplit(vs: seq<Value>, pos: nat, s: Stmt, next: nat) returns (mid: nat, end: nat)
    requires s.Secure? && TokensShow(Placed(vs, pos, s, next), Hidden)
    ensures pos < mid < end < |vs| && end + 1 == next && TokensShow(Frame(vs, pos, mid, end), Hidden)
    ensures TokensShow(LaidOut(vs, pos + 1, s.body, Some("OTHERWISE"), mid), Hidden)
    ensures TokensShow(LaidOut(vs, mid + 1, s.otherwise, Some("END"), end), Hidden)
  {
    Unfold(Placed(vs, pos, s, next));
    var b := UnparseAll(s.body);
    var o := UnparseAll(s.otherwise);
    assert Unparse(s) == [Str("SECURE")] + b + [Str("OTHERWISE")] + o + [Str("END")];
    SecurePieces(vs, pos, b, o);
    mid := pos + 1 + |b|;
    end := mid + 1 + |o|;
    Fold(Frame(vs, pos, mid, end));
    SliceLaidOut(vs, pos + 1, s.body, Some("OTHERWISE"), mid);
    SliceLaidOut(vs, mid + 1, s.otherwise, Some("END"), end);
  }

  /** Completeness for one statement, on hidden claims. */
  lemma {:induction false} ReadStatement(vs: seq<Value>, pos: nat, s: Stmt, next: nat)
    requires TokensShow(Placed(vs, pos, s, next), Hidden)
    ensures ParserGives(Reads(vs, pos, s, next), Hidden)
    decreases |vs| - pos, 2
  {
    if s.Secure? {
      var mid, end := SecureSplit(vs, pos, s, next);
      ReadSecure(vs, pos, mid, end, s.body, s.otherwise);
    } else {
      FlatComplete(vs, pos, s, next);
    }
  }

  /** Completeness for SECURE: both statement lists are read whole. */
  lemma {:induction false} ReadSecure(vs: seq<Value>, pos: nat, mid: nat, end: nat, body: seq<Stmt>, otherwise: seq<Stmt>)
    requires pos < mid < end < |vs| && TokensShow(Frame(vs, pos, mid, end), Hidden)
    requires TokensShow(LaidOut(vs, pos + 1, body, Some("OTHERWISE"), mid), Hidden)
    requires TokensShow(LaidOut(vs, mid + 1, otherwise, Some("END"), end), Hidden)
    ensures ParserGives(Reads(vs, pos, Secure(body, otherwise), end + 1), Hidden)
    decreases |vs| - pos, 1
  {
    ReadStatements(vs, pos + 1, body, Some("OTHERWISE"), mid);
    ReadStatements(vs, mid + 1, otherwise, Some("END"), end);
    SecureJoin(vs, pos, mid, end, body, otherwise);
  }

  /** `parse_secure` puts the two lists it read into one node. */
  lemma SecureJoin(vs: seq<Value>, pos: nat, mid: nat, end: nat, body: seq<Stmt>, otherwise: seq<Stmt>)
    requires TokensShow(Frame(vs, pos, mid, end), Hidden)
    requires ParserGives(ReadsAll(vs, pos + 1, Some("OTHERWISE"), body, mid), Hidden)
    requires ParserGives(ReadsAll(vs, mid + 1, Some("END"), otherwise, end), Hidden)
    ensures ParserGives(Reads(vs, pos, Secure(body, otherwise), end + 1), Hidden)
  {
    Unfold(Frame(vs, pos, mid, end));
    Open(ReadsAll(vs, pos + 1, Some("OTHERWISE"), body, mid));
    Open(ReadsAll(vs, mid + 1, Some("END"), otherwise, end));
    assert SecureAt(vs, pos) == OtherwiseAt(vs, mid, body);
    assert OtherwiseAt(vs, mid, body) == Ok(Parsed(Secure(body, otherwise), end + 1));
    Close(Reads(vs, pos, Secure(body, otherwise), end + 1));
  }

  /** Completeness for a statement list ending at the end of the input or
      at a closing word, on hidden claims. */
  lemma {:induction false} ReadStatements(vs: seq<Value>, pos: nat, ss: seq<Stmt>, stop: Option<string>, end: nat)
    requires (stop.None? || ClosesList(stop.value)) && TokensShow(LaidOut(vs, pos, ss, stop, end), Hidden)
    ensures ParserGives(ReadsAll(vs, pos, stop, ss, end), Hidden)
    decreases |vs| - pos, 4
  {
    if ss == [] {
      StatementsNil(vs, pos, stop, end);
    } else {
      var next := LaidOutStep(vs, pos, ss, stop, end);
      ReadStatement(vs, pos, ss[0], next);
      ReadStatements(vs, next, ss[1..], stop, end);
      StatementsCons(vs, pos, next, end, stop, ss);
    }
  }

  /** The first statement of a laid-out list, and the rest. */
  lemma LaidOutStep(vs: seq<Value>, pos: nat, ss: seq<Stmt>, stop: Option<string>, end: nat) returns (next: nat)
    requires ss != [] && TokensShow(LaidOut(vs, pos, ss, stop, end), Hidden)
    ensures pos < next <= |vs|
    ensures TokensShow(Placed(vs, pos, ss[0], next), Hidden) && TokensShow(LaidOut(vs, next, ss[1..], stop, end), Hidden)
  {
    Unfold(LaidOut(vs, pos, ss, stop, end));
    next := pos + |Unparse(ss[0])|;
    Unfold(Placed(vs, pos, ss[0], next));
  }

  lemma StatementsNil(vs: seq<Value>, pos: nat, stop: Option<string>, end: nat)
    requires TokensShow(LaidOut(vs, pos, [], stop, end), Hidden)
    ensures ParserGives(ReadsAll(vs, pos, stop, [], end), Hidden)
  {
    Unfold(LaidOut(vs, pos, [], stop, end));
    Close(ReadsAll(vs, pos, stop, [], end));
  }

  /** A statement followed by a list read to `end` is a longer list. */
  lemma StatementsCons(vs: seq<Value>, pos: nat, next: nat, end: nat, stop: Option<string>, ss: seq<Stmt>)
    requires ss != [] && (stop.None? || ClosesList(stop.value))
    requires ParserGives(Reads(vs, pos, ss[0], next), Hidden) && ParserGives(ReadsAll(vs, next, stop, ss[1..], end), Hidden)
    ensures ParserGives(ReadsAll(vs, pos, stop, ss, end), Hidden)
  {
    Open(Reads(vs, pos, ss[0], next));
    Open(ReadsAll(vs, next, stop, ss[1..], end));
    StatementKeyword(vs, pos);
    if stop.Some? {
      ClosersStartNothing(stop.value);
    }
    StatementsStep(vs, pos, stop);
    assert [ss[0]] + ss[1..] == ss;
    Close(ReadsAll(vs, pos, stop, ss, end));
  }

  /** Only a statement keyword starts a statement. */
  lemma StatementKeyword(vs: seq<Value>, pos: nat)
    requires pos <= |vs|
    ensures StatementAt(vs, pos).Ok? ==> pos < |vs| && vs[pos].Str? && IsStatementKeyword(vs[pos].s)
  {
  }

  /** The words that close a statement list inside SECURE. */
  predicate ClosesList(w: string) {
    w == "OTHERWISE" || w == "END"
  }

  lemma ClosersStartNothing(w: string)
    requires ClosesList(w)
    ensures !IsStatementKeyword(w)
  {
  }

  /** A list written out in one piece is laid out statement by statement. */
  lemma {:induction false} SliceLaidOut(vs: seq<Value>, pos: nat, ss: seq<Stmt>, stop: Option<string>, end: nat)
    requires WellFormedStmts(ss)
    requires end == pos + |UnparseAll(ss)| <= |vs| && vs[pos..end] == UnparseAll(ss)
    requires end == |vs| || (stop.Some? && vs[end] == Str(stop.value))
    ensures TokensShow(LaidOut(vs, pos, ss, stop, end), Hidden)
    decreases ss
  {
    if ss != [] {
      var next := pos + |Unparse(ss[0])|;
      SplitSlice(vs, pos, end, Unparse(ss[0]), UnparseAll(ss[1..]));
      Fold(Placed(vs, pos, ss[0], next));
      SliceLaidOut(vs, next, ss[1..], stop, end);
    }
    Fold(LaidOut(vs, pos, ss, stop, end));
  }

  /** Completeness for one statement: wherever the tokens of a well-formed
      statement stand, the parser reads exactly that statement and stops
      right after it, whatever follows. */
  lemma StatementComplete(vs: seq<Value>, pos: nat, s: Stmt)
    requires WellFormedStmt(s)
    requires pos + |Unparse(s)| <= |vs| && vs[pos..pos + |Unparse(s)|] == Unparse(s)
    ensures StatementAt(vs, pos) == Ok(Parsed(s, pos + |Unparse(s)|))
  {
    var next := pos + |Unparse(s)|;
    Fold(Placed(vs, pos, s, next));
    ReadStatement(vs, pos, s, next);
    Open(Reads(vs, pos, s, next));
  }

  /** `parse` accepts exactly the token values of well-formed programs, and
      returns the program they were written from. */
  lemma ProgramCharacterization(vs: seq<Value>, prog: seq<Stmt>)
    ensures Program(vs) == Ok(prog) <==> vs == UnparseAll(prog) && WellFormedStmts(prog)
  {
    ProgramSound(vs);
    if vs == UnparseAll(prog) && WellFormedStmts(prog) {
      assert vs[0..|vs|] == vs;
      SliceLaidOut(vs, 0, prog, None, |vs|);
      ReadStatements(vs, 0, prog, None, |vs|);
      Open(ReadsAll(vs, 0, None, prog, |vs|));
    }
  }

  /** No well-formed statement's tokens begin with another's: the statement
      a token sequence starts with is determined by it. */
  lemma UnparsePrefixFree(a: Stmt, b: Stmt)
    requires WellFormedStmt(a) && WellFormedStmt(b)
    requires |Unparse(a)| <= |Unparse(b)| && Unparse(b)[..|Unparse(a)|] == Unparse(a)
    ensures a == b
  {
    var vs := Unparse(b);
    assert vs[0..|Unparse(a)|] == Unparse(a);
    StatementComplete(vs, 0, a);
    assert vs[0..|vs|] == vs;
    StatementComplete(vs, 0, b);
  }

  /** A statement whose tokens run out before its end fails to parse: in
      particular a SECURE block with its closing END (or more) missing. */
  lemma TruncatedStatementFails(s: Stmt, k: nat)
    requires WellFormedStmt(s) && k < |Unparse(s)|
    ensures StatementAt(Unparse(s)[..k], 0).Err?
  {
    var vs := Unparse(s);
    var cut := vs[..k];
    var r := StatementAt(cut, 0);
    if r.Ok? {
      StatementSound(cut, 0);
      var m := r.value.next;
      assert vs[0..m] == cut[0..m];
      StatementComplete(vs, 0, r.value.node);
      assert vs[0..|vs|] == vs;
      StatementComplete(vs, 0, s);
      assert false;
    }
  }

  /** As a whole program: the tokens of a statement cut strictly inside
      them (neither at the start, which leaves the empty program, nor at
      the end) do not parse. */
  lemma TruncatedProgramFails(s: Stmt, k: nat)
    requires WellFormedStmt(s) && 0 < k < |Unparse(s)|
    ensures Program(Unparse(s)[..k]).Err?
  {
    TruncatedStatementFails(s, k);
  }
}
