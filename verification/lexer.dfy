/** The E# scanner (esharp.py:12-59): a specification `Lex` over the
    unscanned suffix of the text, the position-driven `Lexer` class proved
    against it, and the properties of `Lex` that the scanner promises. */
module Lexing {
  import opened Values
  import opened Tokens

  /** The character classes the scanner's inner loops run over. */
  datatype Class = WordChars | Digits | LineChars | StringChars

  predicate InClass(c: char, cl: Class) {
    match cl
    case WordChars => IsWordChar(c)
    case Digits => IsDigit(c)
    case LineChars => NotNewline(c)
    case StringChars => NotQuote(c)
  }

  /** Length of the longest prefix of `s` whose characters all belong to `cl`:
      where one of the scanner's inner loops stops. */
  function RunLength(s: string, cl: Class): (n: nat)
    ensures n <= |s|
    ensures forall k :: 0 <= k < n ==> InClass(s[k], cl)
    ensures n < |s| ==> !InClass(s[n], cl)
  {
    if s != [] && InClass(s[0], cl) then 1 + RunLength(s[1..], cl) else 0
  }

  /** The first character outside `cl` determines the run length. */
  lemma RunLengthExact(s: string, cl: Class, n: nat)
    requires n <= |s|
    requires forall k :: 0 <= k < n ==> InClass(s[k], cl)
    requires n < |s| ==> !InClass(s[n], cl)
    ensures RunLength(s, cl) == n
  {
  }

  lemma RunLengthOfPrefix(a: string, b: string, cl: Class)
    requires forall k :: 0 <= k < |a| ==> InClass(a[k], cl)
    requires b == [] || !InClass(b[0], cl)
    ensures RunLength(a + b, cl) == |a|
  {
    var s := a + b;
    assert forall k :: 0 <= k < |a| ==> s[k] == a[k];
    assert |a| < |s| ==> s[|a|] == b[0];
    RunLengthExact(s, cl, |a|);
  }

  /** The text from index `k` on; empty when `k` lies past the end. */
  function Skip(s: string, k: nat): (r: string)
    ensures |r| <= |s|
    ensures k <= |s| ==> r == s[k..]
    ensures k > |s| ==> r == []
  {
    if k <= |s| then s[k..] else []
  }

  lemma SkipFrom(s: string, i: nat, k: nat)
    requires i <= |s|
    ensures Skip(s[i..], k) == Skip(s, i + k)
  {
    if i + k <= |s| {
      assert s[i..][k..] == s[i + k..];
    }
  }

  /** The tokens of a text, scanning from its first character (esharp.py:25-59).
      At each position, in order: whitespace is skipped; `#` skips to the end of
      the line; a letter starts a maximal word; a digit starts a maximal digit
      run; `"` starts a string that ends at the next `"` or at the end of the
      text; any other character is dropped. */
  function Lex(s: string): (r: seq<Token>)
    decreases |s|
  {
    if s == [] then []
    else if IsSpace(s[0]) then Lex(s[1..])
    else if s[0] == '#' then Lex(s[RunLength(s, LineChars)..])
    else if IsAlpha(s[0]) then
      var n := RunLength(s, WordChars);
      [WordToken(s[..n])] + Lex(s[n..])
    else if IsDigit(s[0]) then
      var n := RunLength(s, Digits);
      [Token(IntegerLiteral, Int(DecimalValue(s[..n])))] + Lex(s[n..])
    else if s[0] == '"' then
      var n := RunLength(s[1..], StringChars);
      [Token(StringLiteral, Str(s[1..1 + n]))] + Lex(Skip(s, n + 2))
    else Lex(s[1..])
  }

  // One step of Lex at position `p` of a text, for each case of the scanner:
  // the run found by an inner loop, from `p` (or `p + 1`) to `q`, determines
  // the tokens emitted and where scanning resumes.

  /** `text[p..q]` is a maximal run of characters in `cl`. */
  predicate MaximalRun(text: string, p: nat, q: nat, cl: Class) {
    p <= q <= |text| && (forall k :: p <= k < q ==> InClass(text[k], cl)) && (q < |text| ==> !InClass(text[q], cl))
  }

  /** A maximal run splits the text at `p` into the run and the rest. */
  lemma RunSplit(text: string, p: nat, q: nat, cl: Class)
    requires MaximalRun(text, p, q, cl)
    ensures RunLength(text[p..], cl) == q - p
    ensures text[p..][..RunLength(text[p..], cl)] == text[p..q]
    ensures text[p..][RunLength(text[p..], cl)..] == Skip(text, q)
  {
    var s := text[p..];
    assert forall k :: 0 <= k < q - p ==> s[k] == text[p + k];
    RunLengthExact(s, cl, q - p);
  }

  lemma LexSkippedAt(text: string, p: nat, resume: nat)
    requires p < |text| && resume == p + 1
    requires IsSpace(text[p]) || (text[p] != '#' && !IsAlpha(text[p]) && !IsDigit(text[p]) && text[p] != '"')
    ensures Lex(Skip(text, p)) == Lex(Skip(text, resume))
  {
    assert text[p..][1..] == Skip(text, resume);
  }

  lemma LexCommentAt(text: string, p: nat, q: nat)
    requires p < |text| && text[p] == '#' && MaximalRun(text, p, q, LineChars)
    ensures Lex(Skip(text, p)) == Lex(Skip(text, q))
  {
    LexAtComment(text[p..]);
    RunSplit(text, p, q, LineChars);
  }

  lemma LexWordAt(text: string, p: nat, q: nat)
    requires p < |text| && IsAlpha(text[p]) && MaximalRun(text, p, q, WordChars)
    ensures Lex(Skip(text, p)) == [WordToken(text[p..q])] + Lex(Skip(text, q))
  {
    LexAtWord(text[p..]);
    RunSplit(text, p, q, WordChars);
  }

  lemma LexDigitsAt(text: string, p: nat, q: nat)
    requires p < |text| && IsDigit(text[p]) && MaximalRun(text, p, q, Digits)
    ensures Lex(Skip(text, p)) == [Token(IntegerLiteral, Int(DecimalValue(text[p..q])))] + Lex(Skip(text, q))
  {
    LexAtDigits(text[p..]);
    RunSplit(text, p, q, Digits);
  }

  /** The string runs from `p + 1` to `q`; scanning resumes past the closing
      quote, which is one past the end of the text when there is none. */
  lemma LexQuoteAt(text: string, p: nat, q: nat, resume: nat)
    requires p < |text| && text[p] == '"' && MaximalRun(text, p + 1, q, StringChars)
    requires resume == q + 1
    ensures Lex(Skip(text, p)) == [Token(StringLiteral, Str(text[p + 1..q]))] + Lex(Skip(text, resume))
  {
    LexAtQuote(text[p..]);
    QuoteSplit(text, p, q, resume);
  }

  lemma QuoteSplit(text: string, p: nat, q: nat, resume: nat)
    requires p < |text| && MaximalRun(text, p + 1, q, StringChars) && resume == q + 1
    ensures var s := text[p..]; var n := RunLength(s[1..], StringChars);
      s[1..1 + n] == text[p + 1..q] && Skip(s, n + 2) == Skip(text, resume)
  {
    var s := text[p..];
    assert s[1..] == text[p + 1..];
    RunSplit(text, p + 1, q, StringChars);
    SkipFrom(text, p, q - p + 1);
  }

  // The same steps of Lex, on the unscanned text itself.

  lemma LexAtComment(s: string)
    requires s != [] && s[0] == '#'
    ensures Lex(s) == Lex(s[RunLength(s, LineChars)..])
  {
  }

  lemma LexAtWord(s: string)
    requires s != [] && IsAlpha(s[0])
    ensures Lex(s) == [WordToken(s[..RunLength(s, WordChars)])] + Lex(s[RunLength(s, WordChars)..])
  {
  }

  lemma LexAtDigits(s: string)
    requires s != [] && IsDigit(s[0])
    ensures Lex(s) == [Token(IntegerLiteral, Int(DecimalValue(s[..RunLength(s, Digits)])))] + Lex(s[RunLength(s, Digits)..])
  {
  }

  lemma LexAtQuote(s: string)
    requires s != [] && s[0] == '"'
    ensures var n := RunLength(s[1..], StringChars);
      Lex(s) == [Token(StringLiteral, Str(s[1..1 + n]))] + Lex(Skip(s, n + 2))
  {
  }

  /** The scanner's state: the text, the position and the tokens so far. */
  class Lexer {
    const text: string
    var pos: nat
    var tokens: seq<Token>

    /** `pos` never lies more than one past the end of the text. */
    ghost predicate Valid()
      reads this
    {
      pos <= |text| + 1
    }

    constructor (text: string)
      ensures Valid() && this.text == text && pos == 0 && tokens == []
    {
      this.text := text;
      pos := 0;
      tokens := [];
    }

    /** The part of the text not yet scanned; `pos` may lie one past the end
        after a string literal with no closing quote. */
    function Rest(): string
      reads this`pos
    {
      Skip(text, pos)
    }

    /** One of the scanner's inner loops: advances `pos` over the longest run
        of characters in `cl` and returns that run. */
    method ScanRun(cl: Class) returns (run: string)
      requires pos <= |text|
      modifies this`pos
      ensures MaximalRun(text, old(pos), pos, cl)
      ensures run == text[old(pos)..pos]
    {
      run := "";
      while pos < |text| && InClass(text[pos], cl)
        invariant old(pos) <= pos <= |text|
        invariant run == text[old(pos)..pos]
        invariant forall k :: old(pos) <= k < pos ==> InClass(text[k], cl)
      {
        run := run + [text[pos]];
        pos := pos + 1;
      }
    }

    /** Skips a comment: from the `#` at `pos` up to the next newline. */
    method SkipComment()
      requires Valid() && pos < |text| && text[pos] == '#'
      modifies this`pos
      ensures Valid() && pos > old(pos)
      ensures MaximalRun(text, old(pos), pos, LineChars)
      ensures Lex(Skip(text, old(pos))) == Lex(Skip(text, pos))
    {
      ghost var p := pos;
      var _ := ScanRun(LineChars);
      LexCommentAt(text, p, pos);
    }

    /** Scans the word starting at `pos` and emits it as a keyword or an identifier. */
    method ScanWord() returns (ghost emitted: seq<Token>)
      requires Valid() && pos < |text| && IsAlpha(text[pos])
      modifies this
      ensures Valid() && pos > old(pos)
      ensures MaximalRun(text, old(pos), pos, WordChars)
      ensures emitted == [WordToken(text[old(pos)..pos])]
      ensures tokens == old(tokens) + emitted
      ensures Lex(Skip(text, old(pos))) == emitted + Lex(Skip(text, pos))
    {
      ghost var p := pos;
      var word := ScanRun(WordChars);
      if IsKeyword(word) {
        tokens := tokens + [Token(Keyword, Str(word))];
      } else {
        tokens := tokens + [Token(Identifier, Str(word))];
      }
      emitted := [WordToken(word)];
      LexWordAt(text, p, pos);
    }

    /** Scans the digit run starting at `pos` and emits its decimal value. */
    method ScanNumber() returns (ghost emitted: seq<Token>)
      requires Valid() && pos < |text| && IsDigit(text[pos])
      modifies this
      ensures Valid() && pos > old(pos)
      ensures MaximalRun(text, old(pos), pos, Digits)
      ensures emitted == [Token(IntegerLiteral, Int(DecimalValue(text[old(pos)..pos])))]
      ensures tokens == old(tokens) + emitted
      ensures Lex(Skip(text, old(pos))) == emitted + Lex(Skip(text, pos))
    {
      ghost var p := pos;
      var num := ScanRun(Digits);
      tokens := tokens + [Token(IntegerLiteral, Int(DecimalValue(num)))];
      emitted := [Token(IntegerLiteral, Int(DecimalValue(num)))];
      LexDigitsAt(text, p, pos);
    }

    /** Scans the string literal whose opening quote is at `pos`; `pos` ends
        just past the closing quote, or one past the end of the text. */
    method ScanString() returns (ghost emitted: seq<Token>)
      requires Valid() && pos < |text| && text[pos] == '"'
      modifies this
      ensures Valid() && old(pos) + 2 <= pos
      ensures MaximalRun(text, old(pos) + 1, pos - 1, StringChars)
      ensures emitted == [Token(StringLiteral, Str(text[old(pos) + 1..pos - 1]))]
      ensures tokens == old(tokens) + emitted
      ensures Lex(Skip(text, old(pos))) == emitted + Lex(Skip(text, pos))
    {
      ghost var p := pos;
      pos := pos + 1;
      var str := ScanRun(StringChars);
      ghost var q := pos;
      pos := pos + 1;
      tokens := tokens + [Token(StringLiteral, Str(str))];
      emitted := [Token(StringLiteral, Str(str))];
      LexQuoteAt(text, p, q, pos);
    }

    /** One pass of the scanner's loop: dispatches on the character at
        `pos` and moves past whatever it starts. */
    method ScanToken() returns (ghost emitted: seq<Token>)
      requires Valid() && pos < |text|
      modifies this
      ensures Valid() && pos > old(pos)
      ensures tokens == old(tokens) + emitted
      ensures Lex(Skip(text, old(pos))) == emitted + Lex(Skip(text, pos))
    {
      var c := text[pos];
      ghost var p := pos;
      emitted := [];
      if IsSpace(c) {
        pos := pos + 1;
        LexSkippedAt(text, p, pos);
      } else if c == '#' {
        SkipComment();
      } else if IsAlpha(c) {
        emitted := ScanWord();
      } else if IsDigit(c) {
        emitted := ScanNumber();
      } else if c == '"' {
        emitted := ScanString();
      } else {
        pos := pos + 1;
        LexSkippedAt(text, p, pos);
      }
    }

    /** Scans from `pos` to the end, appending the tokens of the rest of the
        text; every pass of the loop moves `pos` forward. */
    method Tokenize() returns (r: seq<Token>)
      requires Valid()
      modifies this
      ensures Valid()
      ensures tokens == old(tokens) + Lex(old(Rest()))
      ensures r == tokens
      ensures pos >= |text|
    {
      ghost var all := tokens + Lex(Skip(text, pos));
      while pos < |text|
        invariant Valid()
        invariant tokens + Lex(Skip(text, pos)) == all
        decreases |text| + 1 - pos
      {
        ghost var before := tokens;
        ghost var emitted := ScanToken();
        assert tokens + Lex(Skip(text, pos)) == before + (emitted + Lex(Skip(text, pos)));
      }
      r := tokens;
    }
  }

  // Properties of Lex, each stated on a text built from its parts.

  /** Every token the scanner emits is well formed: words are maximal runs
      starting with a letter, classified by the vocabulary; integer literals
      are non-negative; string literals contain no quote. */
  lemma {:induction false} LexWellFormed(s: string)
    ensures forall k :: 0 <= k < |Lex(s)| ==> WellFormed(Lex(s)[k])
    decreases |s|
  {
    if s == [] {
    } else if IsSpace(s[0]) {
      LexWellFormed(s[1..]);
    } else if s[0] == '#' {
      LexWellFormed(s[RunLength(s, LineChars)..]);
    } else if IsAlpha(s[0]) {
      var n := RunLength(s, WordChars);
      LexWellFormed(s[n..]);
      assert IsWord(s[..n]);
    } else if IsDigit(s[0]) {
      var n := RunLength(s, Digits);
      LexWellFormed(s[n..]);
    } else if s[0] == '"' {
      var n := RunLength(s[1..], StringChars);
      LexWellFormed(Skip(s, n + 2));
      assert QuoteFree(s[1..1 + n]);
    } else {
      LexWellFormed(s[1..]);
    }
  }

  /** A word becomes one token whose value is the whole maximal run; it is a
      KEYWORD exactly when it is in the vocabulary. */
  lemma LexWord(w: string, rest: string)
    requires IsWord(w)
    requires rest == [] || !IsWordChar(rest[0])
    ensures Lex(w + rest) == [WordToken(w)] + Lex(rest)
    ensures Lex(w + rest)[0].kind == Keyword <==> IsKeyword(w)
  {
    RunLengthOfPrefix(w, rest, WordChars);
    assert (w + rest)[..|w|] == w && (w + rest)[|w|..] == rest;
  }

  /** A maximal digit run becomes one integer literal holding its decimal value. */
  lemma LexInteger(d: string, rest: string)
    requires IsDigits(d)
    requires rest == [] || !IsDigit(rest[0])
    ensures Lex(d + rest) == [Token(IntegerLiteral, Int(DecimalValue(d)))] + Lex(rest)
  {
    RunLengthOfPrefix(d, rest, Digits);
    assert (d + rest)[..|d|] == d && (d + rest)[|d|..] == rest;
  }

  /** A quoted string becomes one string literal holding exactly the text
      between the quotes, with no escape processing. */
  lemma LexString(body: string, rest: string)
    requires QuoteFree(body)
    ensures Lex(['"'] + body + ['"'] + rest) == [Token(StringLiteral, Str(body))] + Lex(rest)
  {
    var s := ['"'] + body + ['"'] + rest;
    assert s[1..] == body + (['"'] + rest);
    RunLengthOfPrefix(body, ['"'] + rest, StringChars);
    assert s[1..1 + |body|] == body;
    assert s[|body| + 2..] == rest;
  }

  /** A string with no closing quote runs to the end of the text. */
  lemma LexUnterminatedString(body: string)
    requires QuoteFree(body)
    ensures Lex(['"'] + body) == [Token(StringLiteral, Str(body))]
  {
    var s := ['"'] + body;
    assert s[1..] == body + [];
    RunLengthOfPrefix(body, [], StringChars);
    assert s[1..1 + |body|] == body;
  }

  /** A comment emits no token; scanning resumes at the newline ending it. */
  lemma LexComment(c: string, rest: string)
    requires forall k :: 0 <= k < |c| ==> NotNewline(c[k])
    requires rest == [] || rest[0] == '\n'
    ensures Lex(['#'] + c + rest) == Lex(rest)
  {
    var s := ['#'] + c + rest;
    RunLengthOfPrefix(['#'] + c, rest, LineChars);
    assert s[|c| + 1..] == rest;
  }

  /** A character that starts nothing is dropped without a token. */
  lemma LexOther(c: char, rest: string)
    requires !IsSpace(c) && c != '#' && !IsAlpha(c) && !IsDigit(c) && c != '"'
    ensures Lex([c] + rest) == Lex(rest)
  {
    assert ([c] + rest)[1..] == rest;
  }

  /** Scanning a printed well-formed token followed by a space gives back the token. */
  lemma LexRender(t: Token, rest: string)
    requires WellFormed(t)
    ensures Lex(Render(t) + [' '] + rest) == [t] + Lex(rest)
  {
    var tail := [' '] + rest;
    assert Lex(tail) == Lex(rest) by {
      assert tail[1..] == rest;
    }
    match t.kind
    case Keyword =>
      assert Render(t) + [' '] + rest == t.value.s + tail;
      LexWord(t.value.s, tail);
    case Identifier =>
      assert Render(t) + [' '] + rest == t.value.s + tail;
      LexWord(t.value.s, tail);
    case IntegerLiteral =>
      assert Render(t) + [' '] + rest == ShowNat(t.value.i) + tail;
      LexInteger(ShowNat(t.value.i), tail);
      DecimalShowNat(t.value.i);
    case StringLiteral =>
      assert Render(t) + [' '] + rest == ['"'] + t.value.s + ['"'] + tail;
      LexString(t.value.s, tail);
  }

  /** Printing then scanning is the identity on token sequences the scanner
      can produce; together with Lex's own postcondition this makes RenderAll
      a right inverse of Lex. */
  lemma {:induction false} LexRenderAll(ts: seq<Token>)
    requires forall k :: 0 <= k < |ts| ==> WellFormed(ts[k])
    ensures Lex(RenderAll(ts)) == ts
  {
    if ts != [] {
      LexRenderAll(ts[1..]);
      LexRender(ts[0], RenderAll(ts[1..]));
      assert RenderAll(ts) == Render(ts[0]) + [' '] + RenderAll(ts[1..]);
    }
  }
}
