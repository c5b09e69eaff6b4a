/** Tokens of the E# language: their kinds, the fixed keyword vocabulary, the
    character classes the scanner uses and a printer for token sequences. */
module Tokens {
  import opened Values

  datatype Kind = Keyword | Identifier | IntegerLiteral | StringLiteral

  /** A token keeps its kind and its raw value: an `Int` for an integer
      literal, a `Str` for everything else. No position is retained. */
  datatype Token = Token(kind: Kind, value: Value)

  /** The reserved words, compared case-sensitively (esharp.py:17-23). */
  const Keywords: seq<string> := [
    "ESTABLISH", "AS", "END", "CALCULATE", "WITH", "AND", "STORE", "IN",
    "TRANSMIT", "TO", "CONSOLE", "SECURE", "OTHERWISE", "IF", "IS",
    "GREATER", "THAN", "THEN", "ELSE", "INTEGER", "STRING", "ADD", "SUBTRACT",
    "ALLOCATE", "MEMORY", "FOR", "DEALLOCATE", "LOCK", "RESISTANT", "EXECUTION",
    "INITIALIZE", "SERVER", "ON", "PORT", "LISTEN", "REQUEST", "RESPOND"
  ]

  /** `word in self.keywords`: a scan of the keyword list. */
  predicate IsKeyword(w: string): (b: bool)
    ensures b <==> w in Keywords
  {
    Listed(w, Keywords)
  }

  /** A front-to-back scan for `w`: exactly membership. */
  predicate Listed(w: string, list: seq<string>): (b: bool)
    ensures b <==> w in list
  {
    list != [] && (list[0] == w || Listed(w, list[1..]))
  }

  // ASCII restrictions of Python's str.isspace/isalpha/isdigit/isalnum.

  predicate IsSpace(c: char) {
    c == ' ' || ('\t' <= c <= '\r') || ('\U{1C}' <= c <= '\U{1F}')
  }

  predicate IsAlpha(c: char) {
    ('A' <= c <= 'Z') || ('a' <= c <= 'z')
  }

  predicate IsDigit(c: char) {
    '0' <= c <= '9'
  }

  /** A character that may continue a word: `isalnum()` or `_`. */
  predicate IsWordChar(c: char) {
    IsAlpha(c) || IsDigit(c) || c == '_'
  }

  predicate NotNewline(c: char) {
    c != '\n'
  }

  predicate NotQuote(c: char) {
    c != '"'
  }

  /** A word: a non-empty run of word characters that starts with a letter. */
  predicate IsWord(w: string) {
    |w| > 0 && IsAlpha(w[0]) && forall k :: 0 <= k < |w| ==> IsWordChar(w[k])
  }

  /** Text that can stand between the quotes of a string literal. */
  predicate QuoteFree(s: string) {
    forall k :: 0 <= k < |s| ==> NotQuote(s[k])
  }

  predicate IsDigits(d: string) {
    |d| > 0 && forall k :: 0 <= k < |d| ==> IsDigit(d[k])
  }

  /** The token a scanned word becomes (esharp.py:38-41). */
  function WordToken(w: string): (t: Token)
    ensures t.value == Str(w)
    ensures t.kind == Keyword <==> IsKeyword(w)
    ensures t.kind == Identifier <==> !IsKeyword(w)
  {
    if IsKeyword(w) then Token(Keyword, Str(w)) else Token(Identifier, Str(w))
  }

  function DigitValue(c: char): int
    requires IsDigit(c)
  {
    c as int - '0' as int
  }

  /** `int(num)` for a run of ASCII digits, read in decimal. */
  function DecimalValue(d: string): (n: int)
    requires forall k :: 0 <= k < |d| ==> IsDigit(d[k])
    ensures n >= 0
  {
    if d == [] then 0 else DecimalValue(d[..|d| - 1]) * 10 + DigitValue(d[|d| - 1])
  }

  /** Decimal notation of a natural number, without leading zeros. */
  function ShowNat(n: nat): (d: string)
    ensures IsDigits(d)
  {
    if n < 10 then [('0' as int + n) as char]
    else ShowNat(n / 10) + [('0' as int + n % 10) as char]
  }

  lemma {:induction false} DecimalShowNat(n: nat)
    ensures DecimalValue(ShowNat(n)) == n
  {
    var d := ShowNat(n);
    if n >= 10 {
      DecimalShowNat(n / 10);
      assert d[..|d| - 1] == ShowNat(n / 10);
    }
  }

  /** A token the scanner can produce: every token it emits has this shape. */
  predicate WellFormed(t: Token) {
    match t.kind
    case Keyword => t.value.Str? && IsWord(t.value.s) && IsKeyword(t.value.s)
    case Identifier => t.value.Str? && IsWord(t.value.s) && !IsKeyword(t.value.s)
    case IntegerLiteral => t.value.Int? && t.value.i >= 0
    case StringLiteral => t.value.Str? && QuoteFree(t.value.s)
  }

  /** Source text for one well-formed token. */
  function Render(t: Token): string
    requires WellFormed(t)
  {
    match t.kind
    case Keyword => t.value.s
    case Identifier => t.value.s
    case IntegerLiteral => ShowNat(t.value.i)
    case StringLiteral => ['"'] + t.value.s + ['"']
  }

  /** Source text for a token sequence, each token followed by a space. */
  function RenderAll(ts: seq<Token>): string
    requires forall k :: 0 <= k < |ts| ==> WellFormed(ts[k])
  {
    if ts == [] then [] else Render(ts[0]) + [' '] + RenderAll(ts[1..])
  }
}
