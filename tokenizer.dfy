/** The tokenizer (src/compiler.js lines 2-91): a cursor scan that turns source text into
    tokens. `Tokens` is the specification, `Tokenize` the loop that the source runs. */
module Tokenizer {
  import opened Syntax
  import opened CharClasses

  /** `input[i]` as JavaScript reads it: `undefined` (here `None`) outside the string. */
  function CharAt(input: string, i: int): Option<char> {
    if 0 <= i < |input| then Some(input[i]) else None
  }

  /** `NUMBERS.test(char)`. A test of `undefined` tests the text "undefined", which holds
      no digit, so the digit loop stops at the end of the input. */
  predicate DigitsTest(ch: Option<char>) {
    ch.Some? && IsDigit(ch.value)
  }

  /** `LETTERS.test(char)` as the letter loop needs it: false at the end of the input. */
  predicate LettersTest(ch: Option<char>) {
    ch.Some? && IsAsciiLetter(ch.value)
  }

  /** `LETTERS.test(char)` as written: a test of `undefined` tests the text "undefined",
      which is made of letters, so it succeeds. */
  predicate LettersTestAsWritten(ch: Option<char>) {
    ch.None? || IsAsciiLetter(ch.value)
  }

  /** The end of the maximal run of `p`-characters that starts at `pos`. */
  function RunEnd(input: string, pos: nat, p: char -> bool): (end: nat)
    requires pos <= |input|
    ensures pos <= end <= |input|
    ensures forall i :: pos <= i < end ==> p(input[i])
    ensures end == |input| || !p(input[end])
    decreases |input| - pos
  {
    if pos < |input| && p(input[pos]) then RunEnd(input, pos + 1, p) else pos
  }

  /** The class a letter run gets: Keyword when it contains a keyword, else Identifier. */
  function WordKind(word: string): TokenType {
    if ContainsKeyword(word) then Keyword else Identifier
  }

  /** Where the lexeme that starts at `pos` ends. The rules are tried in the source's
      priority order: punctuator (with the `=>` lookahead), whitespace, digit run,
      letter run. */
  function TokenEnd(input: string, pos: nat): (end: nat)
    requires pos < |input| && IsLexical(input[pos])
    ensures pos < end <= |input|
    ensures forall i :: pos <= i < end ==> IsLexical(input[i])
    ensures !IsWhitespace(input[pos]) ==> forall i :: pos <= i < end ==> !IsWhitespace(input[i])
    ensures IsWhitespace(input[pos]) ==> end == pos + 1
  {
    var c := input[pos];
    ClassesDisjoint(c);
    if IsPunctuator(c) then
      if c == '=' && CharAt(input, pos + 1) == Some('>') then pos + 2 else pos + 1
    else if IsWhitespace(c) then pos + 1
    else if IsDigit(c) then RunEnd(input, pos, IsDigit)
    else RunEnd(input, pos, IsAsciiLetter)
  }

  /** The tokens the lexeme at `pos` contributes: none for whitespace, otherwise one token
      whose text is the lexeme. */
  function Emitted(input: string, pos: nat): (ts: seq<Token>)
    requires pos < |input| && IsLexical(input[pos])
    ensures |ts| <= 1
    ensures ts == [] <==> IsWhitespace(input[pos])
    ensures ts != [] ==> ts[0].value == input[pos..TokenEnd(input, pos)]
  {
    var c := input[pos];
    var text := input[pos..TokenEnd(input, pos)];
    ClassesDisjoint(c);
    if IsPunctuator(c) then [Token(Punctuator, text)]
    else if IsWhitespace(c) then []
    else if IsDigit(c) then [Token(Numeric, text)]
    else [Token(WordKind(text), text)]
  }

  /** The tokens of `input[pos..]`; a character that no rule accepts stops the scan. */
  function TokensFrom(input: string, pos: nat): Result<seq<Token>>
    requires pos <= |input|
    decreases |input| - pos
  {
    if pos == |input| then Ok([])
    else if IsLexical(input[pos]) then Prefixed(Emitted(input, pos), TokensFrom(input, TokenEnd(input, pos)))
    else Err(LexError(input[pos]))
  }

  /** The result of `tokenizer(input)`. */
  function Tokens(input: string): Result<seq<Token>> {
    TokensFrom(input, 0)
  }

  /** The punctuator rule of lines 14-30: one punctuator character, or `=>` when `=` is
      followed by `>`. */
  method ScanPunctuator(input: string, start: nat) returns (punctuators: string, current: nat)
    requires start < |input| && IsPunctuator(input[start])
    ensures current == start + (if input[start] == '=' && CharAt(input, start + 1) == Some('>') then 2 else 1)
    ensures current <= |input| && punctuators == input[start..current]
  {
    var ch := input[start];
    current := start;
    punctuators := [ch];
    if ch == '=' && CharAt(input, current + 1) == Some('>') {
      current := current + 1;
      punctuators := punctuators + [input[current]];
    }
    current := current + 1;
  }

  /** The digit loop of lines 45-48: gathers the digits under the cursor. */
  method ScanDigits(input: string, start: nat) returns (number: string, current: nat)
    requires start <= |input|
    ensures current == RunEnd(input, start, IsDigit)
    ensures number == input[start..current]
  {
    current := start;
    number := "";
    var c := CharAt(input, current);
    while DigitsTest(c)
      invariant start <= current <= |input|
      invariant number == input[start..current]
      invariant c == CharAt(input, current)
      invariant RunEnd(input, start, IsDigit) == RunEnd(input, current, IsDigit)
      decreases |input| - current
    {
      number := number + [c.value];
      current := current + 1;
      c := CharAt(input, current);
    }
  }

  /** The letter loop of lines 64-67, stopping at the end of the input. */
  method ScanLetters(input: string, start: nat) returns (value: string, current: nat)
    requires start <= |input|
    ensures current == RunEnd(input, start, IsAsciiLetter)
    ensures value == input[start..current]
  {
    current := start;
    value := "";
    var c := CharAt(input, current);
    while LettersTest(c)
      invariant start <= current <= |input|
      invariant value == input[start..current]
      invariant c == CharAt(input, current)
      invariant RunEnd(input, start, IsAsciiLetter) == RunEnd(input, current, IsAsciiLetter)
      decreases |input| - current
    {
      value := value + [c.value];
      current := current + 1;
      c := CharAt(input, current);
    }
  }

  /** One round of the scan at a character that starts token `t`, which ends at `end`. */
  lemma TokenStep(input: string, pos: nat, end: nat, t: Token)
    requires pos < end <= |input|
    requires t.value == input[pos..end]
    requires IsPunctuator(input[pos]) || IsDigit(input[pos]) || IsAsciiLetter(input[pos])
    requires IsPunctuator(input[pos]) ==>
      t.kind == Punctuator && end == pos + (if input[pos] == '=' && CharAt(input, pos + 1) == Some('>') then 2 else 1)
    requires !IsPunctuator(input[pos]) && IsDigit(input[pos]) ==>
      t.kind == Numeric && end == RunEnd(input, pos, IsDigit)
    requires !IsPunctuator(input[pos]) && IsAsciiLetter(input[pos]) ==>
      t.kind == WordKind(t.value) && end == RunEnd(input, pos, IsAsciiLetter)
    ensures TokensFrom(input, pos) == Prefixed([t], TokensFrom(input, end))
  {
    ClassesDisjoint(input[pos]);
  }

  /** Whitespace is skipped without emitting a token. */
  lemma WhitespaceStep(input: string, pos: nat)
    requires pos < |input| && IsWhitespace(input[pos])
    ensures TokensFrom(input, pos) == TokensFrom(input, pos + 1)
  {
    var r := TokensFrom(input, pos + 1);
    assert r.Ok? ==> [] + r.value == r.value;
  }

  /** The loop invariant of `Tokenize` carried over one emitted token. */
  lemma Advance(input: string, tokens: seq<Token>, pos: nat, end: nat, t: Token)
    requires pos <= end <= |input|
    requires Tokens(input) == Prefixed(tokens, TokensFrom(input, pos))
    requires TokensFrom(input, pos) == Prefixed([t], TokensFrom(input, end))
    ensures Tokens(input) == Prefixed(tokens + [t], TokensFrom(input, end))
  {
    PrefixedAssociative(tokens, [t], TokensFrom(input, end));
  }

  /** The scan of lines 9-88: one cursor `current`, a token list that only grows, and
      an inner loop per digit run and per letter run. */
  method Tokenize(input: string) returns (r: Result<seq<Token>>)
    ensures r == Tokens(input)
  {
    var current := 0;
    var tokens: seq<Token> := [];
    assert TokensFrom(input, 0).Ok? ==> [] + TokensFrom(input, 0).value == TokensFrom(input, 0).value;
    while current < |input|
      invariant current <= |input|
      invariant Tokens(input) == Prefixed(tokens, TokensFrom(input, current))
      decreases |input| - current
    {
      var ch := input[current];
      ghost var start := current;
      if IsPunctuator(ch) {
        var punctuators;
        punctuators, current := ScanPunctuator(input, current);
        TokenStep(input, start, current, Token(Punctuator, punctuators));
        Advance(input, tokens, start, current, Token(Punctuator, punctuators));
        tokens := tokens + [Token(Punctuator, punctuators)];
        continue;
      }
      if IsWhitespace(ch) {
        WhitespaceStep(input, current);
        current := current + 1;
        continue;
      }
      if IsDigit(ch) {
        var number;
        number, current := ScanDigits(input, current);
        TokenStep(input, start, current, Token(Numeric, number));
        Advance(input, tokens, start, current, Token(Numeric, number));
        tokens := tokens + [Token(Numeric, number)];
        continue;
      }
      if IsAsciiLetter(ch) {
        var value;
        value, current := ScanLetters(input, current);
        TokenStep(input, start, current, Token(WordKind(value), value));
        Advance(input, tokens, start, current, Token(WordKind(value), value));
        tokens := tokens + [Token(WordKind(value), value)];
        continue;
      }
      return Err(LexError(ch));
    }
    assert tokens + [] == tokens;
    return Ok(tokens);
  }

  // ---------------------------------------------------------------------------------
  // Properties of the scan

  /** The input with every whitespace character removed. */
  function WithoutWhitespace(s: string): string {
    if s == [] then [] else (if IsWhitespace(s[0]) then [] else [s[0]]) + WithoutWhitespace(s[1..])
  }

  /** The token texts, concatenated. */
  function Values(ts: seq<Token>): string {
    if ts == [] then [] else ts[0].value + Values(ts[1..])
  }

  lemma ValuesCons(t: Token, ts: seq<Token>)
    ensures Values([t] + ts) == t.value + Values(ts)
  {
    assert ([t] + ts)[1..] == ts;
  }

  /** A stretch without whitespace survives whitespace removal unchanged. */
  lemma {:induction false} WithoutWhitespaceKeepsRun(s: string, pos: nat, end: nat)
    requires pos <= end <= |s|
    requires forall i :: pos <= i < end ==> !IsWhitespace(s[i])
    ensures WithoutWhitespace(s[pos..]) == s[pos..end] + WithoutWhitespace(s[end..])
    decreases end - pos
  {
    if pos < end {
      WithoutWhitespaceKeepsRun(s, pos + 1, end);
      assert s[pos..][1..] == s[pos + 1..];
      assert s[pos..end] == [s[pos]] + s[pos + 1..end];
    }
  }

  lemma {:induction false} TokensFromRoundTrip(input: string, pos: nat)
    requires pos <= |input|
    requires TokensFrom(input, pos).Ok?
    ensures Values(TokensFrom(input, pos).value) == WithoutWhitespace(input[pos..])
    decreases |input| - pos
  {
    if pos < |input| {
      var end := TokenEnd(input, pos);
      var ts := Emitted(input, pos);
      TokensFromRoundTrip(input, end);
      if ts == [] {
        WhitespaceStep(input, pos);
        assert input[pos..][1..] == input[pos + 1..];
      } else {
        assert ts == [ts[0]];
        ValuesCons(ts[0], TokensFrom(input, end).value);
        WithoutWhitespaceKeepsRun(input, pos, end);
      }
    }
  }

  /** Token round trip: the token texts, concatenated, give back the input without its
      whitespace. */
  lemma TokensRoundTrip(input: string)
    requires Tokens(input).Ok?
    ensures Values(Tokens(input).value) == WithoutWhitespace(input)
  {
    TokensFromRoundTrip(input, 0);
    assert input[0..] == input;
  }

  /** `input[i]` is the first character at or after `from` that no rule accepts. */
  predicate FirstNonLexical(input: string, from: nat, i: nat) {
    from <= i < |input| && !IsLexical(input[i]) &&
    forall j :: from <= j < i ==> IsLexical(input[j])
  }

  lemma {:induction false} TokensFromFails(input: string, pos: nat)
    requires pos <= |input|
    ensures TokensFrom(input, pos).Ok? <==> forall i :: pos <= i < |input| ==> IsLexical(input[i])
    ensures TokensFrom(input, pos).Err? ==>
      exists i: nat :: FirstNonLexical(input, pos, i) && TokensFrom(input, pos).error == LexError(input[i])
    decreases |input| - pos
  {
    if pos < |input| {
      if IsLexical(input[pos]) {
        var end := TokenEnd(input, pos);
        TokensFromFails(input, end);
        if TokensFrom(input, pos).Err? {
          var i: nat :| FirstNonLexical(input, end, i) && TokensFrom(input, end).error == LexError(input[i]);
          assert FirstNonLexical(input, pos, i);
        }
      } else {
        assert FirstNonLexical(input, pos, pos);
      }
    }
  }

  /** Tokenizer errors: the scan fails exactly when some character is accepted by no rule
      (punctuator, whitespace, digit or ASCII letter), and the error names the first such
      character. */
  lemma LexErrorNamesFirstBadCharacter(input: string)
    ensures Tokens(input).Ok? <==> forall i :: 0 <= i < |input| ==> IsLexical(input[i])
    ensures Tokens(input).Err? ==>
      exists i: nat :: FirstNonLexical(input, 0, i) && Tokens(input) == Err(LexError(input[i]))
  {
    TokensFromFails(input, 0);
  }

  predicate IsWordToken(t: Token) {
    t.kind == Identifier || t.kind == Keyword
  }

  /** The shape of every token the scan emits. */
  predicate WellFormedToken(t: Token) {
    match t.kind
    case Punctuator => (|t.value| == 1 && IsPunctuator(t.value[0])) || t.value == "=>"
    case Numeric => |t.value| > 0 && forall i :: 0 <= i < |t.value| ==> IsDigit(t.value[i])
    case Identifier =>
      |t.value| > 0 && (forall i :: 0 <= i < |t.value| ==> IsAsciiLetter(t.value[i])) &&
      !ContainsKeyword(t.value)
    case Keyword =>
      |t.value| > 0 && (forall i :: 0 <= i < |t.value| ==> IsAsciiLetter(t.value[i])) &&
      ContainsKeyword(t.value)
  }

  lemma EmittedWellFormed(input: string, pos: nat)
    requires pos < |input| && IsLexical(input[pos])
    ensures forall k :: 0 <= k < |Emitted(input, pos)| ==> WellFormedToken(Emitted(input, pos)[k])
  {
    var c := input[pos];
    ClassesDisjoint(c);
    if IsPunctuator(c) && TokenEnd(input, pos) == pos + 2 {
      assert input[pos..pos + 2] == "=>";
    }
  }

  lemma {:induction false} TokensFromWellFormed(input: string, pos: nat)
    requires pos <= |input|
    requires TokensFrom(input, pos).Ok?
    ensures forall k :: 0 <= k < |TokensFrom(input, pos).value| ==> WellFormedToken(TokensFrom(input, pos).value[k])
    decreases |input| - pos
  {
    if pos < |input| {
      EmittedWellFormed(input, pos);
      TokensFromWellFormed(input, TokenEnd(input, pos));
    }
  }

  /** Every token is well formed: a punctuator is one punctuator character or `=>`, a
      Numeric token a non-empty digit run, and a letter run is a Keyword exactly when it
      contains a keyword, otherwise an Identifier. */
  lemma TokensWellFormed(input: string)
    requires Tokens(input).Ok?
    ensures forall k :: 0 <= k < |Tokens(input).value| ==> WellFormedToken(Tokens(input).value[k])
  {
    TokensFromWellFormed(input, 0);
  }

  /** Two tokens that a longest-match scan never emits side by side: two digit runs, two
      letter runs, or `=` followed by a token that starts with `>`. */
  predicate Unfusable(a: Token, b: Token) {
    !(a.kind == Numeric && b.kind == Numeric) &&
    !(IsWordToken(a) && IsWordToken(b)) &&
    !(a.value == "=" && |b.value| > 0 && b.value[0] == '>')
  }

  /** The token a non-whitespace lexeme contributes starts with that lexeme's first
      character, and its class follows that character's class. */
  lemma FirstToken(input: string, pos: nat)
    requires pos < |input| && !IsWhitespace(input[pos]) && IsLexical(input[pos])
    ensures |Emitted(input, pos)| == 1
    ensures |Emitted(input, pos)[0].value| > 0 && Emitted(input, pos)[0].value[0] == input[pos]
    ensures Emitted(input, pos)[0].kind == Numeric ==> IsDigit(input[pos])
    ensures IsWordToken(Emitted(input, pos)[0]) ==> IsAsciiLetter(input[pos])
    ensures Emitted(input, pos)[0].value == "=" ==> CharAt(input, pos + 1) != Some('>')
  {
    ClassesDisjoint(input[pos]);
  }

  /** The lexeme at `pos` cannot be glued to the one that follows it. */
  lemma NeighboursUnfusable(input: string, pos: nat)
    requires forall i :: 0 <= i < |input| ==> !IsWhitespace(input[i])
    requires pos < |input| && IsLexical(input[pos])
    requires TokenEnd(input, pos) < |input| && IsLexical(input[TokenEnd(input, pos)])
    ensures Unfusable(Emitted(input, pos)[0], Emitted(input, TokenEnd(input, pos))[0])
  {
    var end := TokenEnd(input, pos);
    FirstToken(input, pos);
    FirstToken(input, end);
    ClassesDisjoint(input[pos]);
    ClassesDisjoint(input[end]);
  }

  lemma {:induction false} TokensFromMaximal(input: string, pos: nat)
    requires forall i :: 0 <= i < |input| ==> !IsWhitespace(input[i])
    requires pos <= |input|
    requires TokensFrom(input, pos).Ok?
    ensures var ts := TokensFrom(input, pos).value;
      forall k :: 0 <= k < |ts| - 1 ==> Unfusable(ts[k], ts[k + 1])
    decreases |input| - pos
  {
    if pos < |input| {
      var end := TokenEnd(input, pos);
      var ts := TokensFrom(input, pos).value;
      var rest := TokensFrom(input, end).value;
      FirstToken(input, pos);
      assert ts == Emitted(input, pos) + rest;
      TokensFromMaximal(input, end);
      if end < |input| {
        FirstToken(input, end);
        NeighboursUnfusable(input, pos);
        assert rest[0] == Emitted(input, end)[0];
      }
      forall k | 0 <= k < |ts| - 1 ensures Unfusable(ts[k], ts[k + 1]) {
        if k > 0 {
          assert ts[k] == rest[k - 1] && ts[k + 1] == rest[k];
        }
      }
    }
  }

  /** Maximal runs: in an input without whitespace no two neighbouring tokens could have
      been one token, so digit runs and letter runs are never split and `=` is never
      followed by `>`. */
  lemma TokensMaximal(input: string)
    requires forall i :: 0 <= i < |input| ==> !IsWhitespace(input[i])
    requires Tokens(input).Ok?
    ensures forall k :: 0 <= k < |Tokens(input).value| - 1 ==>
      Unfusable(Tokens(input).value[k], Tokens(input).value[k + 1])
  {
    TokensFromMaximal(input, 0);
  }

  lemma {:induction false} TokensFromWhitespace(input: string, pos: nat)
    requires pos <= |input|
    requires forall i :: pos <= i < |input| ==> IsWhitespace(input[i])
    ensures TokensFrom(input, pos) == Ok([])
    decreases |input| - pos
  {
    if pos < |input| {
      WhitespaceStep(input, pos);
      TokensFromWhitespace(input, pos + 1);
    }
  }

  /** An input made only of whitespace yields no tokens. */
  lemma WhitespaceYieldsNoTokens(input: string)
    requires forall i :: 0 <= i < |input| ==> IsWhitespace(input[i])
    ensures Tokens(input) == Ok([])
  {
    TokensFromWhitespace(input, 0);
  }

  // ---------------------------------------------------------------------------------
  // Tokenizing pieces of a text

  lemma {:induction false} RunEndShift(s: string, k: nat, pos: nat, p: char -> bool)
    requires k <= pos <= |s|
    ensures RunEnd(s, pos, p) == k + RunEnd(s[k..], pos - k, p)
    decreases |s| - pos
  {
    if pos < |s| && p(s[pos]) {
      assert s[k..][pos - k] == s[pos];
      RunEndShift(s, k, pos + 1, p);
    }
  }

  lemma TokenEndShift(s: string, k: nat, pos: nat)
    requires k <= pos < |s| && IsLexical(s[pos])
    ensures s[k..][pos - k] == s[pos]
    ensures TokenEnd(s, pos) == k + TokenEnd(s[k..], pos - k)
  {
    assert s[k..][pos - k] == s[pos];
    var c := s[pos];
    ClassesDisjoint(c);
    if IsPunctuator(c) {
      assert CharAt(s, pos + 1) == CharAt(s[k..], pos - k + 1);
    } else if IsDigit(c) {
      RunEndShift(s, k, pos, IsDigit);
    } else if IsAsciiLetter(c) {
      RunEndShift(s, k, pos, IsAsciiLetter);
    }
  }

  lemma EmittedShift(s: string, k: nat, pos: nat)
    requires k <= pos < |s| && IsLexical(s[pos])
    ensures s[k..][pos - k] == s[pos]
    ensures Emitted(s, pos) == Emitted(s[k..], pos - k)
  {
    TokenEndShift(s, k, pos);
    assert s[pos..TokenEnd(s, pos)] == s[k..][pos - k..TokenEnd(s[k..], pos - k)];
  }

  lemma {:induction false} TokensFromShift(s: string, k: nat, pos: nat)
    requires k <= pos <= |s|
    ensures TokensFrom(s, pos) == TokensFrom(s[k..], pos - k)
    decreases |s| - pos
  {
    var t, i := s[k..], pos - k;
    if pos == |s| {
      assert i == |t|;
    } else {
      assert t[i] == s[pos];
      if IsLexical(s[pos]) {
        var end := TokenEnd(s, pos);
        TokenEndShift(s, k, pos);
        EmittedShift(s, k, pos);
        var j := TokenEnd(t, i);
        assert j == end - k;
        TokensFromShift(s, k, end);
        assert TokensFrom(s, pos) == Prefixed(Emitted(s, pos), TokensFrom(s, end));
        assert TokensFrom(t, i) == Prefixed(Emitted(t, i), TokensFrom(t, j));
      } else {
        assert TokensFrom(s, pos) == Err(LexError(s[pos]));
        assert TokensFrom(t, i) == Err(LexError(t[i]));
      }
    }
  }

  /** The tokens from a cursor are the tokens of the rest of the text: no rule looks back. */
  lemma TokensFromSuffix(s: string, k: nat)
    requires k <= |s|
    ensures TokensFrom(s, k) == Tokens(s[k..])
  {
    TokensFromShift(s, k, k);
  }

  /** A text that cannot continue a lexeme: empty, or starting with whitespace. */
  predicate Boundary(t: string) {
    t == [] || IsWhitespace(t[0])
  }

  lemma {:induction false} RunEndPrefix(a: string, t: string, pos: nat, p: char -> bool)
    requires pos <= |a|
    requires t == [] || !p(t[0])
    ensures RunEnd(a + t, pos, p) == RunEnd(a, pos, p)
    decreases |a| - pos
  {
    if pos < |a| {
      assert (a + t)[pos] == a[pos];
      if p(a[pos]) {
        RunEndPrefix(a, t, pos + 1, p);
      }
    } else if t != [] {
      assert (a + t)[pos] == t[0];
    }
  }

  lemma TokenEndPrefix(a: string, t: string, pos: nat)
    requires pos < |a| && IsLexical(a[pos]) && Boundary(t)
    ensures (a + t)[pos] == a[pos]
    ensures TokenEnd(a + t, pos) == TokenEnd(a, pos)
    ensures Emitted(a + t, pos) == Emitted(a, pos)
  {
    assert (a + t)[pos] == a[pos];
    if t != [] {
      ClassesDisjoint(t[0]);
    }
    RunEndPrefix(a, t, pos, IsDigit);
    RunEndPrefix(a, t, pos, IsAsciiLetter);
    if pos + 1 < |a| {
      assert (a + t)[pos + 1] == a[pos + 1];
    } else if t != [] {
      assert (a + t)[pos + 1] == t[0];
    }
    assert (a + t)[pos..TokenEnd(a, pos)] == a[pos..TokenEnd(a, pos)];
  }

  lemma {:induction false} TokensFromPrefix(a: string, t: string, pos: nat)
    requires pos <= |a| && Boundary(t)
    ensures TokensFrom(a + t, pos) == Concatenated(TokensFrom(a, pos), TokensFrom(a + t, |a|))
    decreases |a| - pos
  {
    if pos == |a| {
      var r := TokensFrom(a + t, |a|);
      assert r.Ok? ==> [] + r.value == r.value;
    } else {
      assert (a + t)[pos] == a[pos];
      if IsLexical(a[pos]) {
        TokenEndPrefix(a, t, pos);
        var end := TokenEnd(a, pos);
        TokensFromPrefix(a, t, end);
        if TokensFrom(a, end).Ok? {
          PrefixedAssociative(Emitted(a, pos), TokensFrom(a, end).value, TokensFrom(a + t, |a|));
        }
      }
    }
  }

  /** Tokenizing two texts joined by one whitespace character gives the tokens of the first
      followed by the tokens of the second, since no lexeme reaches across whitespace. */
  lemma TokensJoined(a: string, w: char, b: string)
    requires IsWhitespace(w)
    ensures Tokens(a + [w] + b) == Concatenated(Tokens(a), Tokens(b))
  {
    var s := a + [w] + b;
    assert s == a + ([w] + b);
    TokensFromPrefix(a, [w] + b, 0);
    assert s[|a|] == w;
    WhitespaceStep(s, |a|);
    TokensFromSuffix(s, |a| + 1);
    assert s[|a| + 1..] == b;
  }

  /** A letter run by itself is one word token. */
  lemma WordLexeme(word: string)
    requires |word| > 0 && forall i :: 0 <= i < |word| ==> IsAsciiLetter(word[i])
    ensures Tokens(word) == Ok([Token(WordKind(word), word)])
  {
    ClassesDisjoint(word[0]);
    assert TokensFrom(word, |word|) == Ok([]);
    assert word[0..|word|] == word;
    RunEndMaximal(word, 0, IsAsciiLetter);
    assert [Token(WordKind(word), word)] + [] == [Token(WordKind(word), word)];
  }

  /** A digit run by itself is one Numeric token. */
  lemma NumeralLexeme(digits: string)
    requires |digits| > 0 && forall i :: 0 <= i < |digits| ==> IsDigit(digits[i])
    ensures Tokens(digits) == Ok([Token(Numeric, digits)])
  {
    ClassesDisjoint(digits[0]);
    assert TokensFrom(digits, |digits|) == Ok([]);
    assert digits[0..|digits|] == digits;
    RunEndMaximal(digits, 0, IsDigit);
    assert [Token(Numeric, digits)] + [] == [Token(Numeric, digits)];
  }

  /** A lone punctuator character is one punctuator token. */
  lemma PunctuatorLexeme(c: char)
    requires IsPunctuator(c)
    ensures Tokens([c]) == Ok([Token(Punctuator, [c])])
  {
    ClassesDisjoint(c);
    assert TokensFrom([c], 1) == Ok([]);
    assert [c][0..1] == [c];
    assert [Token(Punctuator, [c])] + [] == [Token(Punctuator, [c])];
  }

  lemma {:induction false} RunEndMaximal(s: string, pos: nat, p: char -> bool)
    requires pos <= |s|
    requires forall i :: pos <= i < |s| ==> p(s[i])
    ensures RunEnd(s, pos, p) == |s|
    decreases |s| - pos
  {
    if pos < |s| {
      RunEndMaximal(s, pos + 1, p);
    }
  }

  // ---------------------------------------------------------------------------------
  // The letter loop at the end of the input

  /** The letter loop of lines 64-67 exactly as written, run for at most `fuel` rounds from
      cursor `cur`: the cursor at which its guard first fails, or `None` if it has not
      failed within `fuel` rounds. */
  function LetterLoopAsWritten(input: string, cur: nat, fuel: nat): Option<nat>
    decreases fuel
  {
    if !LettersTestAsWritten(CharAt(input, cur)) then Some(cur)
    else if fuel == 0 then None
    else LetterLoopAsWritten(input, cur + 1, fuel - 1)
  }

  /** A letter run that reaches the end of the input never ends: past the end the guard
      tests `undefined`, which it accepts, so no number of rounds suffices. */
  lemma {:induction false} LetterLoopAsWrittenNeverExits(input: string, cur: nat, fuel: nat)
    requires forall i :: cur <= i < |input| ==> IsAsciiLetter(input[i])
    ensures LetterLoopAsWritten(input, cur, fuel) == None
    decreases fuel
  {
    if fuel > 0 {
      LetterLoopAsWrittenNeverExits(input, cur + 1, fuel - 1);
    }
  }

  /** Inside the input the loop as written stops where the corrected one does: at the end
      of the letter run, given enough rounds. */
  lemma {:induction false} LetterLoopAsWrittenInside(input: string, cur: nat, fuel: nat)
    requires cur <= |input| && RunEnd(input, cur, IsAsciiLetter) < |input|
    requires fuel >= RunEnd(input, cur, IsAsciiLetter) - cur
    ensures LetterLoopAsWritten(input, cur, fuel) == Some(RunEnd(input, cur, IsAsciiLetter))
    decreases fuel
  {
    if IsAsciiLetter(input[cur]) {
      LetterLoopAsWrittenInside(input, cur + 1, fuel - 1);
    }
  }

  /** `var x = y` is such an input: its last lexeme is the letter run `y`, at cursor 8. */
  lemma DivergingInput(fuel: nat)
    ensures LetterLoopAsWritten("var x = y", 8, fuel) == None
  {
    LetterLoopAsWrittenNeverExits("var x = y", 8, fuel);
  }
}
