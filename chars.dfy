/** The character tests of the tokenizer, written out as explicit predicates in place of
    the regular expressions of src/compiler.js (lines 14, 33, 40, 59 and 69). */
module CharClasses {

  /** The punctuator class. Its ASCII members are all 32 ASCII punctuation characters
      (the four code ranges below); its other members are the middle dot, the full-width
      exclamation mark, yen sign, parentheses, question mark, colon, semicolon and comma,
      the ellipsis, the em dash, the double angle brackets, the curly quotes, the
      lenticular brackets and the ideographic comma and full stop. */
  predicate IsPunctuator(c: char) {
    ('!' <= c <= '/') || (':' <= c <= '@') || ('[' <= c <= '`') || ('{' <= c <= '~') ||
    c == '\U{00B7}' || c == '\U{FF01}' || c == '\U{FFE5}' || c == '\U{2026}' ||
    c == '\U{FF08}' || c == '\U{FF09}' || c == '\U{2014}' || c == '\U{300A}' ||
    c == '\U{300B}' || c == '\U{FF1F}' || c == '\U{FF1A}' || c == '\U{201C}' ||
    c == '\U{201D}' || c == '\U{3010}' || c == '\U{3011}' || c == '\U{3001}' ||
    c == '\U{FF1B}' || c == '\U{2018}' || c == '\U{2019}' || c == '\U{FF0C}' ||
    c == '\U{3002}'
  }

  /** The `\s` class of ECMAScript 2023: the WhiteSpace production of section 12.2
      (tab, vertical tab, form feed, zero width no-break space and every Unicode space
      separator) and the LineTerminator production of section 12.3. */
  predicate IsWhitespace(c: char) {
    c == '\t' || c == '\n' || c == '\U{000B}' || c == '\U{000C}' || c == '\r' ||
    c == ' ' || c == '\U{00A0}' || c == '\U{1680}' || ('\U{2000}' <= c <= '\U{200A}') ||
    c == '\U{2028}' || c == '\U{2029}' || c == '\U{202F}' || c == '\U{205F}' ||
    c == '\U{3000}' || c == '\U{FEFF}'
  }

  predicate IsDigit(c: char) {
    '0' <= c <= '9'
  }

  /** `[a-z]` with the ignore-case flag: the ASCII letters of either case. */
  predicate IsAsciiLetter(c: char) {
    ('a' <= c <= 'z') || ('A' <= c <= 'Z')
  }

  /** A character some tokenizer rule accepts. */
  predicate IsLexical(c: char) {
    IsPunctuator(c) || IsWhitespace(c) || IsDigit(c) || IsAsciiLetter(c)
  }

  /** The four classes are pairwise disjoint, so the order in which the tokenizer tries
      them only matters for the `=>` lookahead. */
  lemma ClassesDisjoint(c: char)
    ensures IsPunctuator(c) ==> !IsWhitespace(c) && !IsDigit(c) && !IsAsciiLetter(c)
    ensures IsWhitespace(c) ==> !IsDigit(c) && !IsAsciiLetter(c)
    ensures IsDigit(c) ==> !IsAsciiLetter(c)
  {
  }

  /** The alternatives of the keyword pattern `function|var|return|let|const|if|for`. */
  const Keywords: seq<string> := ["function", "var", "return", "let", "const", "if", "for"]

  /** Folds an ASCII capital to lower case and leaves every other character alone. */
  function LowerAscii(c: char): (r: char)
    ensures 'A' <= c <= 'Z' ==> 'a' <= r <= 'z' && r as int - c as int == 32
    ensures !('A' <= c <= 'Z') ==> r == c
  {
    if 'A' <= c <= 'Z' then (c as int + 32) as char else c
  }

  /** `word` holds the lower-case pattern `kw` at offset `i`, ignoring ASCII case. */
  predicate MatchesAt(word: string, kw: string, i: nat) {
    i + |kw| <= |word| && forall j :: 0 <= j < |kw| ==> LowerAscii(word[i + j]) == kw[j]
  }

  /** The unanchored, case-insensitive keyword test: some keyword occurs anywhere in `word`. */
  predicate ContainsKeyword(word: string) {
    exists k, i | 0 <= k < |Keywords| && 0 <= i <= |word| :: MatchesAt(word, Keywords[k], i)
  }

  /** Because the pattern is not anchored and ignores case, words that merely contain a
      keyword, in any letter case, pass the keyword test. */
  lemma UnanchoredKeywordTest()
    ensures ContainsKeyword("var") && ContainsKeyword("VAR") && ContainsKeyword("Let")
    ensures ContainsKeyword("format") && ContainsKeyword("myvar") && ContainsKeyword("iffy")
  {
    assert MatchesAt("var", Keywords[1], 0);
    assert MatchesAt("VAR", Keywords[1], 0);
    assert MatchesAt("Let", Keywords[3], 0);
    assert MatchesAt("format", Keywords[6], 0);
    assert MatchesAt("myvar", Keywords[1], 2);
    assert MatchesAt("iffy", Keywords[5], 0);
  }

  /** The keyword test ignores case: two words that agree letter by letter once ASCII
      capitals are folded either both pass it or both fail it. */
  lemma KeywordTestIgnoresCase(word: string, other: string)
    requires |word| == |other|
    requires forall i :: 0 <= i < |word| ==> LowerAscii(word[i]) == LowerAscii(other[i])
    ensures ContainsKeyword(word) <==> ContainsKeyword(other)
  {
    forall k, i | 0 <= k < |Keywords| && 0 <= i <= |word|
      ensures MatchesAt(word, Keywords[k], i) <==> MatchesAt(other, Keywords[k], i)
    {
    }
  }

  /** The keyword test is not anchored: a word that passes it still passes it with any
      text before and after it. */
  lemma KeywordTestUnanchored(before: string, word: string, after: string)
    requires ContainsKeyword(word)
    ensures ContainsKeyword(before + word + after)
  {
    var k, i :| 0 <= k < |Keywords| && 0 <= i <= |word| && MatchesAt(word, Keywords[k], i);
    var whole := before + word + after;
    forall j | 0 <= j < |Keywords[k]|
      ensures LowerAscii(whole[|before| + i + j]) == Keywords[k][j]
    {
      assert whole[|before| + i + j] == word[i + j];
    }
    assert MatchesAt(whole, Keywords[k], |before| + i);
  }

  /** A word shorter than every keyword never passes the keyword test. */
  lemma ShortWordIsNoKeyword(word: string)
    requires |word| < 2
    ensures !ContainsKeyword(word)
  {
    forall k, i | 0 <= k < |Keywords| && 0 <= i <= |word|
      ensures !MatchesAt(word, Keywords[k], i)
    {
      assert |Keywords[k]| >= 2;
    }
  }
}
