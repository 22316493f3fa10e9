/** What the lexer makes of a piece of text: which token it scans, and that it stops behind it. */
module Scanning {
  import opened Options
  import opened Lexers

  /** Nothing of a kind at the front. */
  predicate NotAhead(s: string, kind: char -> bool) {
    s == "" || !kind(s[0])
  }

  predicate AllOf(s: string, kind: char -> bool) {
    forall i :: 0 <= i < |s| ==> kind(s[i])
  }

  /** The text ahead of a position, spaces skipped. */
  function Ahead(input: string, pos: nat): string
    requires pos <= |input|
  {
    input[EndOf(input, pos, IsSpace)..]
  }

  lemma EndIs(input: string, pos: nat, e: nat, kind: char -> bool)
    requires pos <= e <= |input| && (forall i :: pos <= i < e ==> kind(input[i])) && (e < |input| ==> !kind(input[e]))
    ensures EndOf(input, pos, kind) == e
  {
  }

  /** Text at a position, split into a piece and the rest. */
  lemma Split(input: string, q: nat, a: string, b: string)
    requires q <= |input| && input[q..] == a + b
    ensures q + |a| <= |input| && input[q..q + |a|] == a && input[q + |a|..] == b
    ensures forall i :: 0 <= i < |a| ==> input[q + i] == a[i]
    ensures b != "" ==> input[q + |a|] == b[0]
  {
    assert input[q..q + |a|] == input[q..][..|a|];
    assert input[q + |a|..] == input[q..][|a|..];
    forall i | 0 <= i < |a| ensures input[q + i] == a[i] {
      assert input[q..][i] == (a + b)[i];
    }
    if b != "" {
      assert input[q..][|a|] == (a + b)[|a|];
    }
  }

  /** The stretch of one kind of characters is a text of them that no other one follows. */
  lemma StretchIs(input: string, q: nat, text: string, tail: string, kind: char -> bool)
    requires q <= |input| && input[q..] == text + tail && AllOf(text, kind) && NotAhead(tail, kind)
    ensures q + |text| <= |input| && EndOf(input, q, kind) == q + |text|
    ensures input[q..q + |text|] == text && input[q + |text|..] == tail
  {
    Split(input, q, text, tail);
    var e := q + |text|;
    forall i | q <= i < e ensures kind(input[i]) {
      assert input[i] == text[i - q];
    }
    EndIs(input, q, e, kind);
  }

  /** What is ahead behind a gap. */
  lemma AheadGap(input: string, e: nat, gap: string, tail: string)
    requires e <= |input| && input[e..] == gap + tail && AllOf(gap, IsSpace) && NotAhead(tail, IsSpace)
    ensures Ahead(input, e) == tail
  {
    StretchIs(input, e, gap, tail, IsSpace);
  }

  lemma NothingSkipped(input: string, a: string, b: string)
    requires input == a + b && a != "" && !IsSpace(a[0])
    ensures Ahead(input, 0) == input
  {
    assert input[0] == a[0];
    EndIs(input, 0, 0, IsSpace);
  }

  /** The next token begins where the text ahead does. */
  lemma AfterToken(input: string, p: nat, token: Token, e: nat, gap: string, tail: string)
    requires p <= |input| && e <= |input| && Scan(input, p) == Scanned(Some(token), e)
    requires input[e..] == gap + tail && AllOf(gap, IsSpace) && NotAhead(tail, IsSpace)
    ensures Scan(input, p).token == Some(token) && Ahead(input, Scan(input, p).position) == tail
  {
    AheadGap(input, e, gap, tail);
  }

  // Words.

  lemma WordScans(input: string, q: nat, text: string, tail: string)
    requires q <= |input| && input[q..] == text + tail && NotAhead(tail, IsWordChar)
    requires text != "" && AllOf(text, IsWordChar)
    ensures q + |text| <= |input| && input[q + |text|..] == tail
    ensures q < |input| && input[q] == text[0] && IsWordChar(input[q])
    ensures ScanWord(input, q) == Scanned(Some(WordToken(text)), q + |text|)
  {
    StretchIs(input, q, text, tail, IsWordChar);
    assert input[q] == input[q..q + |text|][0];
  }

  lemma LetterKind(c: char)
    requires IsLetter(c) || c == '_'
    ensures !IsOperatorStart(c) && c != '\'' && !IsDelimiter(c) && !IsDigit(c)
  {
  }

  lemma ScanIsWord(input: string, p: nat, q: nat)
    requires p <= |input| && q == EndOf(input, p, IsSpace) && q < |input| && (IsLetter(input[q]) || input[q] == '_')
    ensures Scan(input, p) == ScanWord(input, q)
  {
    LetterKind(input[q]);
  }

  predicate IsWord(text: string) {
    text != "" && (IsLetter(text[0]) || text[0] == '_') && AllOf(text, IsWordChar)
  }

  lemma WordAhead(input: string, p: nat, text: string, gap: string, tail: string)
    requires p <= |input| && Ahead(input, p) == text + (gap + tail) && IsWord(text) && AllOf(gap, IsSpace)
    requires NotAhead(gap + tail, IsWordChar) && NotAhead(tail, IsSpace)
    ensures Scan(input, p).token == Some(WordToken(text)) && Ahead(input, Scan(input, p).position) == tail
  {
    var q := EndOf(input, p, IsSpace);
    WordScans(input, q, text, gap + tail);
    ScanIsWord(input, p, q);
    AfterToken(input, p, WordToken(text), q + |text|, gap, tail);
  }

  // Numbers and dates.

  lemma DigitKind(c: char)
    requires IsDigit(c)
    ensures !IsOperatorStart(c) && c != '\'' && !IsDelimiter(c)
  {
  }

  lemma ScanIsNumber(input: string, p: nat, q: nat)
    requires p <= |input| && q == EndOf(input, p, IsSpace) && q < |input| && IsDigit(input[q])
    ensures Scan(input, p) == ScanNumber(input, q)
  {
    DigitKind(input[q]);
  }

  /** How many blanks a gap begins with. */
  function Blanks(gap: string): (k: nat)
    ensures k <= |gap|
  {
    EndOf(gap, 0, IsBlank)
  }

  predicate IsNumeric(text: string) {
    text != "" && IsDigit(text[0]) && AllOf(text, IsNumberChar)
  }

  /** The scanner of numbers swallows the blanks behind one. */
  lemma NumberScans(input: string, q: nat, text: string, gap: string, tail: string)
    requires q <= |input| && input[q..] == text + (gap + tail) && IsNumeric(text)
    requires AllOf(gap, IsSpace) && NotAhead(tail, IsNumberChar)
    ensures q < |input| && IsDigit(input[q])
    ensures q + |text| + Blanks(gap) <= |input| && input[q + |text| + Blanks(gap)..] == gap[Blanks(gap)..] + tail
    ensures ScanNumber(input, q) == Scanned(NumberToken(text + gap[..Blanks(gap)]), q + |text| + Blanks(gap))
  {
    Swallowed(text, gap, tail);
    StretchScans(input, q, text + gap[..Blanks(gap)], gap[Blanks(gap)..] + tail);
  }

  lemma Swallowed(text: string, gap: string, tail: string)
    requires IsNumeric(text) && AllOf(gap, IsSpace) && NotAhead(tail, IsNumberChar)
    ensures text + (gap + tail) == (text + gap[..Blanks(gap)]) + (gap[Blanks(gap)..] + tail)
    ensures IsNumeric(text + gap[..Blanks(gap)]) && NotAhead(gap[Blanks(gap)..] + tail, IsNumberChar)
  {
    var k := Blanks(gap);
    assert gap == gap[..k] + gap[k..];
    forall i | 0 <= i < |text + gap[..k]| ensures IsNumberChar((text + gap[..k])[i]) {
      assert i >= |text| ==> IsBlank(gap[i - |text|]);
    }
    if k < |gap| {
      assert IsSpace(gap[k]) && !IsBlank(gap[k]);
    }
  }

  lemma StretchScans(input: string, q: nat, text: string, tail: string)
    requires q <= |input| && input[q..] == text + tail && IsNumeric(text) && NotAhead(tail, IsNumberChar)
    ensures q < |input| && IsDigit(input[q]) && q + |text| <= |input| && input[q + |text|..] == tail
    ensures ScanNumber(input, q) == Scanned(NumberToken(text), q + |text|)
  {
    StretchIs(input, q, text, tail, IsNumberChar);
    assert input[q] == input[q..q + |text|][0];
  }

  lemma NumberAhead(input: string, p: nat, text: string, gap: string, tail: string)
    requires p <= |input| && Ahead(input, p) == text + (gap + tail) && IsNumeric(text) && AllOf(gap, IsSpace)
    requires NotAhead(tail, IsNumberChar) && NotAhead(tail, IsSpace)
    ensures var t := NumberToken(text + gap[..Blanks(gap)]);
            Scan(input, p).token == t && (t.Some? ==> Ahead(input, Scan(input, p).position) == tail)
  {
    var q := EndOf(input, p, IsSpace);
    var k := Blanks(gap);
    NumberScans(input, q, text, gap, tail);
    ScanIsNumber(input, p, q);
    AfterNumber(input, p, NumberToken(text + gap[..k]), q + |text| + k, gap[k..], tail);
  }

  lemma AfterNumber(input: string, p: nat, token: Option<Token>, e: nat, gap: string, tail: string)
    requires p <= |input| && e <= |input| && Scan(input, p) == Scanned(token, e)
    requires input[e..] == gap + tail && AllOf(gap, IsSpace) && NotAhead(tail, IsSpace)
    ensures Scan(input, p).token == token && (token.Some? ==> Ahead(input, Scan(input, p).position) == tail)
  {
    if token.Some? {
      AfterToken(input, p, token.value, e, gap, tail);
    }
  }

  lemma {:induction false} NoSpaces(s: string, blanks: string)
    requires AllDigits(s) && AllOf(blanks, IsBlank)
    ensures WithoutSpaces(s + blanks) == s
    decreases |s| + |blanks|
  {
    if blanks != "" {
      var t := s + blanks;
      assert IsBlank(t[|t| - 1]) && t[..|t| - 1] == s + blanks[..|blanks| - 1];
      NoSpaces(s, blanks[..|blanks| - 1]);
    } else if s != "" {
      assert s + blanks == s && s[..|s| - 1] + "" == s[..|s| - 1];
      assert IsDigit(s[|s| - 1]);
      NoSpaces(s[..|s| - 1], "");
      assert s[..|s| - 1] + [s[|s| - 1]] == s;
    } else {
      assert s + blanks == "";
    }
  }

  /** Digits, with the blanks that are swallowed behind them, read as their number. */
  lemma NumberReads(s: string, blanks: string)
    requires s != "" && AllDigits(s) && Atoi(s).Some? && AllOf(blanks, IsBlank)
    ensures NumberToken(s + blanks) == Some(Number(Atoi(s).value))
  {
    var t := s + blanks;
    NoSpaces(s, blanks);
    assert |t| > 4 ==> IsDigit(t[4]) || IsBlank(t[4]);
    assert ParseDate(t).None?;
  }

  /** Blanks inside a number are passed over: two numbers with blanks between them read as one. */
  lemma NumbersJoin(s: string, blanks: string, t: string)
    requires s != "" && t != "" && AllDigits(s) && AllDigits(t) && AllOf(blanks, IsBlank)
    ensures NumberToken(s + blanks + t) ==
              if Decimal(s + t) < 0x8000_0000_0000_0000 then Some(Number(Decimal(s + t))) else None
  {
    var u := s + blanks + t;
    BlanksInside(s, blanks, t);
    assert forall i :: 0 <= i < |u| ==> IsDigit(u[i]) || IsBlank(u[i]);
    assert |u| > 4 ==> u[4] != '-';
    assert ParseDate(u).None?;
  }

  lemma {:induction false} BlanksInside(s: string, blanks: string, t: string)
    requires AllDigits(s) && AllDigits(t) && AllOf(blanks, IsBlank)
    ensures WithoutSpaces(s + blanks + t) == s + t
    decreases |t|
  {
    if t == "" {
      NoSpaces(s, blanks);
      assert s + blanks + t == s + blanks && s + t == s;
    } else {
      var u, front := s + blanks + t, t[..|t| - 1];
      BlanksInside(s, blanks, front);
      assert u[..|u| - 1] == s + blanks + front && u[|u| - 1] == t[|t| - 1] && IsDigit(t[|t| - 1]);
      assert s + t == (s + front) + [t[|t| - 1]];
    }
  }

  // Operators, delimiters, quoted texts.

  predicate IsOperator(text: string) {
    text == "=" || text == "<>" || text == "!=" || text == "<" || text == "<=" || text == ">" || text == ">="
  }

  predicate IsOperatorEnd(c: char) {
    c == '=' || c == '>'
  }

  /** An operator is taken whole: with its second character if it has one, and no other one behind it. */
  lemma OperatorScans(input: string, q: nat, text: string, tail: string)
    requires q <= |input| && input[q..] == text + tail && IsOperator(text) && NotAhead(tail, IsOperatorEnd)
    ensures q < |input| && IsOperatorStart(input[q])
    ensures ScanOperator(input, q) == Scanned(Some(Operator(text)), q + |text|)
    ensures q + |text| <= |input| && input[q + |text|..] == tail
  {
    Split(input, q, text, tail);
    assert input[q] == input[q + 0] == text[0];
    if |text| == 1 {
      if q + 1 < |input| {
        assert input[q..q + 2][1] == tail[0];
      }
      assert input[q..q + 1] == [input[q]];
    } else {
      assert input[q..q + 2] == text;
    }
  }

  lemma OperatorAhead(input: string, p: nat, text: string, gap: string, tail: string)
    requires p <= |input| && Ahead(input, p) == text + (gap + tail) && IsOperator(text) && AllOf(gap, IsSpace)
    requires NotAhead(gap + tail, IsOperatorEnd) && NotAhead(tail, IsSpace)
    ensures Scan(input, p).token == Some(Operator(text)) && Ahead(input, Scan(input, p).position) == tail
  {
    var q := EndOf(input, p, IsSpace);
    OperatorScans(input, q, text, gap + tail);
    assert Scan(input, p) == ScanOperator(input, q);
    AfterToken(input, p, Operator(text), q + |text|, gap, tail);
  }

  lemma ScanIsDelimiter(input: string, p: nat, q: nat, c: char)
    requires p <= |input| && q == EndOf(input, p, IsSpace) && q < |input| && input[q] == c && IsDelimiter(c)
    ensures Scan(input, p) == Scanned(Some(Delimiter(c)), q + 1)
  {
  }

  lemma DelimiterAhead(input: string, p: nat, c: char, gap: string, tail: string)
    requires p <= |input| && Ahead(input, p) == [c] + (gap + tail) && IsDelimiter(c) && AllOf(gap, IsSpace)
    requires NotAhead(tail, IsSpace)
    ensures Scan(input, p).token == Some(Delimiter(c)) && Ahead(input, Scan(input, p).position) == tail
  {
    var q := EndOf(input, p, IsSpace);
    Split(input, q, [c], gap + tail);
    assert input[q] == input[q + 0];
    ScanIsDelimiter(input, p, q, c);
    AfterToken(input, p, Delimiter(c), q + 1, gap, tail);
  }

  predicate NoQuote(s: string) {
    forall i :: 0 <= i < |s| ==> s[i] != '\''
  }

  /** A quoted text is the text between its quotes, whatever is in it and whatever comes behind. */
  lemma QuotedScans(input: string, p: nat, s: string, tail: string)
    requires p <= |input| && input[p..] == "'" + s + "'" + tail && NoQuote(s)
    ensures Scan(input, p) == Scanned(Some(Text(s)), p + |s| + 2)
    ensures p + |s| + 2 <= |input| && input[p + |s| + 2..] == tail
  {
    assert "'" + s + "'" + tail == "'" + (s + ("'" + tail));
    Split(input, p, "'", s + ("'" + tail));
    assert input[p] == input[p + 0] == '\'';
    EndIs(input, p, p, IsSpace);
    StretchIs(input, p + 1, s, "'" + tail, NotQuote);
    Split(input, p + 1 + |s|, "'", tail);
    assert Scan(input, p) == ScanText(input, p);
  }

  /** A quote that is not closed is an error. */
  lemma UnclosedFails(input: string, p: nat, s: string)
    requires p <= |input| && input[p..] == "'" + s && NoQuote(s)
    ensures Scan(input, p).token == None
  {
    Split(input, p, "'", s);
    assert input[p] == input[p + 0] == '\'';
    EndIs(input, p, p, IsSpace);
    assert s + "" == s;
    StretchIs(input, p + 1, s, "", NotQuote);
    assert Scan(input, p) == ScanText(input, p);
  }

  lemma QuotedAhead(input: string, p: nat, s: string, gap: string, tail: string)
    requires p <= |input| && Ahead(input, p) == "'" + s + "'" + (gap + tail) && NoQuote(s) && AllOf(gap, IsSpace)
    requires NotAhead(tail, IsSpace)
    ensures Scan(input, p).token == Some(Text(s)) && Ahead(input, Scan(input, p).position) == tail
  {
    var q := EndOf(input, p, IsSpace);
    QuotedScans(input, q, s, gap + tail);
    SpacesSkipped(input, p);
    AfterToken(input, p, Text(s), q + |s| + 2, gap, tail);
  }

  /** Scanning skips spaces first. */
  lemma SpacesSkipped(input: string, p: nat)
    requires p <= |input|
    ensures Scan(input, p) == Scan(input, EndOf(input, p, IsSpace))
  {
    var q := EndOf(input, p, IsSpace);
    EndIs(input, q, q, IsSpace);
  }

  lemma EndScans(input: string, p: nat)
    requires p <= |input| && Ahead(input, p) == ""
    ensures Scan(input, p).token == Some(Eof)
  {
    assert EndOf(input, p, IsSpace) == |input|;
  }
}
