/** Tokens of SQL text (parse/lexer.go).  Characters outside ASCII are taken for unexpected ones. */
module Lexers {
  import opened Options

  datatype DateTime = DateTime(year: nat, month: nat, day: nat, hour: nat, minute: nat, second: nat)

  datatype Token =
    | Delimiter(c: char)
    | Number(n: nat)
    | Text(s: string)
    | Word(s: string)
    | Boolean(b: bool)
    | Date(d: DateTime)
    | Operator(s: string)
    | Eof

  predicate IsDigit(c: char) {
    '0' <= c <= '9'
  }

  predicate IsLetter(c: char) {
    'a' <= c <= 'z' || 'A' <= c <= 'Z'
  }

  predicate IsSpace(c: char) {
    c == ' ' || 9 as char <= c <= 13 as char
  }

  predicate IsBlank(c: char) {
    c == ' '
  }

  predicate NotQuote(c: char) {
    c != '\''
  }

  predicate IsOperatorStart(c: char) {
    c == '<' || c == '>' || c == '=' || c == '!'
  }

  predicate IsDelimiter(c: char) {
    c == ',' || c == '(' || c == ')' || c == '.' || c == ';' || c == '+' || c == '-' || c == '*'
  }

  predicate IsWordChar(c: char) {
    IsLetter(c) || IsDigit(c) || c == '_'
  }

  /** What a number or date swallows once it has begun with a digit. */
  predicate IsNumberChar(c: char) {
    IsDigit(c) || c == '-' || c == ' ' || c == ':'
  }

  const KEYWORDS := ["select", "from", "where", "and", "insert", "into", "values", "delete", "update", "set",
                     "create", "table", "int", "varchar", "view", "as", "index", "on"]

  function LowerChar(c: char): char {
    if 'A' <= c <= 'Z' then (c as int + 32) as char else c
  }

  function Lower(s: string): (r: string)
    ensures |r| == |s| && forall i :: 0 <= i < |s| ==> r[i] == LowerChar(s[i])
  {
    if s == "" then "" else Lower(s[..|s| - 1]) + [LowerChar(s[|s| - 1])]
  }

  /** The end of the stretch of characters of one kind from a position on. */
  function EndOf(input: string, pos: nat, kind: char -> bool): (e: nat)
    requires pos <= |input|
    ensures pos <= e <= |input|
    ensures forall i :: pos <= i < e ==> kind(input[i])
    ensures e < |input| ==> !kind(input[e])
    decreases |input| - pos
  {
    if pos < |input| && kind(input[pos]) then EndOf(input, pos + 1, kind) else pos
  }

  function Decimal(s: string): nat
    requires forall i :: 0 <= i < |s| ==> IsDigit(s[i])
  {
    if s == "" then 0
    else
      assert IsDigit(s[|s| - 1]);
      10 * Decimal(s[..|s| - 1]) + (s[|s| - 1] as int - '0' as int)
  }

  predicate AllDigits(s: string) {
    forall i :: 0 <= i < |s| ==> IsDigit(s[i])
  }

  /** Integers of 64 bits; no sign can occur here. */
  function Atoi(s: string): Option<nat> {
    if s != "" && AllDigits(s) && Decimal(s) < 0x8000_0000_0000_0000 then Some(Decimal(s)) else None
  }

  function WithoutSpaces(s: string): string {
    if s == "" then ""
    else WithoutSpaces(s[..|s| - 1]) + if s[|s| - 1] == ' ' then "" else [s[|s| - 1]]
  }

  predicate IsLeap(year: nat) {
    year % 4 == 0 && (year % 100 != 0 || year % 400 == 0)
  }

  function DaysIn(year: nat, month: nat): nat {
    if month == 2 then (if IsLeap(year) then 29 else 28)
    else if month in {4, 6, 9, 11} then 30 else 31
  }

  /** YYYY-MM-DD, and a time HH:MM:SS behind one or more spaces, whose hour may have one digit. */
  function ParseDate(s: string): Option<DateTime> {
    if |s| < 10 || s[4] != '-' || s[7] != '-' || !AllDigits(s[..4]) || !AllDigits(s[5..7])
        || !AllDigits(s[8..10]) then None
    else
      var year, month, day := Decimal(s[..4]), Decimal(s[5..7]), Decimal(s[8..10]);
      if !(1 <= month <= 12 && 1 <= day <= DaysIn(year, month)) then None
      else if |s| == 10 then Some(DateTime(year, month, day, 0, 0, 0))
      else
        var t := EndOf(s, 10, IsBlank);
        var h := if t + 1 < |s| && IsDigit(s[t + 1]) then t + 2 else t + 1;
        if t == 10 || |s| != h + 6 || s[h] != ':' || s[h + 3] != ':' then None
        else if !AllDigits(s[t..h]) || !AllDigits(s[h + 1..h + 3]) || !AllDigits(s[h + 4..]) then None
        else
          var hour, minute, second := Decimal(s[t..h]), Decimal(s[h + 1..h + 3]), Decimal(s[h + 4..]);
          if hour < 24 && minute < 60 && second < 60 then Some(DateTime(year, month, day, hour, minute, second))
              else None
  }

  /** A scanned token, or None for a syntax error, and the position behind it. */
  datatype Scanned = Scanned(token: Option<Token>, position: nat)

  function ScanOperator(input: string, pos: nat): (r: Scanned)
    requires pos < |input|
    ensures pos < r.position <= |input| && r.token.Some?
  {
    if pos + 1 < |input| && input[pos..pos + 2] in [">=", "<=", "!=", "<>"]
    then Scanned(Some(Operator(input[pos..pos + 2])), pos + 2)
    else Scanned(Some(Operator([input[pos]])), pos + 1)
  }

  function ScanText(input: string, pos: nat): (r: Scanned)
    requires pos < |input|
    ensures pos < r.position <= |input|
  {
    var e := EndOf(input, pos + 1, NotQuote);
    if e == |input| then Scanned(None, e) else Scanned(Some(Text(input[pos + 1..e])), e + 1)
  }

  /** A date if the swallowed text reads as one, else an integer. */
  function NumberToken(s: string): Option<Token> {
    match ParseDate(s)
    case Some(d) => Some(Date(d))
    case None =>
      match Atoi(WithoutSpaces(s))
      case Some(n) => Some(Number(n))
      case None => None
  }

  function ScanNumber(input: string, pos: nat): (r: Scanned)
    requires pos < |input| && IsDigit(input[pos])
    ensures pos < r.position <= |input|
  {
    var e := EndOf(input, pos, IsNumberChar);
    Scanned(NumberToken(input[pos..e]), e)
  }

  function WordToken(word: string): Token {
    if Lower(word) == "true" || Lower(word) == "false" then Boolean(Lower(word) == "true") else Word(Lower(word))
  }

  function ScanWord(input: string, pos: nat): (r: Scanned)
    requires pos < |input| && IsWordChar(input[pos])
    ensures pos < r.position <= |input| && r.token.Some?
  {
    var e := EndOf(input, pos, IsWordChar);
    Scanned(Some(WordToken(input[pos..e])), e)
  }

  /** The next token behind a position. */
  function Scan(input: string, position: nat): (r: Scanned)
    requires position <= |input|
    ensures position <= r.position <= |input|
    ensures r.token.Some? && r.token.value != Eof ==> position < r.position
  {
    var pos := EndOf(input, position, IsSpace);
    if pos == |input| then Scanned(Some(Eof), pos)
    else
      var c := input[pos];
      if IsOperatorStart(c) then ScanOperator(input, pos)
      else if c == '\'' then ScanText(input, pos)
      else if IsDelimiter(c) then Scanned(Some(Delimiter(c)), pos + 1)
      else if IsDigit(c) then ScanNumber(input, pos)
      else if IsLetter(c) || c == '_' then ScanWord(input, pos)
      else Scanned(None, pos)
  }

  /** A lexer's state: where it is, and the current token. */
  datatype State = State(position: nat, token: Token)

  /** On to the next token; on an error the current token stays. */
  function Advance(input: string, st: State): (r: State)
    requires st.position <= |input|
    ensures st.position <= r.position <= |input|
  {
    var s := Scan(input, st.position);
    State(s.position, match s.token case Some(t) => t case None => st.token)
  }

  predicate AdvanceOk(input: string, st: State)
    requires st.position <= |input|
  {
    Scan(input, st.position).token.Some?
  }

  function Start(input: string): (st: State)
    ensures st.position <= |input|
  {
    Advance(input, State(0, Delimiter(0 as char)))
  }

  class Lexer {
    const input: string
    var position: nat
    var currentToken: Token

    ghost predicate Valid()
      reads this
    {
      position <= |input|
    }

    function View(): State
      reads this
    {
      State(position, currentToken)
    }

    constructor (s: string)
      ensures Valid() && input == s && View() == Start(s)
    {
      input := s;
      position := 0;
      currentToken := Delimiter(0 as char);
      new;
      var _ := NextToken();
    }

    method NextToken() returns (ok: bool)
      requires Valid()
      modifies this
      ensures Valid() && View() == Advance(input, old(View())) && ok == AdvanceOk(input, old(View()))
    {
      SkipWhitespace();
      if position >= |input| {
        currentToken := Eof;
        return true;
      }
      var c := input[position];
      if IsOperatorStart(c) {
        var op := ScanOperatorText();
        currentToken := Operator(op);
        return true;
      }
      if c == '\'' {
        var text := ScanTextValue();
        if text.None? {
          return false;
        }
        currentToken := Text(text.value);
        return true;
      }
      if IsDelimiter(c) {
        position := position + 1;
        currentToken := Delimiter(c);
        return true;
      }
      if IsDigit(c) {
        var tokenStr := ScanStretch(IsNumberChar);
        var token := NumberToken(tokenStr);
        if token.None? {
          return false;
        }
        currentToken := token.value;
        return true;
      }
      if IsLetter(c) || c == '_' {
        var word := ScanStretch(IsWordChar);
        currentToken := WordToken(word);
        return true;
      }
      ok := false;
    }

    method SkipWhitespace()
      requires Valid()
      modifies this`position
      ensures Valid() && position == EndOf(input, old(position), IsSpace)
    {
      while position < |input| && IsSpace(input[position])
        invariant old(position) <= position <= |input|
        invariant EndOf(input, position, IsSpace) == EndOf(input, old(position), IsSpace)
      {
        position := position + 1;
      }
    }

    /** Swallow the characters of one kind. */
    method ScanStretch(kind: char -> bool) returns (s: string)
      requires Valid() && position < |input|
      modifies this`position
      ensures Valid() && position == EndOf(input, old(position), kind) && s == input[old(position)..position]
    {
      var start := position;
      while position < |input| && kind(input[position])
        invariant start <= position <= |input|
        invariant EndOf(input, position, kind) == EndOf(input, start, kind)
      {
        position := position + 1;
      }
      s := input[start..position];
    }

    method ScanOperatorText() returns (op: string)
      requires Valid() && position < |input|
      modifies this`position
      ensures Valid() && ScanOperator(input, old(position)) == Scanned(Some(Operator(op)), position)
    {
      var c := input[position];
      position := position + 1;
      if position < |input| {
        var c2 := input[position];
        assert input[position - 1..position + 1] == [c, c2];
        if (c == '>' && c2 == '=') || (c == '<' && c2 == '=') || (c == '!' && c2 == '=') || (c == '<' && c2 == '>') {
          position := position + 1;
          return [c, c2];
        }
      }
      op := [c];
    }

    method ScanTextValue() returns (text: Option<string>)
      requires Valid() && position < |input|
      modifies this`position
      ensures Valid()
      ensures ScanText(input, old(position)) ==
                Scanned(match text case Some(s) => Some(Text(s)) case None => None, position)
    {
      position := position + 1;
      var start := position;
      var s := "";
      while position < |input|
        invariant start <= position <= |input| && s == input[start..position]
        invariant EndOf(input, position, NotQuote) == EndOf(input, start, NotQuote)
      {
        if input[position] == '\'' {
          position := position + 1;
          return Some(s);
        }
        s := s + [input[position]];
        position := position + 1;
      }
      text := None;
    }
  }
}
