/** The recursive-descent parser for queries (parse/parser.go), as functions of the lexer's state and as
    methods that drive the lexer. */
module Parsers {
  import opened Options
  import opened Lexers
  import opened Queries

  /** A parsed value and the lexer's state behind it, or a syntax error. */
  datatype Parsed<T> = Ok(value: T, st: State) | Err

  predicate MatchKeyword(st: State, w: string) {
    st.token == Word(w)
  }

  predicate MatchId(st: State) {
    st.token.Word? && st.token.s !in KEYWORDS
  }

  function ParseId(input: string, st: State): (r: Parsed<string>)
    requires st.position <= |input|
    ensures r.Ok? ==> st.position <= r.st.position <= |input| && (r.st.token != Eof ==> st.position < r.st.position)
  {
    if MatchId(st) && AdvanceOk(input, st) then Ok(st.token.s, Advance(input, st)) else Err
  }

  /** A constant.  An error behind a boolean or a date is passed over, and the value lost. */
  function ParseConstant(input: string, st: State): (r: Parsed<Expression>)
    requires st.position <= |input|
    ensures r.Ok? ==> st.position <= r.st.position <= |input| && (r.st.token.Word? ==> st.position < r.st.position)
  {
    var st' := Advance(input, st);
    var ok := AdvanceOk(input, st);
    match st.token
    case Text(s) => if ok then Ok(TextConst(s), st') else Err
    case Number(n) => if ok then Ok(IntConst(n), st') else Err
    case Boolean(b) => Ok(BoolConst(if ok then b else false), st')
    case Date(d) => Ok(DateConst(if ok then d else DateTime(1, 1, 1, 0, 0, 0)), st')
    case _ => Err
  }

  function ParseExpression(input: string, st: State): (r: Parsed<Expression>)
    requires st.position <= |input|
    ensures r.Ok? ==> st.position <= r.st.position <= |input| && (r.st.token.Word? ==> st.position < r.st.position)
  {
    if MatchId(st) then
      match ParseId(input, st)
      case Ok(name, st') => Ok(Field(name), st')
      case Err => Err
    else ParseConstant(input, st)
  }

  function ParseOperator(input: string, st: State): (r: Parsed<string>)
    requires st.position <= |input|
    ensures r.Ok? ==> st.position <= r.st.position <= |input|
  {
    if st.token.Operator? && AdvanceOk(input, st) then Ok(st.token.s, Advance(input, st)) else Err
  }

  function ParseTerm(input: string, st: State): (r: Parsed<Term>)
    requires st.position <= |input|
    ensures r.Ok? ==> st.position <= r.st.position <= |input| && (r.st.token.Word? ==> st.position < r.st.position)
  {
    match ParseExpression(input, st)
    case Err => Err
    case Ok(lhs, st1) =>
      match ParseOperator(input, st1)
      case Err => Err
      case Ok(op, st2) =>
        match ParseExpression(input, st2)
        case Err => Err
        case Ok(rhs, st3) =>
          match OperatorFromString(op)
          case None => Err
          case Some(o) => Ok(Term(lhs, rhs, o), st3)
  }

  function ParsePredicate(input: string, st: State): (r: Parsed<seq<Term>>)
    requires st.position <= |input|
    ensures r.Ok? ==> r.st.position <= |input|
    decreases |input| - st.position
  {
    match ParseTerm(input, st)
    case Err => Err
    case Ok(t, st1) =>
      if MatchKeyword(st1, "and") then
        match ParsePredicate(input, Advance(input, st1))
        case Err => Err
        case Ok(ts, st2) => Ok([t] + ts, st2)
      else Ok([t], st1)
  }

  /** The select list; a star stands for all fields, and behind a comma for no further ones. */
  function ParseSelectList(input: string, st: State): (r: Parsed<Option<seq<string>>>)
    requires st.position <= |input|
    ensures r.Ok? ==> r.st.position <= |input|
    decreases |input| - st.position
  {
    if st.token == Delimiter('*') then Ok(None, Advance(input, st))
    else
      match ParseId(input, st)
      case Err => Err
      case Ok(f, st1) =>
        if st1.token == Delimiter(',') then
          match ParseSelectList(input, Advance(input, st1))
          case Err => Err
          case Ok(rest, st2) => Ok(Some([f] + (match rest case None => [] case Some(fs) => fs)), st2)
        else Ok(Some([f]), st1)
  }

  function ParseTableList(input: string, st: State): (r: Parsed<seq<string>>)
    requires st.position <= |input|
    ensures r.Ok? ==> r.st.position <= |input|
    decreases |input| - st.position
  {
    match ParseId(input, st)
    case Err => Err
    case Ok(t, st1) =>
      if st1.token == Delimiter(',') then
        match ParseTableList(input, Advance(input, st1))
        case Err => Err
        case Ok(ts, st2) => Ok([t] + ts, st2)
      else Ok([t], st1)
  }

  function ParseWhere(input: string, st: State): (r: Parsed<seq<Term>>)
    requires st.position <= |input|
  {
    if MatchKeyword(st, "where") then ParsePredicate(input, Advance(input, st)) else Ok([], st)
  }

  function ParseFrom(input: string, fields: Option<seq<string>>, st: State): Option<QueryData>
    requires st.position <= |input|
  {
    if MatchKeyword(st, "from") && AdvanceOk(input, st) then
      match ParseTableList(input, Advance(input, st))
      case Err => None
      case Ok(tables, st1) =>
        match ParseWhere(input, st1)
        case Err => None
        case Ok(terms, _) => Some(QueryData(fields, tables, terms))
    else None
  }

  /** A whole query; what is behind it is not looked at. */
  function ParseQuery(input: string): Option<QueryData> {
    var st := Start(input);
    if MatchKeyword(st, "select") && AdvanceOk(input, st) then
      match ParseSelectList(input, Advance(input, st))
      case Err => None
      case Ok(fields, st1) => ParseFrom(input, fields, st1)
    else None
  }

  /** A method's outcome against a function's. */
  ghost predicate Agrees<T(!new)>(r: Option<T>, lex: Lexer, p: Parsed<T>)
    reads lex
  {
    match p
    case Ok(v, st) => r == Some(v) && lex.View() == st
    case Err => r == None
  }

  class Parser {
    const lex: Lexer

    ghost predicate Valid()
      reads this, lex
    {
      lex.Valid()
    }

    constructor (s: string)
      ensures Valid() && fresh(lex) && lex.input == s && lex.View() == Start(s)
    {
      lex := new Lexer(s);
    }

    method EatId() returns (r: Option<string>)
      requires Valid()
      modifies lex
      ensures Valid() && Agrees(r, lex, ParseId(lex.input, old(lex.View())))
    {
      if !lex.currentToken.Word? || lex.currentToken.s in KEYWORDS {
        return None;
      }
      var val := lex.currentToken.s;
      var ok := lex.NextToken();
      r := if ok then Some(val) else None;
    }

    method Constant() returns (r: Option<Expression>)
      requires Valid()
      modifies lex
      ensures Valid() && Agrees(r, lex, ParseConstant(lex.input, old(lex.View())))
    {
      match lex.currentToken {
        case Text(s) => {
          var ok := lex.NextToken();
          r := if ok then Some(TextConst(s)) else None;
        }
        case Number(n) => {
          var ok := lex.NextToken();
          r := if ok then Some(IntConst(n)) else None;
        }
        case Boolean(b) => {
          var ok := lex.NextToken();
          r := Some(BoolConst(if ok then b else false));
        }
        case Date(d) => {
          var ok := lex.NextToken();
          r := Some(DateConst(if ok then d else DateTime(1, 1, 1, 0, 0, 0)));
        }
        case _ => r := None;
      }
    }

    method ReadExpression() returns (r: Option<Expression>)
      requires Valid()
      modifies lex
      ensures Valid() && Agrees(r, lex, ParseExpression(lex.input, old(lex.View())))
    {
      if MatchId(lex.View()) {
        var name := EatId();
        r := if name.Some? then Some(Field(name.value)) else None;
      } else {
        r := Constant();
      }
    }

    method ReadOperator() returns (r: Option<string>)
      requires Valid()
      modifies lex
      ensures Valid() && Agrees(r, lex, ParseOperator(lex.input, old(lex.View())))
    {
      if !lex.currentToken.Operator? {
        return None;
      }
      var op := lex.currentToken.s;
      var ok := lex.NextToken();
      r := if ok then Some(op) else None;
    }

    method ReadTerm() returns (r: Option<Term>)
      requires Valid()
      modifies lex
      ensures Valid() && Agrees(r, lex, ParseTerm(lex.input, old(lex.View())))
    {
      var lhs := ReadExpression();
      if lhs.None? {
        return None;
      }
      var op := ReadOperator();
      if op.None? {
        return None;
      }
      var rhs := ReadExpression();
      if rhs.None? {
        return None;
      }
      var parsedOp := OperatorFromString(op.value);
      r := if parsedOp.Some? then Some(Term(lhs.value, rhs.value, parsedOp.value)) else None;
    }

    method ReadPredicate() returns (r: Option<Predicate>)
      requires Valid()
      modifies lex
      ensures Valid() && (r.Some? ==> fresh(r.value))
      ensures Agrees(if r.Some? then Some(r.value.terms) else None, lex, ParsePredicate(lex.input, old(lex.View())))
      decreases |lex.input| - lex.position
    {
      var first := ReadTerm();
      if first.None? {
        return None;
      }
      var pred := new Predicate([first.value]);
      if MatchKeyword(lex.View(), "and") {
        var _ := lex.NextToken();
        var other := ReadPredicate();
        if other.None? {
          return None;
        }
        pred.ConjoinWith(other.value);
      }
      r := Some(pred);
    }

    method SelectList() returns (r: Option<Option<seq<string>>>)
      requires Valid()
      modifies lex
      ensures Valid() && Agrees(r, lex, ParseSelectList(lex.input, old(lex.View())))
      decreases |lex.input| - lex.position
    {
      if lex.currentToken == Delimiter('*') {
        var _ := lex.NextToken();
        return Some(None);
      }
      var f := EatId();
      if f.None? {
        return None;
      }
      var fields := [f.value];
      if lex.currentToken == Delimiter(',') {
        var _ := lex.NextToken();
        var rest := SelectList();
        if rest.None? {
          return None;
        }
        fields := fields + if rest.value.Some? then rest.value.value else [];
      }
      r := Some(Some(fields));
    }

    method TableList() returns (r: Option<seq<string>>)
      requires Valid()
      modifies lex
      ensures Valid() && Agrees(r, lex, ParseTableList(lex.input, old(lex.View())))
      decreases |lex.input| - lex.position
    {
      var t := EatId();
      if t.None? {
        return None;
      }
      var tables := [t.value];
      if lex.currentToken == Delimiter(',') {
        var _ := lex.NextToken();
        var rest := TableList();
        if rest.None? {
          return None;
        }
        tables := tables + rest.value;
      }
      r := Some(tables);
    }

    method EatKeyword(w: string) returns (ok: bool)
      requires Valid()
      modifies lex
      ensures Valid() && (ok <==> MatchKeyword(old(lex.View()), w) && AdvanceOk(lex.input, old(lex.View())))
      ensures ok ==> lex.View() == Advance(lex.input, old(lex.View()))
    {
      if !MatchKeyword(lex.View(), w) {
        return false;
      }
      ok := lex.NextToken();
    }

    method Query() returns (r: Option<QueryData>)
      requires Valid() && lex.View() == Start(lex.input)
      modifies lex
      ensures r == ParseQuery(lex.input)
    {
      var ok := EatKeyword("select");
      if !ok {
        return None;
      }
      var fields := SelectList();
      if fields.None? {
        return None;
      }
      ok := EatKeyword("from");
      if !ok {
        return None;
      }
      var tables := TableList();
      if tables.None? {
        return None;
      }
      var terms := [];
      if MatchKeyword(lex.View(), "where") {
        var _ := lex.NextToken();
        var pred := ReadPredicate();
        if pred.None? {
          return None;
        }
        terms := pred.value.terms;
      }
      r := Some(QueryData(fields.value, tables.value, terms));
    }
  }
}
