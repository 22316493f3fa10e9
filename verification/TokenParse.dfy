/** What the parser makes of the tokens of a query, when the lexer delivers them all, and when it stops in
    front of a date that it cannot read. */
module TokenParse {
  import opened Options
  import opened Lexers
  import opened Queries
  import opened Parsers

  /** Some tokens, and the states in which the lexer stands on them, one behind the other.  Behind the last
      token comes the end, unless the lexer stops earlier, in front of a date that it cannot read. */
  datatype Tape = Tape(input: string, states: seq<State>, tokens: seq<Token>, end: Token)

  /** The end of the text, or a semicolon. */
  predicate IsEnd(t: Token) {
    t == Eof || t == Delimiter(';')
  }

  /** The lexer gets to the end. */
  predicate Complete(t: Tape) {
    |t.states| == |t.tokens| + 1
  }

  ghost predicate Played(t: Tape) {
    && IsEnd(t.end) && (Complete(t) || 1 <= |t.states| < |t.tokens|)
    && forall k :: 0 <= k < |t.states| ==> Stands(t, k)
  }

  ghost predicate Stands(t: Tape, k: nat)
    requires (Complete(t) || 1 <= |t.states| < |t.tokens|) && k < |t.states|
  {
    var st := t.states[k];
    && st.position <= |t.input| && st.token == (if k < |t.tokens| then t.tokens[k] else t.end)
    && (k + 1 < |t.states| ==> AdvanceOk(t.input, st) && Advance(t.input, st) == t.states[k + 1])
    && (k + 1 == |t.states| && k < |t.tokens| ==> t.tokens[k + 1].Date? && !AdvanceOk(t.input, st))
  }

  /** These are the tokens from k on. */
  ghost predicate From(t: Tape, k: nat, ts: seq<Token>) {
    Played(t) && k < |t.states| && t.tokens[k..] == ts
  }

  /** An identifier that the lexer returns as it is. */
  predicate IsName(s: string) {
    LowerWord(s) && s !in KEYWORDS
  }

  predicate LowerWord(s: string) {
    && s != "" && !IsDigit(s[0]) && (forall i :: 0 <= i < |s| ==> NameChar(s[i]))
    && s != "true" && s != "false"
  }

  predicate NameChar(c: char) {
    'a' <= c <= 'z' || IsDigit(c) || c == '_'
  }

  predicate AreNames(names: seq<string>) {
    forall i :: 0 <= i < |names| ==> IsName(names[i])
  }

  /** Which texts are identifiers. */
  lemma NameIff(s: string)
    ensures IsName(s) <==>
              && s != "" && !('0' <= s[0] <= '9')
              && (forall i :: 0 <= i < |s| ==> 'a' <= s[i] <= 'z' || '0' <= s[i] <= '9' || s[i] == '_')
              && s != "true" && s != "false"
              && s != "select" && s != "from" && s != "where" && s != "and" && s != "insert" && s != "into"
              && s != "values" && s != "delete" && s != "update" && s != "set" && s != "create" && s != "table"
              && s != "int" && s != "varchar" && s != "view" && s != "as" && s != "index" && s != "on"
  {
  }

  predicate OnlyNames(e: Expression) {
    e.Field? ==> IsName(e.name)
  }

  /** The operators written in the terms of a condition, and names for its fields. */
  predicate Conditions(terms: seq<Term>, ops: seq<string>) {
    && |ops| == |terms|
    && forall i :: 0 <= i < |terms| ==>
         OperatorFromString(ops[i]) == Some(terms[i].op) && OnlyNames(terms[i].lhs) && OnlyNames(terms[i].rhs)
  }

  const COMMA := Delimiter(',')

  function NamesTokens(names: seq<string>): seq<Token> {
    if names == [] then []
    else if |names| == 1 then [Word(names[0])]
    else [Word(names[0]), COMMA] + NamesTokens(names[1..])
  }

  function ExpressionToken(e: Expression): Token {
    match e
    case Field(name) => Word(name)
    case IntConst(n) => Number(n)
    case BoolConst(b) => Boolean(b)
    case TextConst(s) => Text(s)
    case DateConst(d) => Date(d)
  }

  function TermTokens(t: Term, op: string): seq<Token> {
    [ExpressionToken(t.lhs), Operator(op), ExpressionToken(t.rhs)]
  }

  function TermsTokens(terms: seq<Term>, ops: seq<string>): seq<Token>
    requires |ops| == |terms|
  {
    if terms == [] then []
    else if |terms| == 1 then TermTokens(terms[0], ops[0])
    else TermTokens(terms[0], ops[0]) + ([Word("and")] + TermsTokens(terms[1..], ops[1..]))
  }

  function WhereTokens(terms: seq<Term>, ops: seq<string>): seq<Token>
    requires |ops| == |terms|
  {
    if terms == [] then [] else [Word("where")] + TermsTokens(terms, ops)
  }

  function FieldsTokens(fields: Option<seq<string>>): seq<Token> {
    match fields
    case None => [Delimiter('*')]
    case Some(names) => NamesTokens(names)
  }

  function FromTokens(q: QueryData, ops: seq<string>): seq<Token>
    requires |ops| == |q.terms|
  {
    [Word("from")] + (NamesTokens(q.tables) + WhereTokens(q.terms, ops))
  }

  function QueryTokens(q: QueryData, ops: seq<string>): seq<Token>
    requires |ops| == |q.terms|
  {
    [Word("select")] + (FieldsTokens(q.fields) + FromTokens(q, ops))
  }

  /** On by one token, behind which no date stands. */
  lemma Take(t: Tape, k: nat, token: Token, rest: seq<Token>)
    requires From(t, k, [token] + rest) && (rest != [] ==> !rest[0].Date?)
    ensures t.states[k].position <= |t.input| && t.states[k].token == token && From(t, k + 1, rest)
    ensures AdvanceOk(t.input, t.states[k]) && Advance(t.input, t.states[k]) == t.states[k + 1]
  {
    TakeAny(t, k, token, rest);
  }

  /** On by one token, unless there is a date behind it that is not read. */
  lemma TakeAny(t: Tape, k: nat, token: Token, rest: seq<Token>)
    requires From(t, k, [token] + rest)
    ensures t.states[k].position <= |t.input| && t.states[k].token == token
    ensures if k + 1 == |t.states| then rest != [] && rest[0].Date? && !AdvanceOk(t.input, t.states[k])
            else From(t, k + 1, rest) && AdvanceOk(t.input, t.states[k])
                 && Advance(t.input, t.states[k]) == t.states[k + 1]
  {
    assert Stands(t, k);
    Behind(t.tokens, k, token, rest);
  }

  lemma Behind(ts: seq<Token>, k: nat, token: Token, rest: seq<Token>)
    requires k <= |ts| && ts[k..] == [token] + rest
    ensures k < |ts| && ts[k] == token && ts[k + 1..] == rest && (rest != [] ==> k + 1 < |ts| && ts[k + 1] == rest[0])
  {
    assert ts[k] == ts[k..][0];
    assert ts[k + 1..] == ts[k..][1..] == rest;
    assert rest != [] ==> ts[k + 1] == ts[k + 1..][0];
  }

  /** What the lexer stands on. */
  lemma Token(t: Tape, k: nat, ts: seq<Token>)
    requires From(t, k, ts)
    ensures t.states[k].position <= |t.input| && t.states[k].token == if ts == [] then t.end else ts[0]
    ensures ts == [] <==> k == |t.tokens|
  {
    assert Stands(t, k);
    if ts != [] {
      Behind(t.tokens, k, ts[0], ts[1..]);
    }
  }

  lemma NamesMore(names: seq<string>, rest: seq<Token>)
    requires |names| > 1
    ensures NamesTokens(names) + rest == [Word(names[0])] + ([COMMA] + (NamesTokens(names[1..]) + rest))
    ensures NamesTokens(names[1..]) != [] && NamesTokens(names[1..])[0] == Word(names[1])
  {
    TwoInFront(Word(names[0]), COMMA, NamesTokens(names[1..]), rest);
  }

  lemma TwoInFront<T>(a: T, b: T, x: seq<T>, y: seq<T>)
    ensures ([a, b] + x) + y == [a] + ([b] + (x + y))
  {
  }

  lemma NamesStart(names: seq<string>)
    requires names != []
    ensures NamesTokens(names) != [] && NamesTokens(names)[0] == Word(names[0])
  {
  }

  lemma IdParses(t: Tape, k: nat, name: string, rest: seq<Token>)
    requires From(t, k, [Word(name)] + rest) && IsName(name) && (rest != [] ==> !rest[0].Date?)
    ensures t.states[k].token.Word? && t.states[k].position <= |t.input| && From(t, k + 1, rest)
    ensures ParseId(t.input, t.states[k]) == Ok(name, t.states[k + 1])
  {
    Take(t, k, Word(name), rest);
  }

  /** A name and a comma. */
  lemma TakeComma(t: Tape, k: nat, names: seq<string>, rest: seq<Token>)
    requires |names| > 1 && IsName(names[0]) && From(t, k, NamesTokens(names) + rest)
    ensures t.states[k].token.Word? && t.states[k].position <= |t.input|
    ensures From(t, k + 2, NamesTokens(names[1..]) + rest) && t.states[k + 1].position <= |t.input|
    ensures ParseId(t.input, t.states[k]) == Ok(names[0], t.states[k + 1])
    ensures t.states[k + 1].token == COMMA && Advance(t.input, t.states[k + 1]) == t.states[k + 2]
  {
    var more := NamesTokens(names[1..]) + rest;
    NamesMore(names, rest);
    IdParses(t, k, names[0], [COMMA] + more);
    Take(t, k + 1, COMMA, more);
  }

  /** The last name of a list. */
  lemma TakeLast(t: Tape, k: nat, names: seq<string>, rest: seq<Token>)
    requires |names| == 1 && IsName(names[0]) && From(t, k, NamesTokens(names) + rest)
    requires rest != [] ==> rest[0].Word?
    ensures t.states[k].token.Word? && t.states[k].position <= |t.input| && From(t, k + 1, rest)
    ensures ParseId(t.input, t.states[k]) == Ok(names[0], t.states[k + 1]) && t.states[k + 1].token != COMMA
  {
    IdParses(t, k, names[0], rest);
    Token(t, k + 1, rest);
  }

  lemma TableMore(input: string, st: State, names: seq<string>, st1: State, st': State)
    requires names != [] && st.position <= |input| && ParseId(input, st) == Ok(names[0], st1)
    requires st1.token == COMMA && st1.position <= |input|
    requires ParseTableList(input, Advance(input, st1)) == Ok(names[1..], st')
    ensures ParseTableList(input, st) == Ok(names, st')
  {
    assert [names[0]] + names[1..] == names;
  }

  lemma TableLast(input: string, st: State, name: string, st1: State)
    requires st.position <= |input| && ParseId(input, st) == Ok(name, st1) && st1.token != COMMA
    ensures ParseTableList(input, st) == Ok([name], st1)
  {
  }

  lemma {:induction false} TablesParse(t: Tape, k: nat, names: seq<string>, rest: seq<Token>) returns (m: nat)
    requires names != [] && AreNames(names) && From(t, k, NamesTokens(names) + rest)
    requires rest != [] ==> rest[0].Word?
    ensures From(t, m, rest) && t.states[k].position <= |t.input|
    ensures ParseTableList(t.input, t.states[k]) == Ok(names, t.states[m])
    decreases |names|
  {
    assert IsName(names[0]);
    if |names| == 1 {
      TakeLast(t, k, names, rest);
      m := k + 1;
      TableLast(t.input, t.states[k], names[0], t.states[m]);
      assert [names[0]] == names;
    } else {
      TakeComma(t, k, names, rest);
      m := TablesParse(t, k + 2, names[1..], rest);
      TableMore(t.input, t.states[k], names, t.states[k + 1], t.states[m]);
    }
  }

  lemma FieldMore(input: string, st: State, names: seq<string>, st1: State, st': State)
    requires names != [] && st.position <= |input| && ParseId(input, st) == Ok(names[0], st1) && st.token.Word?
    requires st1.token == COMMA && st1.position <= |input|
    requires ParseSelectList(input, Advance(input, st1)) == Ok(Some(names[1..]), st')
    ensures ParseSelectList(input, st) == Ok(Some(names), st')
  {
    assert [names[0]] + names[1..] == names;
  }

  lemma FieldLast(input: string, st: State, name: string, st1: State)
    requires st.position <= |input| && ParseId(input, st) == Ok(name, st1) && st.token.Word? && st1.token != COMMA
    ensures ParseSelectList(input, st) == Ok(Some([name]), st1)
  {
  }

  lemma {:induction false} NamesParse(t: Tape, k: nat, names: seq<string>, rest: seq<Token>) returns (m: nat)
    requires names != [] && AreNames(names) && From(t, k, NamesTokens(names) + rest)
    requires rest != [] ==> rest[0].Word?
    ensures From(t, m, rest) && t.states[k].position <= |t.input|
    ensures ParseSelectList(t.input, t.states[k]) == Ok(Some(names), t.states[m])
    decreases |names|
  {
    assert IsName(names[0]);
    if |names| == 1 {
      TakeLast(t, k, names, rest);
      m := k + 1;
      FieldLast(t.input, t.states[k], names[0], t.states[m]);
      assert [names[0]] == names;
    } else {
      TakeComma(t, k, names, rest);
      m := NamesParse(t, k + 2, names[1..], rest);
      FieldMore(t.input, t.states[k], names, t.states[k + 1], t.states[m]);
    }
  }

  lemma FieldsParse(t: Tape, k: nat, fields: Option<seq<string>>, rest: seq<Token>) returns (m: nat)
    requires fields.Some? ==> fields.value != [] && AreNames(fields.value)
    requires From(t, k, FieldsTokens(fields) + rest) && rest != [] && rest[0].Word?
    ensures From(t, m, rest) && t.states[k].position <= |t.input|
    ensures ParseSelectList(t.input, t.states[k]) == Ok(fields, t.states[m])
  {
    if fields.Some? {
      m := NamesParse(t, k, fields.value, rest);
    } else {
      Take(t, k, Delimiter('*'), rest);
      m := k + 1;
    }
  }

  lemma ExpressionParses(t: Tape, k: nat, e: Expression, rest: seq<Token>)
    requires OnlyNames(e) && From(t, k, [ExpressionToken(e)] + rest) && (rest != [] ==> !rest[0].Date?)
    ensures t.states[k].position <= |t.input| && From(t, k + 1, rest)
    ensures ParseExpression(t.input, t.states[k]) == Ok(e, t.states[k + 1])
  {
    Take(t, k, ExpressionToken(e), rest);
  }

  lemma OperatorParses(t: Tape, k: nat, op: string, rest: seq<Token>)
    requires From(t, k, [Operator(op)] + rest)
    ensures t.states[k].position <= |t.input|
    ensures if k + 1 == |t.states| then ParseOperator(t.input, t.states[k]) == Err
            else From(t, k + 1, rest) && ParseOperator(t.input, t.states[k]) == Ok(op, t.states[k + 1])
  {
    TakeAny(t, k, Operator(op), rest);
  }

  /** A keyword is no expression. */
  lemma KeywordNoTerm(input: string, st: State, w: string)
    requires st.position <= |input| && st.token == Word(w) && w in KEYWORDS
    ensures ParsePredicate(input, st) == Err
  {
    assert ParseExpression(input, st) == Err;
    assert ParseTerm(input, st) == Err;
  }

  /** The three tokens of a term, or an error where its right side is a date that is not read. */
  lemma TermParse(t: Tape, k: nat, term: Term, op: string, rest: seq<Token>)
    requires OperatorFromString(op) == Some(term.op) && OnlyNames(term.lhs) && OnlyNames(term.rhs)
    requires From(t, k, TermTokens(term, op) + rest) && (rest != [] ==> rest[0].Word?)
    ensures t.states[k].position <= |t.input|
    ensures if k + 2 == |t.states| then ParseTerm(t.input, t.states[k]) == Err
            else From(t, k + 3, rest) && ParseTerm(t.input, t.states[k]) == Ok(term, t.states[k + 3])
  {
    var tail := [ExpressionToken(term.rhs)] + rest;
    assert TermTokens(term, op) + rest == [ExpressionToken(term.lhs)] + ([Operator(op)] + tail);
    ExpressionParses(t, k, term.lhs, [Operator(op)] + tail);
    OperatorParses(t, k + 1, op, tail);
    if k + 2 == |t.states| {
      TermStops(t.input, t.states[k], term.lhs, t.states[k + 1]);
    } else {
      ExpressionParses(t, k + 2, term.rhs, rest);
      TermOf(t.input, t.states[k], t.states[k + 1], t.states[k + 2], t.states[k + 3], term, op);
    }
  }

  lemma TermStops(input: string, st: State, e: Expression, st1: State)
    requires st.position <= |input| && ParseExpression(input, st) == Ok(e, st1)
    requires st1.position <= |input| && ParseOperator(input, st1) == Err
    ensures ParseTerm(input, st) == Err
  {
  }

  lemma TermOf(input: string, st: State, st1: State, st2: State, st3: State, t: Term, op: string)
    requires st.position <= |input| && ParseExpression(input, st) == Ok(t.lhs, st1)
    requires st1.position <= |input| && ParseOperator(input, st1) == Ok(op, st2)
    requires st2.position <= |input| && ParseExpression(input, st2) == Ok(t.rhs, st3)
    requires OperatorFromString(op) == Some(t.op)
    ensures ParseTerm(input, st) == Ok(t, st3)
  {
  }

  lemma MoreTerms(input: string, st: State, t: Term, rest: seq<Term>, st1: State, st': State)
    requires st.position <= |input| && ParseTerm(input, st) == Ok(t, st1) && st1.token == Word("and")
    requires ParsePredicate(input, Advance(input, st1)) == Ok(rest, st')
    ensures ParsePredicate(input, st) == Ok([t] + rest, st')
  {
  }

  lemma MoreFails(input: string, st: State, t: Term, st1: State)
    requires st.position <= |input| && ParseTerm(input, st) == Ok(t, st1) && st1.token == Word("and")
    requires ParsePredicate(input, Advance(input, st1)) == Err
    ensures ParsePredicate(input, st) == Err
  {
  }

  /** A term in front of what is read behind the word and. */
  lemma TermInFront(t: Tape, st: State, terms: seq<Term>, st1: State)
    requires terms != [] && st.position <= |t.input| && st1.position <= |t.input| && st1.token == Word("and")
    requires ParseTerm(t.input, st) == Ok(terms[0], st1)
    requires TermsRead(t, ParsePredicate(t.input, Advance(t.input, st1)), terms[1..])
    ensures TermsRead(t, ParsePredicate(t.input, st), terms)
  {
    HeadTail(terms);
    var r := ParsePredicate(t.input, Advance(t.input, st1));
    if Complete(t) {
      MoreTerms(t.input, st, terms[0], terms[1..], st1, r.st);
    } else {
      MoreFails(t.input, st, terms[0], st1);
    }
  }

  lemma HeadTail<T>(s: seq<T>)
    requires s != []
    ensures [s[0]] + s[1..] == s
  {
  }

  lemma LastTerm(input: string, st: State, terms: seq<Term>, st1: State)
    requires |terms| == 1 && st.position <= |input| && ParseTerm(input, st) == Ok(terms[0], st1) && IsEnd(st1.token)
    ensures ParsePredicate(input, st) == Ok(terms, st1)
  {
    assert [terms[0]] == terms;
  }

  lemma NoTerm(input: string, st: State)
    requires st.position <= |input| && ParseTerm(input, st) == Err
    ensures ParsePredicate(input, st) == Err
  {
  }

  /** What a condition parses as: all its terms if the lexer gets to the end, else an error. */
  ghost predicate TermsRead(t: Tape, r: Parsed<seq<Term>>, terms: seq<Term>) {
    if Complete(t) then r.Ok? && r.value == terms else r == Err
  }

  /** The terms behind a keyword. */
  lemma {:induction false} TermsParse(t: Tape, k: nat, w: string, terms: seq<Term>, ops: seq<string>)
    requires terms != [] && Conditions(terms, ops) && w in KEYWORDS
    requires From(t, k, [Word(w)] + TermsTokens(terms, ops))
    ensures t.states[k].position <= |t.input|
    ensures TermsRead(t, ParsePredicate(t.input, Advance(t.input, t.states[k])), terms)
    decreases |terms|, 1
  {
    TakeAny(t, k, Word(w), TermsTokens(terms, ops));
    if k + 1 == |t.states| {
      KeywordNoTerm(t.input, Advance(t.input, t.states[k]), w);
    } else {
      TermsFromHere(t, k + 1, terms, ops);
    }
  }

  lemma {:induction false} TermsFromHere(t: Tape, k: nat, terms: seq<Term>, ops: seq<string>)
    requires terms != [] && Conditions(terms, ops) && From(t, k, TermsTokens(terms, ops))
    ensures t.states[k].position <= |t.input| && TermsRead(t, ParsePredicate(t.input, t.states[k]), terms)
    decreases |terms|, 0
  {
    var rest := RestTokens(terms, ops);
    TermsStart(terms, ops);
    TermParse(t, k, terms[0], ops[0], rest);
    if k + 2 == |t.states| {
      NoTerm(t.input, t.states[k]);
    } else {
      Token(t, k + 3, rest);
      if |terms| == 1 {
        LastTerm(t.input, t.states[k], terms, t.states[k + 3]);
      } else {
        TermsParse(t, k + 3, "and", terms[1..], ops[1..]);
        TermInFront(t, t.states[k], terms, t.states[k + 3]);
      }
    }
  }

  /** What comes behind the first term. */
  function RestTokens(terms: seq<Term>, ops: seq<string>): seq<Token>
    requires |ops| == |terms| && terms != []
  {
    if |terms| == 1 then [] else [Word("and")] + TermsTokens(terms[1..], ops[1..])
  }

  lemma TermsStart(terms: seq<Term>, ops: seq<string>)
    requires terms != [] && Conditions(terms, ops)
    ensures TermsTokens(terms, ops) == TermTokens(terms[0], ops[0]) + RestTokens(terms, ops)
    ensures Conditions(terms[1..], ops[1..]) && (RestTokens(terms, ops) == [] <==> |terms| == 1)
    ensures |terms| > 1 ==> RestTokens(terms, ops)[0] == Word("and")
    ensures OperatorFromString(ops[0]) == Some(terms[0].op) && OnlyNames(terms[0].lhs) && OnlyNames(terms[0].rhs)
  {
    if |terms| == 1 {
      assert TermTokens(terms[0], ops[0]) + [] == TermTokens(terms[0], ops[0]);
    }
  }

  lemma WhereParse(t: Tape, k: nat, terms: seq<Term>, ops: seq<string>)
    requires Conditions(terms, ops) && From(t, k, WhereTokens(terms, ops))
    ensures t.states[k].position <= |t.input| && TermsRead(t, ParseWhere(t.input, t.states[k]), terms)
  {
    Token(t, k, WhereTokens(terms, ops));
    if terms != [] {
      TermsParse(t, k, "where", terms, ops);
    }
  }

  lemma FromParse(t: Tape, k: nat, q: QueryData, ops: seq<string>)
    requires q.tables != [] && AreNames(q.tables) && Conditions(q.terms, ops) && From(t, k, FromTokens(q, ops))
    ensures t.states[k].position <= |t.input|
    ensures ParseFrom(t.input, q.fields, t.states[k]) == if Complete(t) then Some(q) else None
  {
    var where := WhereTokens(q.terms, ops);
    NamesStart(q.tables);
    Take(t, k, Word("from"), NamesTokens(q.tables) + where);
    var m := TablesParse(t, k + 1, q.tables, where);
    WhereParse(t, m, q.terms, ops);
    FromOf(t.input, t.states[k], q, t.states[m]);
  }

  lemma FromOf(input: string, st: State, q: QueryData, st1: State)
    requires st.position <= |input| && st.token == Word("from") && AdvanceOk(input, st)
    requires ParseTableList(input, Advance(input, st)) == Ok(q.tables, st1) && st1.position <= |input|
    ensures var r := ParseWhere(input, st1);
            && (r == Err ==> ParseFrom(input, q.fields, st) == None)
            && (r.Ok? && r.value == q.terms ==> ParseFrom(input, q.fields, st) == Some(q))
  {
  }

  /** The tokens of a query parse as the query, if they are all there. */
  lemma QueryParse(t: Tape, q: QueryData, ops: seq<string>)
    requires (q.fields.Some? ==> q.fields.value != [] && AreNames(q.fields.value))
             && q.tables != [] && AreNames(q.tables) && Conditions(q.terms, ops)
    requires From(t, 0, QueryTokens(q, ops)) && t.states[0] == Start(t.input)
    ensures ParseQuery(t.input) == if Complete(t) then Some(q) else None
  {
    var from := FromTokens(q, ops);
    if q.fields.Some? {
      NamesStart(q.fields.value);
    }
    Take(t, 0, Word("select"), FieldsTokens(q.fields) + from);
    var m := FieldsParse(t, 1, q.fields, from);
    FromParse(t, m, q, ops);
  }
}
