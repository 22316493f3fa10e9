/** The parser accepts nothing but queries: whatever text it accepts, the tokens it reads there, from the first
    one on, are those of the query it returns. */
module Grammar {
  import opened Options
  import opened Lexers
  import opened Queries
  import opened Parsers
  import opened TokenParse

  /** A token, and whether the lexer could go on behind it. */
  datatype Read = Read(token: Token, ok: bool)

  /** Some tokens read one behind the other, and the states in which the lexer stands on them. */
  datatype Path = Path(input: string, states: seq<State>, seen: seq<Read>)

  ghost predicate Followed(p: Path) {
    |p.states| == |p.seen| + 1 && forall k :: 0 <= k < |p.states| ==> ReadAt(p, k)
  }

  ghost predicate ReadAt(p: Path, k: nat)
    requires |p.states| == |p.seen| + 1 && k < |p.states|
  {
    && p.states[k].position <= |p.input|
    && (k < |p.seen| ==>
          && p.states[k].token == p.seen[k].token && AdvanceOk(p.input, p.states[k]) == p.seen[k].ok
          && Advance(p.input, p.states[k]) == p.states[k + 1])
  }

  /** A path from one state to another. */
  ghost predicate Goes(p: Path, input: string, st: State, st': State) {
    Followed(p) && p.input == input && p.states[0] == st && p.states[|p.seen|] == st'
  }

  lemma OneRead(input: string, st: State) returns (p: Path)
    requires st.position <= |input|
    ensures Goes(p, input, st, Advance(input, st)) && p.seen == [Read(st.token, AdvanceOk(input, st))]
  {
    p := Path(input, [st, Advance(input, st)], [Read(st.token, AdvanceOk(input, st))]);
    assert ReadAt(p, 0) && ReadAt(p, 1);
  }

  lemma Onward(p: Path, q: Path, input: string, st: State, st1: State, st2: State) returns (r: Path)
    requires Goes(p, input, st, st1) && Goes(q, input, st1, st2)
    ensures Goes(r, input, st, st2) && r.seen == p.seen + q.seen
  {
    r := Path(input, p.states + q.states[1..], p.seen + q.seen);
    forall k | 0 <= k < |r.states| ensures ReadAt(r, k) {
      if k < |p.seen| {
        assert ReadAt(p, k);
      } else {
        assert ReadAt(q, k - |p.seen|);
      }
    }
  }

  /** All these tokens, and the lexer could go on behind each of them. */
  function Reads(ts: seq<Token>): (rs: seq<Read>)
    ensures |rs| == |ts| && forall i :: 0 <= i < |ts| ==> rs[i] == Read(ts[i], true)
  {
    seq(|ts|, i requires 0 <= i < |ts| => Read(ts[i], true))
  }

  /** A field, or a constant; of a boolean or a date behind which the lexer could not go on the value is lost. */
  predicate ExpressionRead(r: Read, e: Expression) {
    match r.token
    case Word(s) => r.ok && s !in KEYWORDS && e == Field(s)
    case Text(s) => r.ok && e == TextConst(s)
    case Number(n) => r.ok && e == IntConst(n)
    case Boolean(b) => e == BoolConst(r.ok && b)
    case Date(d) => e == DateConst(if r.ok then d else DateTime(1, 1, 1, 0, 0, 0))
    case _ => false
  }

  predicate TermRead(rs: seq<Read>, t: Term) {
    && |rs| == 3 && ExpressionRead(rs[0], t.lhs) && ExpressionRead(rs[2], t.rhs)
    && rs[1].ok && rs[1].token.Operator? && OperatorFromString(rs[1].token.s) == Some(t.op)
  }

  /** Terms with the word and between them. */
  predicate TermsRead(rs: seq<Read>, terms: seq<Term>) {
    && terms != [] && |rs| == 4 * |terms| - 1
    && (forall i :: 0 <= i < |terms| ==> TermRead(rs[4 * i..4 * i + 3], terms[i]))
    && forall i :: 1 <= i < |terms| ==> rs[4 * i - 1] == Read(Word("and"), true)
  }

  /** A condition, or none. */
  predicate WhereRead(rs: seq<Read>, terms: seq<Term>) {
    if rs == [] then terms == [] else rs[0] == Read(Word("where"), true) && TermsRead(rs[1..], terms)
  }

  /** A star, or names with commas, behind which a star is passed over. */
  predicate FieldsRead(rs: seq<Read>, fields: Option<seq<string>>) {
    match fields
    case None => rs == Reads([Delimiter('*')])
    case Some(names) =>
      names != [] && (rs == Reads(NamesTokens(names)) || rs == Reads(NamesTokens(names) + [COMMA, Delimiter('*')]))
  }

  // What the parts of the parser read.

  lemma IdAccepted(input: string, st: State) returns (p: Path)
    requires st.position <= |input| && ParseId(input, st).Ok?
    ensures var r := ParseId(input, st);
            Goes(p, input, st, r.st) && p.seen == Reads([Word(r.value)]) && st.token == Word(r.value)
            && r.value !in KEYWORDS
  {
    p := OneRead(input, st);
  }

  lemma ExpressionAccepted(input: string, st: State) returns (p: Path)
    requires st.position <= |input| && ParseExpression(input, st).Ok?
    ensures var r := ParseExpression(input, st);
            Goes(p, input, st, r.st) && |p.seen| == 1 && ExpressionRead(p.seen[0], r.value)
  {
    p := OneRead(input, st);
  }

  lemma OperatorAccepted(input: string, st: State) returns (p: Path)
    requires st.position <= |input| && ParseOperator(input, st).Ok?
    ensures var r := ParseOperator(input, st);
            Goes(p, input, st, r.st) && p.seen == Reads([Operator(r.value)])
  {
    p := OneRead(input, st);
  }

  lemma TermAccepted(input: string, st: State) returns (p: Path)
    requires st.position <= |input| && ParseTerm(input, st).Ok?
    ensures var r := ParseTerm(input, st); Goes(p, input, st, r.st) && TermRead(p.seen, r.value)
  {
    var lhs, op, rhs;
    var st1, st2 := TermParts(input, st);
    var t, st3 := ParseTerm(input, st).value, ParseTerm(input, st).st;
    lhs, op, rhs := SidesAccepted(input, st, st1, st2, st3, t);
    p := ThreePaths(input, st, st1, st2, st3, lhs, op, rhs);
  }

  lemma SidesAccepted(input: string, st: State, st1: State, st2: State, st3: State, t: Term)
    returns (lhs: Path, op: Path, rhs: Path)
    requires st.position <= |input| && st1.position <= |input| && st2.position <= |input|
    requires ParseExpression(input, st) == Ok(t.lhs, st1) && ParseExpression(input, st2) == Ok(t.rhs, st3)
    requires ParseOperator(input, st1).Ok? && ParseOperator(input, st1).st == st2
             && OperatorFromString(ParseOperator(input, st1).value) == Some(t.op)
    ensures Goes(lhs, input, st, st1) && Goes(op, input, st1, st2) && Goes(rhs, input, st2, st3)
    ensures TermRead(lhs.seen + op.seen + rhs.seen, t)
  {
    lhs := SideAccepted(input, st, t.lhs, st1);
    op := OpAccepted(input, st1, t.op, st2);
    rhs := SideAccepted(input, st2, t.rhs, st3);
  }

  lemma SideAccepted(input: string, st: State, e: Expression, st': State) returns (p: Path)
    requires st.position <= |input| && ParseExpression(input, st) == Ok(e, st')
    ensures Goes(p, input, st, st') && |p.seen| == 1 && ExpressionRead(p.seen[0], e)
  {
    p := ExpressionAccepted(input, st);
  }

  lemma OpAccepted(input: string, st: State, op: CompareOp, st': State) returns (p: Path)
    requires st.position <= |input| && ParseOperator(input, st).Ok? && ParseOperator(input, st).st == st'
    requires OperatorFromString(ParseOperator(input, st).value) == Some(op)
    ensures Goes(p, input, st, st') && |p.seen| == 1
    ensures p.seen[0].ok && p.seen[0].token.Operator? && OperatorFromString(p.seen[0].token.s) == Some(op)
  {
    p := OperatorAccepted(input, st);
  }

  lemma TermParts(input: string, st: State) returns (st1: State, st2: State)
    requires st.position <= |input| && ParseTerm(input, st).Ok?
    ensures var t := ParseTerm(input, st).value;
            && ParseExpression(input, st) == Ok(t.lhs, st1) && st1.position <= |input| && st2.position <= |input|
            && ParseOperator(input, st1).Ok? && ParseOperator(input, st1).st == st2
            && OperatorFromString(ParseOperator(input, st1).value) == Some(t.op)
            && ParseExpression(input, st2) == Ok(t.rhs, ParseTerm(input, st).st)
  {
    st1 := ParseExpression(input, st).st;
    st2 := ParseOperator(input, st1).st;
  }

  lemma ThreePaths(input: string, st: State, st1: State, st2: State, st3: State, a: Path, b: Path, c: Path)
    returns (p: Path)
    requires Goes(a, input, st, st1) && Goes(b, input, st1, st2) && Goes(c, input, st2, st3)
    ensures Goes(p, input, st, st3) && p.seen == a.seen + b.seen + c.seen
  {
    p := Onward(a, b, input, st, st1, st2);
    p := Onward(p, c, input, st, st2, st3);
  }

  /** When the lexer cannot go on, it stays on its token. */
  lemma WentOn(input: string, st: State)
    requires st.position <= |input| && Advance(input, st).token != st.token
    ensures AdvanceOk(input, st)
  {
  }

  lemma TermBegins(input: string, st: State, w: string)
    requires st.position <= |input| && ParsePredicate(input, st).Ok? && w in KEYWORDS
    ensures st.token != Word(w)
  {
    if st.token == Word(w) {
      KeywordNoTerm(input, st, w);
    }
  }

  lemma {:induction false} TermsAccepted(input: string, st: State) returns (p: Path)
    requires st.position <= |input| && ParsePredicate(input, st).Ok?
    ensures var r := ParsePredicate(input, st);
            Goes(p, input, st, r.st) && TermsRead(p.seen, r.value) && r.st.token != Word("and")
    decreases |input| - st.position
  {
    var t, st1 := FirstTerm(input, st);
    p := TermAccepted(input, st);
    if st1.token == Word("and") {
      var rest := ParsePredicate(input, Advance(input, st1));
      var more := TermsAccepted(input, Advance(input, st1));
      TermsFront(p.seen, t, more.seen, rest.value);
      p := AndPath(input, st, st1, rest.st, p, more);
    } else {
      OneTerm(p.seen, t);
    }
  }

  /** A condition begins with a term; if the word and comes behind it, the others come behind that. */
  lemma FirstTerm(input: string, st: State) returns (t: Term, st1: State)
    requires st.position <= |input| && ParsePredicate(input, st).Ok?
    ensures ParseTerm(input, st) == Ok(t, st1) && st1.position <= |input|
    ensures st1.token == Word("and") ==>
              var rest := ParsePredicate(input, Advance(input, st1));
              && AdvanceOk(input, st1) && rest.Ok? && |input| - Advance(input, st1).position < |input| - st.position
              && ParsePredicate(input, st) == Ok([t] + rest.value, rest.st)
    ensures st1.token != Word("and") ==> ParsePredicate(input, st) == Ok([t], st1)
  {
    t, st1 := ParseTerm(input, st).value, ParseTerm(input, st).st;
    if st1.token == Word("and") {
      TermBegins(input, Advance(input, st1), "and");
      WentOn(input, st1);
    }
  }

  lemma OneTerm(rs: seq<Read>, t: Term)
    requires TermRead(rs, t)
    ensures TermsRead(rs, [t])
  {
    assert rs[4 * 0..4 * 0 + 3] == rs;
  }

  /** The word and between what was read and what is read behind it. */
  lemma AndPath(input: string, st: State, st1: State, st': State, p: Path, more: Path) returns (r: Path)
    requires Goes(p, input, st, st1) && st1.position <= |input| && st1.token == Word("and") && AdvanceOk(input, st1)
    requires Goes(more, input, Advance(input, st1), st')
    ensures Goes(r, input, st, st') && r.seen == p.seen + [Read(Word("and"), true)] + more.seen
  {
    var word := OneRead(input, st1);
    var tail := Onward(word, more, input, st1, Advance(input, st1), st');
    r := Onward(p, tail, input, st, st1, st');
  }

  lemma TermsFront(a: seq<Read>, t: Term, b: seq<Read>, terms: seq<Term>)
    requires TermRead(a, t) && TermsRead(b, terms)
    ensures TermsRead(a + [Read(Word("and"), true)] + b, [t] + terms)
  {
    var rs, all := a + [Read(Word("and"), true)] + b, [t] + terms;
    forall i | 0 <= i < |all| ensures TermRead(rs[4 * i..4 * i + 3], all[i]) {
      if i == 0 {
        assert rs[0..3] == a;
      } else {
        assert rs[4 * i..4 * i + 3] == b[4 * (i - 1)..4 * (i - 1) + 3];
        assert TermRead(b[4 * (i - 1)..4 * (i - 1) + 3], terms[i - 1]);
      }
    }
    forall i | 1 <= i < |all| ensures rs[4 * i - 1] == Read(Word("and"), true) {
      if i > 1 {
        assert rs[4 * i - 1] == b[4 * (i - 1) - 1];
      }
    }
  }

  lemma NamesFront(name: string, names: seq<string>, behind: seq<Token>)
    requires names != []
    ensures Reads(NamesTokens([name] + names) + behind) ==
              Reads([Word(name)]) + (Reads([COMMA]) + Reads(NamesTokens(names) + behind))
  {
    assert ([name] + names)[1..] == names;
    assert NamesTokens([name] + names) + behind == [Word(name)] + ([COMMA] + (NamesTokens(names) + behind));
  }

  lemma {:induction false} TablesAccepted(input: string, st: State) returns (p: Path)
    requires st.position <= |input| && ParseTableList(input, st).Ok?
    ensures var r := ParseTableList(input, st);
            Goes(p, input, st, r.st) && r.value != [] && p.seen == Reads(NamesTokens(r.value)) && st.token.Word?
    decreases |input| - st.position
  {
    p := IdAccepted(input, st);
    var name, st1 := ParseId(input, st).value, ParseId(input, st).st;
    if st1.token == COMMA {
      var st2 := Advance(input, st1);
      var more := TablesAccepted(input, st2);
      var rest := ParseTableList(input, st2);
      WentOn(input, st1);
      p := CommaPath(input, st, st1, rest.st, p, more);
      NamesFront(name, rest.value, []);
      NothingBehind(NamesTokens([name] + rest.value), NamesTokens(rest.value));
    }
  }

  lemma NothingBehind(a: seq<Token>, b: seq<Token>)
    ensures a + [] == a && b + [] == b
  {
  }

  /** A comma between what was read and what is read behind it. */
  lemma CommaPath(input: string, st: State, st1: State, st': State, p: Path, more: Path) returns (r: Path)
    requires Goes(p, input, st, st1) && st1.position <= |input| && st1.token == COMMA && AdvanceOk(input, st1)
    requires Goes(more, input, Advance(input, st1), st')
    ensures Goes(r, input, st, st') && r.seen == p.seen + (Reads([COMMA]) + more.seen)
  {
    var comma := OneRead(input, st1);
    assert comma.seen == Reads([COMMA]);
    var tail := Onward(comma, more, input, st1, Advance(input, st1), st');
    r := Onward(p, tail, input, st, st1, st');
  }

  lemma {:induction false} FieldsAccepted(input: string, st: State) returns (p: Path)
    requires st.position <= |input| && ParseSelectList(input, st).Ok? && ParseSelectList(input, st).st.token.Word?
    ensures var r := ParseSelectList(input, st);
            Goes(p, input, st, r.st) && FieldsRead(p.seen, r.value)
            && (st.token == Delimiter('*') || st.token.Word?)
    decreases |input| - st.position
  {
    if st.token == Delimiter('*') {
      WentOn(input, st);
      p := OneRead(input, st);
      assert p.seen == Reads([Delimiter('*')]);
    } else {
      p := IdAccepted(input, st);
      var name, st1 := ParseId(input, st).value, ParseId(input, st).st;
      if st1.token == COMMA {
        var st2 := Advance(input, st1);
        var more := FieldsAccepted(input, st2);
        var rest := ParseSelectList(input, st2);
        WentOn(input, st1);
        p := CommaPath(input, st, st1, rest.st, p, more);
        FieldsFront(name, more.seen, rest.value);
      }
    }
  }

  lemma FieldsFront(name: string, rs: seq<Read>, fields: Option<seq<string>>)
    requires FieldsRead(rs, fields)
    ensures FieldsRead(Reads([Word(name)]) + (Reads([COMMA]) + rs),
                       Some([name] + match fields case None => [] case Some(names) => names))
  {
    match fields {
      case None =>
        assert Reads([Word(name)]) + (Reads([COMMA]) + rs) == Reads(NamesTokens([name]) + [COMMA, Delimiter('*')]);
        assert [name] + [] == [name];
      case Some(names) =>
        NamesFront(name, names, []);
        NamesFront(name, names, [COMMA, Delimiter('*')]);
        NothingBehind(NamesTokens([name] + names), NamesTokens(names));
    }
  }

  lemma WhereAccepted(input: string, st: State) returns (p: Path)
    requires st.position <= |input| && ParseWhere(input, st).Ok?
    ensures var r := ParseWhere(input, st); Goes(p, input, st, r.st) && WhereRead(p.seen, r.value)
    ensures p.seen == [] ==> st.token != Word("where")
  {
    if MatchKeyword(st, "where") {
      var st1 := Advance(input, st);
      TermBegins(input, st1, "where");
      WentOn(input, st);
      var word := OneRead(input, st);
      var more := TermsAccepted(input, st1);
      p := Onward(word, more, input, st, st1, ParsePredicate(input, st1).st);
      assert p.seen[1..] == more.seen;
    } else {
      p := Path(input, [st], []);
      assert ReadAt(p, 0);
    }
  }

  /** The tokens of a query: select, its fields, from, its tables, and where with its terms if it has any. */
  ghost predicate QueryRead(rs: seq<Read>, q: QueryData) {
    exists f: nat, t: nat :: 1 <= f && f + 1 <= t <= |rs| && QueryReadAt(rs, q, f, t)
  }

  predicate QueryReadAt(rs: seq<Read>, q: QueryData, f: nat, t: nat)
    requires 1 <= f && f + 1 <= t <= |rs|
  {
    && rs[0] == Read(Word("select"), true) && FieldsRead(rs[1..f], q.fields)
    && rs[f] == Read(Word("from"), true) && q.tables != [] && rs[f + 1..t] == Reads(NamesTokens(q.tables))
    && WhereRead(rs[t..], q.terms)
  }

  /** Whatever text is accepted, the tokens from its start on are those of the query; the lexer could go on
      behind each of them, but for the last boolean or date. */
  lemma AcceptedIsQuery(input: string) returns (p: Path, st: State)
    requires ParseQuery(input).Some?
    ensures Goes(p, input, Start(input), st) && QueryRead(p.seen, ParseQuery(input).value)
  {
    var st0, q := Start(input), ParseQuery(input).value;
    var st1 := Advance(input, st0);
    var select := OneRead(input, st0);
    var st2 := ParseSelectList(input, st1).st;
    var fields := FieldsAccepted(input, st1);
    var from := FromAccepted(input, q.fields, st2);
    st := from.states[|from.seen|];
    var head := Onward(select, fields, input, st0, st1, st2);
    p := Onward(head, from, input, st0, st2, st);
    QueryPut(select.seen, fields.seen, from.seen, q);
  }

  /** The tokens from the word from on. */
  ghost predicate FromRead(rs: seq<Read>, q: QueryData) {
    exists t: nat :: 1 <= t <= |rs| && rs[0] == Read(Word("from"), true) && q.tables != []
                     && rs[1..t] == Reads(NamesTokens(q.tables)) && WhereRead(rs[t..], q.terms)
  }

  lemma FromAccepted(input: string, fields: Option<seq<string>>, st: State) returns (p: Path)
    requires st.position <= |input| && ParseFrom(input, fields, st).Some?
    ensures Followed(p) && p.input == input && p.states[0] == st
    ensures FromRead(p.seen, ParseFrom(input, fields, st).value)
  {
    var st1 := Advance(input, st);
    var word := OneRead(input, st);
    var tables := TablesAccepted(input, st1);
    var st2 := ParseTableList(input, st1).st;
    var where := WhereAccepted(input, st2);
    var st3 := ParseWhere(input, st2).st;
    var tail := Onward(tables, where, input, st1, st2, st3);
    p := Onward(word, tail, input, st, st1, st3);
    FromPut(word.seen, tables.seen, where.seen, ParseFrom(input, fields, st).value);
  }

  lemma FromPut(word: seq<Read>, tables: seq<Read>, where: seq<Read>, q: QueryData)
    requires word == [Read(Word("from"), true)] && q.tables != [] && tables == Reads(NamesTokens(q.tables))
    requires WhereRead(where, q.terms)
    ensures FromRead(word + (tables + where), q)
  {
    var rs, t := word + (tables + where), 1 + |tables|;
    assert rs[1..t] == tables && rs[t..] == where;
  }

  lemma QueryPut(select: seq<Read>, fields: seq<Read>, from: seq<Read>, q: QueryData)
    requires select == [Read(Word("select"), true)] && FieldsRead(fields, q.fields) && FromRead(from, q)
    ensures QueryRead((select + fields) + from, q)
  {
    var t: nat :| 1 <= t <= |from| && from[0] == Read(Word("from"), true) && q.tables != []
                  && from[1..t] == Reads(NamesTokens(q.tables)) && WhereRead(from[t..], q.terms);
    QueryPutAt(select, fields, from, q, t);
  }

  lemma SlicesOfThree<T>(a: seq<T>, b: seq<T>, c: seq<T>, t: nat)
    requires |a| == 1 && 1 <= t <= |c|
    ensures var s, k := (a + b) + c, 1 + |b|;
            s[0] == a[0] && s[1..k] == b && s[k] == c[0] && s[k + 1..k + t] == c[1..t] && s[k + t..] == c[t..]
  {
  }

  lemma QueryPutAt(select: seq<Read>, fields: seq<Read>, from: seq<Read>, q: QueryData, t: nat)
    requires select == [Read(Word("select"), true)] && FieldsRead(fields, q.fields)
    requires 1 <= t <= |from| && from[0] == Read(Word("from"), true) && q.tables != []
             && from[1..t] == Reads(NamesTokens(q.tables)) && WhereRead(from[t..], q.terms)
    ensures QueryRead((select + fields) + from, q)
  {
    var rs, f := (select + fields) + from, 1 + |fields|;
    SlicesOfThree(select, fields, from, t);
    QueryReadBy(rs, q, f, f + t, fields, from[t..]);
  }

  lemma QueryReadBy(rs: seq<Read>, q: QueryData, f: nat, t: nat, fields: seq<Read>, where: seq<Read>)
    requires 1 <= f && f + 1 <= t <= |rs| && rs[0] == Read(Word("select"), true) && rs[f] == Read(Word("from"), true)
    requires rs[1..f] == fields && FieldsRead(fields, q.fields) && rs[t..] == where && WhereRead(where, q.terms)
    requires q.tables != [] && rs[f + 1..t] == Reads(NamesTokens(q.tables))
    ensures QueryRead(rs, q)
  {
    assert QueryReadAt(rs, q, f, t);
  }
}
