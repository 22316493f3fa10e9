/** Printing a query and parsing the text gives the query back: what is printed is one way to write it. */
module ParseRoundTrip {
  import opened Options
  import opened Lexers
  import opened Queries
  import opened Parsers
  import opened TokenParse
  import opened SourceTexts
  import opened SourceParse

  /** Fields, non-negative integers of 64 bits, and booleans. */
  predicate Printable(e: Expression) {
    match e
    case Field(name) => IsName(name)
    case IntConst(n) => n < 0x8000_0000_0000_0000
    case BoolConst(_) => true
    case _ => false
  }

  predicate PrintableTerms(terms: seq<Term>) {
    forall i :: 0 <= i < |terms| ==> Printable(terms[i].lhs) && Printable(terms[i].rhs)
  }

  predicate PrintableQuery(q: QueryData) {
    && (q.fields.Some? ==> q.fields.value != [] && AreNames(q.fields.value))
    && q.tables != [] && AreNames(q.tables) && PrintableTerms(q.terms)
  }

  // The pieces that are printed.

  function NamesPieces(names: seq<string>, gap: string): seq<Piece> {
    if names == [] then []
    else if |names| == 1 then [Piece(names[0], gap)]
    else [Piece(names[0], ""), Piece(",", " ")] + NamesPieces(names[1..], gap)
  }

  function TermPieces(t: Term, gap: string): seq<Piece> {
    [Piece(ExpressionText(t.lhs), " "), Piece(OpText(t.op), " "), Piece(ExpressionText(t.rhs), gap)]
  }

  function TermsPieces(terms: seq<Term>): seq<Piece> {
    if terms == [] then []
    else if |terms| == 1 then TermPieces(terms[0], "")
    else TermPieces(terms[0], " ") + ([Piece("and", " ")] + TermsPieces(terms[1..]))
  }

  function WherePieces(terms: seq<Term>): seq<Piece> {
    if terms == [] then [] else [Piece("where", " ")] + TermsPieces(terms)
  }

  function FieldsPieces(fields: Option<seq<string>>): seq<Piece> {
    match fields
    case None => [Piece("*", " ")]
    case Some(names) => NamesPieces(names, " ")
  }

  function TablesGap(q: QueryData): string {
    if q.terms != [] then " " else ""
  }

  function FromPieces(q: QueryData): seq<Piece> {
    [Piece("from", " ")] + (NamesPieces(q.tables, TablesGap(q)) + WherePieces(q.terms))
  }

  function QueryPieces(q: QueryData): seq<Piece> {
    [Piece("select", " ")] + (FieldsPieces(q.fields) + FromPieces(q))
  }

  // They make up the printed text.

  lemma {:induction false} TextJoin(a: seq<Piece>, b: seq<Piece>)
    ensures PiecesText(a + b) == PiecesText(a) + PiecesText(b)
    decreases |a|
  {
    if a == [] {
      assert a + b == b;
    } else {
      assert (a + b)[1..] == a[1..] + b;
      TextJoin(a[1..], b);
      assert PiecesText(a + b) == a[0].text + (a[0].gap + (PiecesText(a[1..]) + PiecesText(b)));
    }
  }

  /** A piece in front. */
  lemma Lead(p: Piece, rest: seq<Piece>)
    ensures PiecesText([p] + rest) == p.text + (p.gap + PiecesText(rest))
  {
    assert ([p] + rest)[1..] == rest;
  }

  lemma TwoLead(p: Piece, r: Piece, rest: seq<Piece>)
    ensures PiecesText([p, r] + rest) == p.text + (p.gap + (r.text + (r.gap + PiecesText(rest))))
  {
    assert [p, r] + rest == [p] + ([r] + rest);
    Lead(p, [r] + rest);
    Lead(r, rest);
  }

  lemma OnePiece(p: Piece)
    ensures PiecesText([p]) == p.text + p.gap
  {
    assert PiecesText([p][1..]) == "";
  }

  lemma {:induction false} CommasFront(names: seq<string>)
    requires names != []
    ensures Commas(names) == names[0] + ", " + Commas(names[1..])
    decreases |names|
  {
    var last := |names| - 1;
    if last > 0 {
      CommasFront(names[..last]);
      assert names[..last][1..] == names[1..][..last - 1];
      assert Commas(names[1..]) == Commas(names[1..][..last - 1]) + names[last] + ", ";
    }
  }

  lemma {:induction false} NamesText(names: seq<string>, gap: string)
    requires names != []
    ensures PiecesText(NamesPieces(names, gap)) == DropTwo(Commas(names)) + gap
    decreases |names|
  {
    CommasFront(names);
    if |names| == 1 {
      assert Commas(names) == names[0] + ", ";
      OnePiece(Piece(names[0], gap));
    } else {
      var more := NamesPieces(names[1..], gap);
      NamesText(names[1..], gap);
      EndsInComma(names[1..]);
      TwoLead(Piece(names[0], ""), Piece(",", " "), more);
      GlueNames(names[0], Commas(names[1..]), gap);
    }
  }

  lemma GlueNames(a: string, rest: string, gap: string)
    requires |rest| >= 2
    ensures a + ("" + ("," + (" " + (DropTwo(rest) + gap)))) == DropTwo(a + ", " + rest) + gap
  {
    assert DropTwo(a + ", " + rest) == a + ", " + DropTwo(rest);
  }

  lemma TermPiecesText(t: Term, gap: string)
    ensures PiecesText(TermPieces(t, gap)) == TermText(t) + gap
  {
    var ps := TermPieces(t, gap);
    assert ps == [ps[0]] + ([ps[1]] + [ps[2]]);
    Lead(ps[0], [ps[1]] + [ps[2]]);
    Lead(ps[1], [ps[2]]);
    OnePiece(ps[2]);
    GlueTerm(ExpressionText(t.lhs), OpText(t.op), ExpressionText(t.rhs), gap);
  }

  lemma GlueTerm(a: string, op: string, b: string, gap: string)
    ensures a + (" " + (op + (" " + (b + gap)))) == (a + " " + op + " " + b) + gap
  {
  }

  lemma {:induction false} TermsFront(terms: seq<Term>)
    requires |terms| > 1
    ensures TermsText(terms) == TermText(terms[0]) + " and " + TermsText(terms[1..])
    decreases |terms|
  {
    var last := |terms| - 1;
    if last > 1 {
      TermsFront(terms[..last]);
      assert terms[..last][1..] == terms[1..][..last - 1];
      GlueFront(TermText(terms[0]), TermsText(terms[1..][..last - 1]), TermText(terms[last]));
    } else {
      assert terms[..1] == [terms[0]] && terms[1..] == [terms[1]];
    }
  }

  lemma GlueFront(a: string, b: string, c: string)
    ensures (a + " and " + b) + " and " + c == a + " and " + (b + " and " + c)
  {
  }

  lemma GlueTerms(t: string, rest: string)
    ensures (t + " ") + ("and" + (" " + rest)) == t + " and " + rest
  {
  }

  lemma {:induction false} TermsPiecesText(terms: seq<Term>)
    ensures PiecesText(TermsPieces(terms)) == TermsText(terms)
    decreases |terms|
  {
    if |terms| == 1 {
      TermPiecesText(terms[0], "");
    } else if |terms| > 1 {
      TermsPiecesText(terms[1..]);
      TermsFront(terms);
      TermPiecesText(terms[0], " ");
      Lead(Piece("and", " "), TermsPieces(terms[1..]));
      TextJoin(TermPieces(terms[0], " "), [Piece("and", " ")] + TermsPieces(terms[1..]));
      GlueTerms(TermText(terms[0]), TermsText(terms[1..]));
    }
  }

  lemma TermsNotEmpty(terms: seq<Term>)
    requires terms != []
    ensures TermsText(terms) != ""
  {
    var t := terms[|terms| - 1];
    assert |TermText(t)| >= 1;
  }

  lemma WherePiecesText(q: QueryData)
    ensures TablesGap(q) + PiecesText(WherePieces(q.terms)) == WhereText(q.terms)
  {
    if q.terms != [] {
      TermsNotEmpty(q.terms);
      TermsPiecesText(q.terms);
      Lead(Piece("where", " "), TermsPieces(q.terms));
      GlueWhere(TermsText(q.terms));
    }
  }

  lemma GlueWhere(t: string)
    ensures " " + ("where" + (" " + t)) == " where " + t
  {
  }

  lemma FromText(q: QueryData)
    requires q.tables != []
    ensures PiecesText(FromPieces(q)) == "from " + DropTwo(Commas(q.tables)) + WhereText(q.terms)
  {
    var names, conditions := NamesPieces(q.tables, TablesGap(q)), WherePieces(q.terms);
    Lead(Piece("from", " "), names + conditions);
    TextJoin(names, conditions);
    NamesText(q.tables, TablesGap(q));
    WherePiecesText(q);
    GlueFrom(DropTwo(Commas(q.tables)), TablesGap(q), PiecesText(conditions));
  }

  lemma GlueFrom(t: string, gap: string, w: string)
    ensures "from" + (" " + ((t + gap) + w)) == "from " + t + (gap + w)
  {
  }

  lemma FieldsText(fields: Option<seq<string>>)
    requires fields != Some([])
    ensures "select " + PiecesText(FieldsPieces(fields)) == SelectText(fields) + " "
  {
    if fields.Some? {
      NamesText(fields.value, " ");
      EndsInComma(fields.value);
    } else {
      OnePiece(Piece("*", " "));
    }
  }

  lemma GlueQuery(f: string, select: string, t: string, w: string)
    requires "select " + f == select + " "
    ensures "select" + (" " + (f + ("from " + t + w))) == select + " from " + t + w
  {
    assert "select" + (" " + (f + ("from " + t + w))) == ("select " + f) + ("from " + t + w);
  }

  lemma QueryPiecesText(q: QueryData)
    requires q.tables != [] && q.fields != Some([])
    ensures PiecesText(QueryPieces(q)) == QueryText(q)
  {
    var fields, from := FieldsPieces(q.fields), FromPieces(q);
    Lead(Piece("select", " "), fields + from);
    TextJoin(fields, from);
    FromText(q);
    FieldsText(q.fields);
    GlueQuery(PiecesText(fields), SelectText(q.fields), DropTwo(Commas(q.tables)), WhereText(q.terms));
  }

  // They are a way to write the query.

  lemma SpelledJoin(pa: seq<Piece>, a: seq<Want>, pb: seq<Piece>, b: seq<Want>)
    requires Spelled(pa, a) && Spelled(pb, b)
    requires a != [] && b != [] ==> pa[|a| - 1].gap != "" || !Wordy(a[|a| - 1]) || !Wordlike(b[0])
    ensures Spelled(pa + pb, a + b)
  {
    var ps, ws := pa + pb, a + b;
    forall i | 0 <= i < |ws| ensures Writes(ps[i].text, ws[i]) && GapOk(ps[i].gap, ws, i) {
      if i < |a| {
        assert Writes(pa[i].text, a[i]) && GapOk(pa[i].gap, a, i);
      } else {
        assert Writes(pb[i - |a|].text, b[i - |a|]) && GapOk(pb[i - |a|].gap, b, i - |a|);
      }
    }
  }

  lemma WordSpelled(w: string, ps: seq<Piece>, ws: seq<Want>)
    requires Spelled(ps, ws)
    ensures Spelled([Piece(w, " ")] + ps, [Letters(w)] + ws)
  {
    SpelledJoin([Piece(w, " ")], [Letters(w)], ps, ws);
  }

  lemma {:induction false} NamesSpelled(names: seq<string>, gap: string)
    requires gap == "" || gap == " "
    ensures Spelled(NamesPieces(names, gap), NamesWants(names))
    ensures names != [] ==>
              var ps := NamesPieces(names, gap); ps != [] && ps[|ps| - 1].gap == gap
    decreases |names|
  {
    if |names| > 1 {
      NamesSpelled(names[1..], gap);
      var front, wants := [Piece(names[0], ""), Piece(",", " ")], [Letters(names[0]), Mark(',')];
      assert Spelled(front, wants);
      SpelledJoin(front, wants, NamesPieces(names[1..], gap), NamesWants(names[1..]));
    }
  }

  lemma {:induction false} DecimalWritten(n: nat)
    ensures IntWritten(DecimalText(n), n)
    decreases n
  {
    var s := DecimalText(n);
    if n >= 10 {
      DecimalWritten(n / 10);
      assert Digits(n, |s|) == Digits(n / 10, |s| - 1) + [('0' as int + n % 10) as char];
      assert High(n, |s|) == High(n / 10, |s| - 1);
    } else {
      assert Digits(n, 1) == Digits(n / 10, 0) + [('0' as int + n % 10) as char];
      assert High(n, 1) == High(n / 10, 0);
    }
  }

  lemma ExpressionWritten(e: Expression)
    requires Printable(e)
    ensures Writes(ExpressionText(e), ExpressionWant(e))
  {
    if e.IntConst? {
      DecimalWritten(e.n);
    }
  }

  lemma TermSpelled(t: Term, gap: string)
    requires Printable(t.lhs) && Printable(t.rhs) && (gap == "" || gap == " ")
    ensures Spelled(TermPieces(t, gap), TermWants(t))
  {
    ExpressionWritten(t.lhs);
    ExpressionWritten(t.rhs);
    var ps, ws := TermPieces(t, gap), TermWants(t);
    forall i | 0 <= i < |ws| ensures Writes(ps[i].text, ws[i]) && GapOk(ps[i].gap, ws, i) {
    }
  }

  lemma {:induction false} TermsSpelled(terms: seq<Term>)
    requires PrintableTerms(terms)
    ensures Spelled(TermsPieces(terms), TermsWants(terms))
    decreases |terms|
  {
    if |terms| == 1 {
      TermSpelled(terms[0], "");
    } else if |terms| > 1 {
      TermsSpelled(terms[1..]);
      TermSpelled(terms[0], " ");
      WordSpelled("and", TermsPieces(terms[1..]), TermsWants(terms[1..]));
      SpelledJoin(TermPieces(terms[0], " "), TermWants(terms[0]), [Piece("and", " ")] + TermsPieces(terms[1..]),
                  [Letters("and")] + TermsWants(terms[1..]));
    }
  }

  lemma FromSpelled(q: QueryData)
    requires PrintableQuery(q)
    ensures Spelled(FromPieces(q), FromWants(q))
  {
    TermsSpelled(q.terms);
    WordSpelled("where", TermsPieces(q.terms), TermsWants(q.terms));
    NamesSpelled(q.tables, TablesGap(q));
    SpelledJoin(NamesPieces(q.tables, TablesGap(q)), NamesWants(q.tables), WherePieces(q.terms), WhereWants(q.terms));
    WordSpelled("from", NamesPieces(q.tables, TablesGap(q)) + WherePieces(q.terms),
                NamesWants(q.tables) + WhereWants(q.terms));
  }

  lemma QuerySpelled(q: QueryData)
    requires PrintableQuery(q)
    ensures Spelled(QueryPieces(q), QueryWants(q))
  {
    FromSpelled(q);
    if q.fields.Some? {
      NamesSpelled(q.fields.value, " ");
    }
    SpelledJoin(FieldsPieces(q.fields), FieldsWants(q.fields), FromPieces(q), FromWants(q));
    WordSpelled("select", FieldsPieces(q.fields) + FromPieces(q), FieldsWants(q.fields) + FromWants(q));
  }

  predicate NoDates(ws: seq<Want>) {
    forall i :: 0 <= i < |ws| ==> !(ws[i].Constant? && ws[i].e.DateConst?)
  }

  lemma {:induction false} NamesNoDates(names: seq<string>)
    ensures NoDates(NamesWants(names))
    decreases |names|
  {
    if |names| > 1 {
      NamesNoDates(names[1..]);
    }
  }

  lemma {:induction false} TermsNoDates(terms: seq<Term>)
    requires PrintableTerms(terms)
    ensures NoDates(TermsWants(terms))
    decreases |terms|
  {
    if terms != [] {
      assert Printable(terms[0].lhs) && Printable(terms[0].rhs);
      assert NoDates(TermWants(terms[0]));
      if |terms| > 1 {
        TermsNoDates(terms[1..]);
      }
    }
  }

  lemma QueryNoDates(q: QueryData)
    requires PrintableQuery(q)
    ensures NoDates(QueryWants(q))
  {
    NamesNoDates(q.tables);
    TermsNoDates(q.terms);
    assert NoDates(WhereWants(q.terms));
    assert NoDates(FromWants(q));
    if q.fields.Some? {
      NamesNoDates(q.fields.value);
    }
  }

  lemma OpRoundTrip(op: CompareOp)
    ensures OperatorFromString(OpText(op)) == Some(op) && OpWritten(OpText(op), op)
  {
  }

  /** Printing and parsing undo each other, for every query over lowercase identifiers, non-negative
      integers and booleans. */
  lemma PrintedQueryParses(q: QueryData)
    requires PrintableQuery(q)
    ensures ParseQuery(QueryText(q)) == Some(q)
  {
    QueryPiecesText(q);
    QuerySpelled(q);
    QueryNoDates(q);
    SourceParses(q, "", QueryPieces(q), "");
    assert "" + (PiecesText(QueryPieces(q)) + "") == PiecesText(QueryPieces(q));
  }

  /** Different queries print differently. */
  lemma PrintingInjective(q: QueryData, r: QueryData)
    requires PrintableQuery(q) && PrintableQuery(r) && QueryText(q) == QueryText(r)
    ensures q == r
  {
    PrintedQueryParses(q);
    PrintedQueryParses(r);
  }
}
