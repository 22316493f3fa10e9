/** Parsing a written query gives the query back, unless a date in it is followed by a blank. */
module SourceParse {
  import opened Options
  import opened Lexers
  import opened Queries
  import opened Parsers
  import opened Scanning
  import opened TokenParse
  import opened SourceTexts

  // One piece after the other.

  /** Neither two numbers or dates nor two operators stand side by side. */
  predicate NextOk(w: Want, v: Want) {
    (Numeric(w) ==> !Numeric(v)) && (w.Compare? ==> !v.Compare?)
  }

  predicate AllOk(ws: seq<Want>) {
    forall i :: 0 <= i < |ws| ==> WantOk(ws[i]) && (i + 1 < |ws| ==> NextOk(ws[i], ws[i + 1]))
  }

  lemma GapIsSpace(gap: string, ws: seq<Want>, i: nat)
    requires i < |ws| && GapOk(gap, ws, i)
    ensures AllOf(gap, IsSpace)
  {
    forall j | 0 <= j < |gap| ensures IsSpace(gap[j]) {
      assert IsWhite(gap[j]);
    }
  }

  /** What a piece can begin with. */
  lemma PieceStart(text: string, w: Want)
    requires Writes(text, w) && WantOk(w)
    ensures text != "" && !IsSpace(text[0]) && (!Wordlike(w) ==> !IsWordChar(text[0]))
    ensures (!Numeric(w) ==> !IsNumberChar(text[0])) && (!w.Compare? ==> !IsOperatorEnd(text[0]))
  {
    match w {
      case Letters(s) => { CasedReads(text, s); WordStart(text); }
      case Mark(c) =>
      case Compare(op) => OpStart(text, op);
      case Constant(e) =>
        match e {
          case IntConst(n) => { IntReads(text, n, ""); NumberStart(text); }
          case BoolConst(b) => { BoolReads(text, b); WordStart(text); }
          case TextConst(s) => assert text[0] == '\'';
          case DateConst(d) => { DateNumeric(text, d); NumberStart(text); }
        }
    }
  }

  lemma WordStart(text: string)
    requires IsWord(text)
    ensures !IsSpace(text[0]) && !IsNumberChar(text[0]) && !IsOperatorEnd(text[0])
  {
  }

  lemma NumberStart(text: string)
    requires IsNumeric(text)
    ensures !IsSpace(text[0]) && !IsOperatorEnd(text[0])
  {
  }

  lemma OpStart(text: string, op: CompareOp)
    requires OpWritten(text, op)
    ensures text != "" && !IsSpace(text[0]) && !IsWordChar(text[0]) && !IsNumberChar(text[0])
  {
  }

  /** What comes behind the first piece does not run together with it. */
  lemma TailApart(ps: seq<Piece>, ws: seq<Want>, end: string)
    requires ps != [] && Spelled(ps, ws) && AllOk(ws) && EndsQuery(end)
    ensures AllOf(ps[0].gap, IsSpace) && NotAhead(TextBefore(ps[1..], end), IsSpace)
    ensures Wordy(ws[0]) ==> NotAhead(ps[0].gap + TextBefore(ps[1..], end), IsWordChar)
    ensures Numeric(ws[0]) ==> NotAhead(TextBefore(ps[1..], end), IsNumberChar)
    ensures ws[0].Compare? ==> NotAhead(ps[0].gap + TextBefore(ps[1..], end), IsOperatorEnd)
  {
    GapIsSpace(ps[0].gap, ws, 0);
    if |ps| > 1 {
      PieceStart(ps[1].text, ws[1]);
      assert TextBefore(ps[1..], end)[0] == ps[1].text[0];
    }
    assert ps[0].gap != "" ==> IsSpace(ps[0].gap[0]);
  }

  lemma WordPiece(input: string, p: nat, piece: Piece, w: Want, tail: string)
    requires p <= |input| && Ahead(input, p) == piece.text + (piece.gap + tail) && AllOf(piece.gap, IsSpace)
    requires Writes(piece.text, w) && WantOk(w) && Wordy(w)
    requires NotAhead(piece.gap + tail, IsWordChar) && NotAhead(tail, IsSpace)
    ensures Scan(input, p).token == Some(TokenOf(piece.text, w)) && Ahead(input, Scan(input, p).position) == tail
  {
    if w.Letters? {
      CasedReads(piece.text, w.w);
    } else {
      BoolReads(piece.text, w.e.b);
    }
    WordAhead(input, p, piece.text, piece.gap, tail);
  }

  lemma NumberPiece(input: string, p: nat, piece: Piece, w: Want, tail: string)
    requires p <= |input| && Ahead(input, p) == piece.text + (piece.gap + tail) && AllOf(piece.gap, IsSpace)
    requires Writes(piece.text, w) && WantOk(w) && Numeric(w) && NotAhead(tail, IsNumberChar) && NotAhead(tail, IsSpace)
    ensures if Spoilt(piece, w) then Scan(input, p).token == None
            else Scan(input, p).token == Some(TokenOf(piece.text, w)) && Ahead(input, Scan(input, p).position) == tail
  {
    var blanks := piece.gap[..Blanks(piece.gap)];
    assert AllBlank(blanks);
    if w.e.IntConst? {
      IntReads(piece.text, w.e.n, blanks);
    } else if blanks == "" {
      DateNumeric(piece.text, w.e.d);
      DateReads(piece.text, w.e.d);
      assert piece.text + blanks == piece.text;
    } else {
      DateNumeric(piece.text, w.e.d);
      SpoiltReads(piece.text, w.e.d, blanks);
    }
    NumberAhead(input, p, piece.text, piece.gap, tail);
  }

  lemma OpPiece(input: string, p: nat, piece: Piece, w: Want, tail: string)
    requires p <= |input| && Ahead(input, p) == piece.text + (piece.gap + tail) && AllOf(piece.gap, IsSpace)
    requires Writes(piece.text, w) && w.Compare? && NotAhead(piece.gap + tail, IsOperatorEnd) && NotAhead(tail, IsSpace)
    ensures Scan(input, p).token == Some(TokenOf(piece.text, w)) && Ahead(input, Scan(input, p).position) == tail
  {
    OperatorAhead(input, p, piece.text, piece.gap, tail);
  }

  /** Scanning the first piece gives its token and leaves the others ahead; a spoilt date is an error. */
  lemma PieceScans(input: string, p: nat, ps: seq<Piece>, ws: seq<Want>, end: string)
    requires ps != [] && Spelled(ps, ws) && AllOk(ws) && EndsQuery(end)
    requires p <= |input| && Ahead(input, p) == TextBefore(ps, end)
    ensures if Spoilt(ps[0], ws[0]) then Scan(input, p).token == None
            else Scan(input, p).token == Some(TokenOf(ps[0].text, ws[0]))
                 && Ahead(input, Scan(input, p).position) == TextBefore(ps[1..], end)
  {
    TailApart(ps, ws, end);
    var w, tail := ws[0], TextBefore(ps[1..], end);
    if Wordy(w) {
      WordPiece(input, p, ps[0], w, tail);
    } else if Numeric(w) {
      NumberPiece(input, p, ps[0], w, tail);
    } else if w.Compare? {
      OpPiece(input, p, ps[0], w, tail);
    } else if w.Mark? {
      DelimiterAhead(input, p, w.c, ps[0].gap, tail);
    } else {
      QuotedAhead(input, p, w.e.s, ps[0].gap, tail);
    }
  }

  // All of them.

  function Tokens(ps: seq<Piece>, ws: seq<Want>): (ts: seq<Token>)
    requires |ps| == |ws|
    ensures |ts| == |ws| && forall i :: 0 <= i < |ws| ==> ts[i] == TokenOf(ps[i].text, ws[i])
  {
    seq(|ws|, i requires 0 <= i < |ws| => TokenOf(ps[i].text, ws[i]))
  }

  lemma PlayedMore(input: string, st: State, states: seq<State>, token: Token, tokens: seq<Token>, last: Token)
    requires Played(Tape(input, states, tokens, last)) && st.position <= |input| && st.token == token
    requires AdvanceOk(input, st) && Advance(input, st) == states[0]
    ensures Played(Tape(input, [st] + states, [token] + tokens, last))
    ensures Complete(Tape(input, [st] + states, [token] + tokens, last)) <==>
              Complete(Tape(input, states, tokens, last))
  {
    var t, t' := Tape(input, states, tokens, last), Tape(input, [st] + states, [token] + tokens, last);
    forall k | 0 <= k < |t'.states| ensures Stands(t', k) {
      if k > 0 {
        assert Stands(t, k - 1);
      }
    }
  }

  lemma PlayedLast(input: string, st: State, token: Token, last: Token)
    requires st.position <= |input| && st.token == token && Scan(input, st.position).token == Some(last) && IsEnd(last)
    ensures Played(Tape(input, [st, Advance(input, st)], [token], last))
  {
    var t := Tape(input, [st, Advance(input, st)], [token], last);
    assert Stands(t, 0) && Stands(t, 1);
  }

  lemma PlayedSpoilt(input: string, st: State, tokens: seq<Token>, last: Token)
    requires IsEnd(last) && |tokens| > 1 && st.position <= |input| && st.token == tokens[0] && tokens[1].Date?
    requires Scan(input, st.position).token == None
    ensures Played(Tape(input, [st], tokens, last))
  {
    assert Stands(Tape(input, [st], tokens, last), 0);
  }

  function EndToken(end: string): Token {
    if end == "" then Eof else Delimiter(';')
  }

  lemma EndIsScanned(input: string, p: nat, end: string)
    requires p <= |input| && EndsQuery(end) && Ahead(input, p) == end
    ensures Scan(input, p).token == Some(EndToken(end))
  {
    if end == "" {
      EndScans(input, p);
    } else {
      var q := EndOf(input, p, IsSpace);
      assert input[q] == input[q..][0];
      ScanIsDelimiter(input, p, q, ';');
    }
  }

  /** The lexer stands on the first piece: it goes on to the end, or to a spoilt date. */
  lemma {:induction false} Play(input: string, st: State, ps: seq<Piece>, ws: seq<Want>, end: string)
    returns (states: seq<State>)
    requires ps != [] && Spelled(ps, ws) && AllOk(ws) && !Spoilt(ps[0], ws[0]) && EndsQuery(end)
    requires st.position <= |input| && st.token == TokenOf(ps[0].text, ws[0])
             && Ahead(input, st.position) == TextBefore(ps[1..], end)
    ensures states != [] && states[0] == st && Played(Tape(input, states, Tokens(ps, ws), EndToken(end)))
    ensures Complete(Tape(input, states, Tokens(ps, ws), EndToken(end))) <==> !SpoiltSomewhere(ps, ws)
    decreases |ps|
  {
    var token, rest, wants := TokenOf(ps[0].text, ws[0]), ps[1..], ws[1..];
    TokensFront(ps, ws);
    SpoiltLater(ps, ws);
    if rest == [] {
      EndIsScanned(input, st.position, end);
      states := [st, Advance(input, st)];
      PlayedLast(input, st, token, EndToken(end));
    } else {
      SpelledRest(ps, ws);
      PieceScans(input, st.position, rest, wants, end);
      if Spoilt(rest[0], wants[0]) {
        states := [st];
        PlayedSpoilt(input, st, Tokens(ps, ws), EndToken(end));
      } else {
        var more := Play(input, Advance(input, st), rest, wants, end);
        states := [st] + more;
        PlayedMore(input, st, more, token, Tokens(rest, wants), EndToken(end));
      }
    }
  }

  lemma TokensFront(ps: seq<Piece>, ws: seq<Want>)
    requires ps != [] && |ps| == |ws|
    ensures Tokens(ps, ws) == [TokenOf(ps[0].text, ws[0])] + Tokens(ps[1..], ws[1..])
    ensures |ps| > 1 && ws[1].Constant? && ws[1].e.DateConst? ==> Tokens(ps, ws)[1].Date?
  {
  }

  lemma SpelledRest(ps: seq<Piece>, ws: seq<Want>)
    requires ps != [] && Spelled(ps, ws) && AllOk(ws)
    ensures Spelled(ps[1..], ws[1..]) && AllOk(ws[1..])
  {
    var rest, wants := ps[1..], ws[1..];
    forall i | 0 <= i < |wants| ensures Writes(rest[i].text, wants[i]) && GapOk(rest[i].gap, wants, i) {
      assert Writes(ps[i + 1].text, ws[i + 1]) && GapOk(ps[i + 1].gap, ws, i + 1);
    }
  }

  lemma SpoiltLater(ps: seq<Piece>, ws: seq<Want>)
    requires ps != [] && |ps| == |ws|
    ensures SpoiltSomewhere(ps, ws) <==> Spoilt(ps[0], ws[0]) || SpoiltSomewhere(ps[1..], ws[1..])
  {
    if i :| 0 <= i < |ps| && Spoilt(ps[i], ws[i]) {
      assert i > 0 ==> Spoilt(ps[1..][i - 1], ws[1..][i - 1]);
    }
    if i :| 0 <= i < |ps| - 1 && Spoilt(ps[1..][i], ws[1..][i]) {
      assert Spoilt(ps[i + 1], ws[i + 1]);
    }
  }

  // The wants of a query.

  lemma AllOkJoin(a: seq<Want>, b: seq<Want>)
    requires AllOk(a) && AllOk(b) && (a != [] && b != [] ==> NextOk(a[|a| - 1], b[0]))
    ensures AllOk(a + b)
  {
    var ws := a + b;
    forall i | 0 <= i < |ws| ensures WantOk(ws[i]) && (i + 1 < |ws| ==> NextOk(ws[i], ws[i + 1])) {
      if i < |a| {
        assert WantOk(a[i]);
      } else {
        assert WantOk(b[i - |a|]);
      }
    }
  }

  lemma {:induction false} NamesOk(names: seq<string>)
    requires AreNames(names)
    ensures AllOk(NamesWants(names)) && (names != [] ==> NamesWants(names) != [] && NamesWants(names)[0].Letters?)
    ensures forall i :: 0 <= i < |NamesWants(names)| ==>
              !Numeric(NamesWants(names)[i]) && !NamesWants(names)[i].Compare?
    decreases |names|
  {
    if names != [] {
      assert IsName(names[0]);
      if |names| > 1 {
        NamesOk(names[1..]);
        AllOkJoin([Letters(names[0]), Mark(',')], NamesWants(names[1..]));
      }
    }
  }

  lemma TermOk(t: Term)
    requires Writable(t.lhs) && Writable(t.rhs)
    ensures AllOk(TermWants(t)) && !TermWants(t)[2].Compare?
  {
  }

  lemma KeywordOk(w: string, ws: seq<Want>)
    requires LowerWord(w) && AllOk(ws)
    ensures AllOk([Letters(w)] + ws)
  {
    AllOkJoin([Letters(w)], ws);
  }

  lemma KeywordsAreWords()
    ensures LowerWord("select") && LowerWord("from") && LowerWord("where") && LowerWord("and")
  {
    assert LowerWord("select");
    assert LowerWord("from");
    assert LowerWord("where");
    assert LowerWord("and");
  }

  lemma {:induction false} TermsOk(terms: seq<Term>)
    requires WritableTerms(terms)
    ensures AllOk(TermsWants(terms))
    decreases |terms|
  {
    if terms != [] {
      TermOk(terms[0]);
      if |terms| > 1 {
        TermsOk(terms[1..]);
        KeywordsAreWords();
        KeywordOk("and", TermsWants(terms[1..]));
        AllOkJoin(TermWants(terms[0]), [Letters("and")] + TermsWants(terms[1..]));
      }
    }
  }

  lemma QueryOk(q: QueryData)
    requires WritableQuery(q)
    ensures AllOk(QueryWants(q))
  {
    KeywordsAreWords();
    TermsOk(q.terms);
    KeywordOk("where", TermsWants(q.terms));
    NamesOk(q.tables);
    AllOkJoin(NamesWants(q.tables), WhereWants(q.terms));
    KeywordOk("from", NamesWants(q.tables) + WhereWants(q.terms));
    if q.fields.Some? {
      NamesOk(q.fields.value);
    }
    AllOkJoin(FieldsWants(q.fields), FromWants(q));
    KeywordOk("select", FieldsWants(q.fields) + FromWants(q));
  }

  // Their tokens.

  lemma TokensJoin(ps: seq<Piece>, a: seq<Want>, b: seq<Want>)
    requires |ps| == |a| + |b|
    ensures Tokens(ps, a + b) == Tokens(ps[..|a|], a) + Tokens(ps[|a|..], b)
  {
  }

  lemma {:induction false} NamesTokensAre(ps: seq<Piece>, names: seq<string>)
    requires |ps| == |NamesWants(names)|
    ensures Tokens(ps, NamesWants(names)) == NamesTokens(names)
    decreases |names|
  {
    if |names| > 1 {
      var front := [Letters(names[0]), Mark(',')];
      TokensJoin(ps, front, NamesWants(names[1..]));
      NamesTokensAre(ps[2..], names[1..]);
      assert Tokens(ps[..2], front) == [Word(names[0]), COMMA];
    }
  }

  ghost predicate AllWrite(ps: seq<Piece>, ws: seq<Want>) {
    |ps| == |ws| && forall i :: 0 <= i < |ws| ==> Writes(ps[i].text, ws[i])
  }

  lemma WriteSplit(ps: seq<Piece>, a: seq<Want>, b: seq<Want>)
    requires AllWrite(ps, a + b)
    ensures AllWrite(ps[..|a|], a) && AllWrite(ps[|a|..], b)
    ensures Tokens(ps, a + b) == Tokens(ps[..|a|], a) + Tokens(ps[|a|..], b)
  {
    forall i | 0 <= i < |a| ensures Writes(ps[i].text, a[i]) {
      assert (a + b)[i] == a[i];
    }
    forall i | 0 <= i < |b| ensures Writes(ps[|a| + i].text, b[i]) {
      assert (a + b)[|a| + i] == b[i];
    }
    TokensJoin(ps, a, b);
  }

  lemma TermTokensAre(ps: seq<Piece>, t: Term)
    requires AllWrite(ps, TermWants(t))
    ensures Tokens(ps, TermWants(t)) == TermTokens(t, ps[1].text) && OperatorFromString(ps[1].text) == Some(t.op)
  {
    assert Writes(ps[1].text, TermWants(t)[1]);
  }

  lemma {:induction false} TermsTokensAre(ps: seq<Piece>, terms: seq<Term>) returns (ops: seq<string>)
    requires AllWrite(ps, TermsWants(terms)) && WritableTerms(terms)
    ensures Conditions(terms, ops) && Tokens(ps, TermsWants(terms)) == TermsTokens(terms, ops)
    decreases |terms|
  {
    ops := [];
    if |terms| == 1 {
      TermTokensAre(ps, terms[0]);
      ops := [ps[1].text];
    } else if |terms| > 1 {
      var more := [Letters("and")] + TermsWants(terms[1..]);
      WriteSplit(ps, TermWants(terms[0]), more);
      TermTokensAre(ps[..3], terms[0]);
      WriteSplit(ps[3..], [Letters("and")], TermsWants(terms[1..]));
      var rest := TermsTokensAre(ps[3..][1..], terms[1..]);
      ops := [ps[1].text] + rest;
      assert Tokens(ps[3..][..1], [Letters("and")]) == [Word("and")];
      MoreConditions(terms, ops, rest);
    }
  }

  lemma MoreConditions(terms: seq<Term>, ops: seq<string>, rest: seq<string>)
    requires terms != [] && Conditions(terms[1..], rest) && |ops| == |terms| && ops[1..] == rest
    requires OperatorFromString(ops[0]) == Some(terms[0].op) && OnlyNames(terms[0].lhs) && OnlyNames(terms[0].rhs)
    ensures Conditions(terms, ops)
  {
    forall i | 0 <= i < |terms|
      ensures OperatorFromString(ops[i]) == Some(terms[i].op) && OnlyNames(terms[i].lhs) && OnlyNames(terms[i].rhs)
    {
      if i > 0 {
        assert terms[i] == terms[1..][i - 1] && ops[i] == rest[i - 1];
      }
    }
  }

  lemma WhereTokensAre(ps: seq<Piece>, terms: seq<Term>) returns (ops: seq<string>)
    requires AllWrite(ps, WhereWants(terms)) && WritableTerms(terms)
    ensures Conditions(terms, ops) && Tokens(ps, WhereWants(terms)) == WhereTokens(terms, ops)
  {
    ops := [];
    if terms != [] {
      WriteSplit(ps, [Letters("where")], TermsWants(terms));
      ops := TermsTokensAre(ps[1..], terms);
      assert Tokens(ps[..1], [Letters("where")]) == [Word("where")];
    }
  }

  lemma FromTokensAre(ps: seq<Piece>, q: QueryData) returns (ops: seq<string>)
    requires AllWrite(ps, FromWants(q)) && WritableQuery(q)
    ensures Conditions(q.terms, ops) && Tokens(ps, FromWants(q)) == FromTokens(q, ops)
  {
    var names, where := NamesWants(q.tables), WhereWants(q.terms);
    WriteSplit(ps, [Letters("from")], names + where);
    WriteSplit(ps[1..], names, where);
    NamesTokensAre(ps[1..][..|names|], q.tables);
    ops := WhereTokensAre(ps[1..][|names|..], q.terms);
    assert Tokens(ps[..1], [Letters("from")]) == [Word("from")];
  }

  lemma QueryTokensAre(ps: seq<Piece>, q: QueryData) returns (ops: seq<string>)
    requires AllWrite(ps, QueryWants(q)) && WritableQuery(q)
    ensures Conditions(q.terms, ops) && Tokens(ps, QueryWants(q)) == QueryTokens(q, ops)
  {
    var fields := FieldsWants(q.fields);
    WriteSplit(ps, [Letters("select")], fields + FromWants(q));
    WriteSplit(ps[1..], fields, FromWants(q));
    if q.fields.Some? {
      NamesTokensAre(ps[1..][..|fields|], q.fields.value);
    }
    ops := FromTokensAre(ps[1..][|fields|..], q);
    assert Tokens(ps[1..][..|fields|], fields) == FieldsTokens(q.fields);
    assert Tokens(ps[..1], [Letters("select")]) == [Word("select")];
  }

  /** A written query parses to itself, whatever its case, operators and white space, exactly if no date in it
      is followed by a blank; if one is, the text is an error.  Behind a semicolon there may be anything. */
  lemma SourceParses(q: QueryData, lead: string, ps: seq<Piece>, end: string)
    requires WritableQuery(q) && Spelled(ps, QueryWants(q)) && forall i :: 0 <= i < |lead| ==> IsWhite(lead[i])
    requires EndsQuery(end)
    ensures ParseQuery(lead + (PiecesText(ps) + end)) == if SpoiltSomewhere(ps, QueryWants(q)) then None else Some(q)
  {
    TextBeforeIs(ps, end);
    var input, ws := lead + TextBefore(ps, end), QueryWants(q);
    QueryOk(q);
    StartsOn(input, lead, ps, ws, end);
    var states := Play(input, Start(input), ps, ws, end);
    var ops := QueryTokensAre(ps, q);
    QueryParse(Tape(input, states, Tokens(ps, ws), EndToken(end)), q, ops);
  }

  lemma StartsOn(input: string, lead: string, ps: seq<Piece>, ws: seq<Want>, end: string)
    requires ps != [] && Spelled(ps, ws) && AllOk(ws) && ws[0].Letters? && EndsQuery(end)
    requires input == lead + TextBefore(ps, end)
    requires forall i :: 0 <= i < |lead| ==> IsWhite(lead[i])
    ensures Start(input).token == TokenOf(ps[0].text, ws[0])
    ensures Ahead(input, Start(input).position) == TextBefore(ps[1..], end)
  {
    forall i | 0 <= i < |lead| ensures IsSpace(lead[i]) {
      assert IsWhite(lead[i]);
    }
    PieceStart(ps[0].text, ws[0]);
    assert input[0..] == lead + TextBefore(ps, end);
    AheadGap(input, 0, lead, TextBefore(ps, end));
    PieceScans(input, 0, ps, ws, end);
  }

  // Every such query can be written.

  function PlainText(w: Want): string {
    match w
    case Letters(s) => s
    case Mark(c) => [c]
    case Compare(op) => OpText(op)
    case Constant(e) =>
      match e
      case IntConst(n) => Digits(n, 19)
      case BoolConst(b) => if b then "true" else "false"
      case TextConst(s) => "'" + s + "'"
      case DateConst(d) => DayText(d) + (" " + TimeText(Digits(d.hour, 2), d))
      case Field(name) => name
  }

  /** One way to write it: everything in lower case, a new line behind every piece. */
  function Plain(ws: seq<Want>): (ps: seq<Piece>)
    ensures |ps| == |ws| && forall i :: 0 <= i < |ws| ==> ps[i] == Piece(PlainText(ws[i]), "\n")
  {
    seq(|ws|, i requires 0 <= i < |ws| => Piece(PlainText(ws[i]), "\n"))
  }

  lemma {:induction false} HighBelow(n: nat, k: nat, bound: nat)
    requires n < bound * Tens(k)
    ensures High(n, k) < bound
    decreases k
  {
    if k > 0 {
      assert bound * Tens(k) == 10 * (bound * Tens(k - 1));
      HighBelow(n / 10, k - 1, bound);
    }
  }

  function Tens(k: nat): (t: nat)
  {
    if k == 0 then 1 else 10 * Tens(k - 1)
  }

  lemma NineteenDigits(n: nat)
    requires n < 0x8000_0000_0000_0000
    ensures High(n, 19) == 0
  {
    assert Tens(4) == 10_000;
    assert Tens(8) == 100_000_000;
    assert Tens(12) == 1_000_000_000_000;
    assert Tens(16) == 10_000_000_000_000_000;
    assert Tens(19) == 10_000_000_000_000_000_000;
    HighBelow(n, 19, 1);
  }

  lemma PlainWrites(w: Want)
    requires WantOk(w)
    ensures Writes(PlainText(w), w)
  {
    if w.Constant? {
      if w.e.IntConst? {
        NineteenDigits(w.e.n);
      } else if w.e.DateConst? {
        assert AllBlank(" ") && HourWritten(Digits(w.e.d.hour, 2), w.e.d.hour);
      }
    }
  }

  lemma PlainParses(q: QueryData)
    requires WritableQuery(q)
    ensures ParseQuery(PiecesText(Plain(QueryWants(q)))) == Some(q)
  {
    var ws := QueryWants(q);
    QueryOk(q);
    forall i | 0 <= i < |ws| ensures Writes(Plain(ws)[i].text, ws[i]) {
      PlainWrites(ws[i]);
    }
    SourceParses(q, "", Plain(ws), "");
    assert "" + (PiecesText(Plain(ws)) + "") == PiecesText(Plain(ws));
  }
}
