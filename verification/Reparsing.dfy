/** Which queries survive being printed and parsed again, as view definitions are. */
module Reparsing {
  import opened Options
  import opened Lexers
  import opened Queries
  import opened Parsers
  import opened Scanning
  import opened TokenParse
  import opened SourceTexts
  import opened SourceParse
  import opened ParseRoundTrip

  /** What text holds a quote, or a date as it is printed, says which tokens can come out of it. */
  predicate TokenOk(t: Token, texts: bool, dates: bool) {
    match t
    case Word(s) => LowerWord(s)
    case Number(n) => n < 0x8000_0000_0000_0000
    case Text(s) => texts && NoQuote(s)
    case Date(d) => dates && OnCalendar(d)
    case _ => true
  }

  /** An expression that the parser can make of such tokens. */
  predicate ExpressionOk(e: Expression, texts: bool, dates: bool) {
    Writable(e) && (e.TextConst? ==> texts) && (e.DateConst? ==> dates)
  }

  predicate TermsOk(terms: seq<Term>, texts: bool, dates: bool) {
    forall i :: 0 <= i < |terms| ==>
          ExpressionOk(terms[i].lhs, texts, dates) && ExpressionOk(terms[i].rhs, texts, dates)
  }

  /** Behind every dash the characters of a number go on to a space, and something else comes then: so it is
      in a printed date, whose zone is in the way. */
  predicate DashesOpen(s: string) {
    forall i :: 0 <= i < |s| && s[i] == '-' ==>
      EndOf(s, i, IsNumberChar) < |s| && EndOf(s, i, IsNumberChar) > i && s[EndOf(s, i, IsNumberChar) - 1] == ' '
  }

  ghost predicate Clean(s: string, texts: bool, dates: bool) {
    (texts || NoQuote(s)) && (dates || DashesOpen(s))
  }

  // Tokens.

  /** A date ends in a digit, and has a dash in the middle. */
  lemma DateEnds(s: string)
    requires ParseDate(s).Some?
    ensures |s| >= 10 && s[4] == '-' && IsDigit(s[|s| - 1])
  {
    if |s| == 10 {
      assert s[8..10][1] == s[9];
    } else {
      var t := EndOf(s, 10, IsBlank);
      var h := if t + 1 < |s| && IsDigit(s[t + 1]) then t + 2 else t + 1;
      assert s[h + 4..][1] == s[h + 5];
    }
  }

  lemma StretchEnds(input: string, pos: nat)
    requires pos < |input| && DashesOpen(input)
    ensures var e := EndOf(input, pos, IsNumberChar);
            e - pos >= 10 && input[pos + 4] == '-' ==> input[e - 1] == ' '
  {
    var e := EndOf(input, pos, IsNumberChar);
    if e - pos >= 10 {
      EndIs(input, pos + 4, e, IsNumberChar);
    }
  }

  lemma NumberOk(input: string, pos: nat, texts: bool, dates: bool)
    requires pos < |input| && IsDigit(input[pos]) && (dates || DashesOpen(input))
    ensures ScanNumber(input, pos).token.Some? ==> TokenOk(ScanNumber(input, pos).token.value, texts, dates)
  {
    var e := EndOf(input, pos, IsNumberChar);
    var s := input[pos..e];
    if ParseDate(s).Some? {
      ParsedOnCalendar(s);
      DateEnds(s);
      if !dates {
        StretchEnds(input, pos);
      }
    }
  }

  lemma {:induction false} DecimalBelow(s: string)
    requires AllDigits(s)
    ensures Decimal(s) < Tens(|s|)
    decreases |s|
  {
    if s != "" {
      assert IsDigit(s[|s| - 1]);
      DecimalBelow(s[..|s| - 1]);
    }
  }

  /** Every date that is read is on the calendar. */
  lemma ParsedOnCalendar(s: string)
    requires ParseDate(s).Some?
    ensures OnCalendar(ParseDate(s).value)
  {
    DecimalBelow(s[..4]);
    assert Tens(4) == 10_000;
    CalendarDays(ParseDate(s).value);
  }

  lemma WordOk(input: string, pos: nat)
    requires pos < |input| && (IsLetter(input[pos]) || input[pos] == '_')
    ensures TokenOk(ScanWord(input, pos).token.value, true, true) && !ScanWord(input, pos).token.value.Text?
    ensures !ScanWord(input, pos).token.value.Date?
  {
    var e := EndOf(input, pos, IsWordChar);
    var word := input[pos..e];
    var s := Lower(word);
    if s != "true" && s != "false" {
      forall i | 0 <= i < |s| ensures NameChar(s[i]) {
        assert IsWordChar(word[i]) && s[i] == LowerChar(word[i]);
      }
      assert s[0] == LowerChar(word[0]);
    }
  }

  lemma TextOk(input: string, pos: nat, texts: bool, dates: bool)
    requires pos < |input| && input[pos] == '\'' && (texts || NoQuote(input))
    ensures ScanText(input, pos).token.Some? ==> TokenOk(ScanText(input, pos).token.value, texts, dates)
  {
  }

  lemma ScanOk(input: string, position: nat, texts: bool, dates: bool)
    requires position <= |input| && Clean(input, texts, dates)
    ensures Scan(input, position).token.Some? ==> TokenOk(Scan(input, position).token.value, texts, dates)
  {
    var pos := EndOf(input, position, IsSpace);
    if pos < |input| {
      if input[pos] == '\'' {
        TextOk(input, pos, texts, dates);
      } else if IsDigit(input[pos]) {
        DigitKind(input[pos]);
        NumberOk(input, pos, texts, dates);
      } else if IsLetter(input[pos]) || input[pos] == '_' {
        LetterKind(input[pos]);
        WordOk(input, pos);
      }
    }
  }

  predicate StateOk(input: string, st: State, texts: bool, dates: bool) {
    st.position <= |input| && TokenOk(st.token, texts, dates)
  }

  lemma AdvanceStaysOk(input: string, st: State, texts: bool, dates: bool)
    requires StateOk(input, st, texts, dates) && Clean(input, texts, dates)
    ensures StateOk(input, Advance(input, st), texts, dates)
  {
    ScanOk(input, st.position, texts, dates);
  }

  // What the parser makes of them.

  lemma ExpressionMade(input: string, st: State, texts: bool, dates: bool)
    requires StateOk(input, st, texts, dates) && Clean(input, texts, dates) && ParseExpression(input, st).Ok?
    ensures StateOk(input, ParseExpression(input, st).st, texts, dates)
    ensures ExpressionOk(ParseExpression(input, st).value, texts, dates)
  {
    AdvanceStaysOk(input, st, texts, dates);
  }

  lemma TermMade(input: string, st: State, texts: bool, dates: bool)
    requires StateOk(input, st, texts, dates) && Clean(input, texts, dates) && ParseTerm(input, st).Ok?
    ensures StateOk(input, ParseTerm(input, st).st, texts, dates)
    ensures TermsOk([ParseTerm(input, st).value], texts, dates)
  {
    ExpressionMade(input, st, texts, dates);
    var st1 := ParseExpression(input, st).st;
    AdvanceStaysOk(input, st1, texts, dates);
    ExpressionMade(input, Advance(input, st1), texts, dates);
  }

  lemma {:induction false} PredicateMade(input: string, st: State, texts: bool, dates: bool)
    requires StateOk(input, st, texts, dates) && Clean(input, texts, dates) && ParsePredicate(input, st).Ok?
    ensures TermsOk(ParsePredicate(input, st).value, texts, dates)
    decreases |input| - st.position
  {
    TermMade(input, st, texts, dates);
    var st1 := ParseTerm(input, st).st;
    if MatchKeyword(st1, "and") {
      AdvanceStaysOk(input, st1, texts, dates);
      PredicateMade(input, Advance(input, st1), texts, dates);
    }
  }

  lemma {:induction false} FieldsMade(input: string, st: State, texts: bool, dates: bool)
    requires StateOk(input, st, texts, dates) && Clean(input, texts, dates) && ParseSelectList(input, st).Ok?
    ensures StateOk(input, ParseSelectList(input, st).st, texts, dates)
    ensures ParseSelectList(input, st).value.Some? ==>
              ParseSelectList(input, st).value.value != [] && AreNames(ParseSelectList(input, st).value.value)
    decreases |input| - st.position
  {
    AdvanceStaysOk(input, st, texts, dates);
    if st.token != Delimiter('*') && ParseId(input, st).st.token == Delimiter(',') {
      var st1 := ParseId(input, st).st;
      AdvanceStaysOk(input, st1, texts, dates);
      FieldsMade(input, Advance(input, st1), texts, dates);
    }
  }

  lemma {:induction false} TablesMade(input: string, st: State, texts: bool, dates: bool)
    requires StateOk(input, st, texts, dates) && Clean(input, texts, dates) && ParseTableList(input, st).Ok?
    ensures StateOk(input, ParseTableList(input, st).st, texts, dates)
    ensures ParseTableList(input, st).value != [] && AreNames(ParseTableList(input, st).value)
    decreases |input| - st.position
  {
    AdvanceStaysOk(input, st, texts, dates);
    if ParseId(input, st).st.token == Delimiter(',') {
      var st1 := ParseId(input, st).st;
      AdvanceStaysOk(input, st1, texts, dates);
      TablesMade(input, Advance(input, st1), texts, dates);
    }
  }

  /** Names are names, and texts and dates are in a parsed query only if quotes and dates are in its text. */
  lemma QueryMade(input: string, texts: bool, dates: bool)
    requires Clean(input, texts, dates) && ParseQuery(input).Some?
    ensures WritableQuery(ParseQuery(input).value) && TermsOk(ParseQuery(input).value.terms, texts, dates)
  {
    AdvanceStaysOk(input, State(0, Delimiter(0 as char)), texts, dates);
    var st := Advance(input, Start(input));
    AdvanceStaysOk(input, Start(input), texts, dates);
    FieldsMade(input, st, texts, dates);
    var fields, st1 := ParseSelectList(input, st).value, ParseSelectList(input, st).st;
    assert ParseQuery(input) == ParseFrom(input, fields, st1);
    FromMade(input, fields, st1, texts, dates);
    TermsOkAnyway(ParseQuery(input).value.terms, texts, dates);
  }

  lemma TermsOkAnyway(terms: seq<Term>, texts: bool, dates: bool)
    requires TermsOk(terms, texts, dates)
    ensures TermsOk(terms, true, true)
  {
  }

  lemma FromMade(input: string, fields: Option<seq<string>>, st: State, texts: bool, dates: bool)
    requires StateOk(input, st, texts, dates) && Clean(input, texts, dates) && ParseFrom(input, fields, st).Some?
    ensures var q := ParseFrom(input, fields, st).value;
            q.fields == fields && q.tables != [] && AreNames(q.tables) && TermsOk(q.terms, texts, dates)
  {
    AdvanceStaysOk(input, st, texts, dates);
    TablesMade(input, Advance(input, st), texts, dates);
    var st1 := ParseTableList(input, Advance(input, st)).st;
    if MatchKeyword(st1, "where") {
      AdvanceStaysOk(input, st1, texts, dates);
      PredicateMade(input, Advance(input, st1), texts, dates);
    }
  }

  /** Whatever text the parser accepts, it returns a query that can be written. */
  lemma ParsedIsWritable(input: string)
    requires ParseQuery(input).Some?
    ensures WritableQuery(ParseQuery(input).value)
  {
    QueryMade(input, true, true);
  }

  /** Exactly these queries are what some text means to the parser. */
  lemma MeantIff(q: QueryData)
    ensures (exists input :: ParseQuery(input) == Some(q)) <==> WritableQuery(q)
  {
    if input :| ParseQuery(input) == Some(q) {
      ParsedIsWritable(input);
    }
    if WritableQuery(q) {
      PlainParses(q);
    }
  }

  // What is in a printed query.

  lemma CleanJoin(a: string, b: string, texts: bool, dates: bool)
    requires Clean(a, texts, dates) && Clean(b, texts, dates)
    ensures Clean(a + b, texts, dates)
  {
    if !dates {
      DashesJoin(a, b);
    }
  }

  lemma CleanJoinThree(a: string, b: string, c: string, texts: bool, dates: bool)
    requires Clean(a, texts, dates) && Clean(b, texts, dates) && Clean(c, texts, dates)
    ensures Clean(a + b + c, texts, dates)
  {
    CleanJoin(a, b, texts, dates);
    CleanJoin(a + b, c, texts, dates);
  }

  lemma DashesJoin(a: string, b: string)
    requires DashesOpen(a) && DashesOpen(b)
    ensures DashesOpen(a + b)
  {
    var s := a + b;
    forall i | 0 <= i < |s| && s[i] == '-'
      ensures EndOf(s, i, IsNumberChar) < |s| && EndOf(s, i, IsNumberChar) > i
              && s[EndOf(s, i, IsNumberChar) - 1] == ' '
    {
      if i < |a| {
        EndIs(s, i, EndOf(a, i, IsNumberChar), IsNumberChar);
      } else {
        var e := EndOf(b, i - |a|, IsNumberChar);
        assert forall k :: i <= k < |a| + e ==> s[k] == b[k - |a|];
        EndIs(s, i, |a| + e, IsNumberChar);
      }
    }
  }

  /** Text without quotes and dashes. */
  predicate Bare(s: string) {
    forall i :: 0 <= i < |s| ==> s[i] != '\'' && s[i] != '-'
  }

  lemma BareClean(s: string, texts: bool, dates: bool)
    requires Bare(s)
    ensures Clean(s, texts, dates)
  {
  }

  lemma NameBare(name: string)
    requires IsName(name)
    ensures Bare(name)
  {
    forall i | 0 <= i < |name| ensures name[i] != '\'' && name[i] != '-' {
      assert NameChar(name[i]);
    }
  }

  lemma DigitsBare(s: string)
    requires AllDigits(s)
    ensures Bare(s)
  {
    forall i | 0 <= i < |s| ensures s[i] != '\'' && s[i] != '-' {
      assert IsDigit(s[i]);
    }
  }

  lemma PaddedDigits(n: nat, width: nat)
    ensures AllDigits(Padded(n, width))
  {
  }

  predicate NumberChars(s: string) {
    forall i :: 0 <= i < |s| ==> IsNumberChar(s[i])
  }

  lemma DigitsAreNumberChars(s: string)
    requires AllDigits(s)
    ensures NumberChars(s)
  {
    forall i | 0 <= i < |s| ensures IsNumberChar(s[i]) {
      assert IsDigit(s[i]);
    }
  }

  /** A printed date up to its zone. */
  function DateHead(d: DateTime): string {
    Padded(d.year, 4) + "-" + Padded(d.month, 2) + "-" + Padded(d.day, 2) + " "
    + Padded(d.hour, 2) + ":" + Padded(d.minute, 2) + ":" + Padded(d.second, 2)
  }

  lemma DateHeadChars(d: DateTime)
    ensures NumberChars(DateHead(d))
  {
    PaddedDigits(d.year, 4);
    PaddedDigits(d.month, 2);
    PaddedDigits(d.day, 2);
    PaddedDigits(d.hour, 2);
    PaddedDigits(d.minute, 2);
    PaddedDigits(d.second, 2);
    DigitsAreNumberChars(Padded(d.year, 4));
    DigitsAreNumberChars(Padded(d.month, 2));
    DigitsAreNumberChars(Padded(d.day, 2));
    DigitsAreNumberChars(Padded(d.hour, 2));
    DigitsAreNumberChars(Padded(d.minute, 2));
    DigitsAreNumberChars(Padded(d.second, 2));
  }

  lemma DateClean(d: DateTime, texts: bool, dates: bool)
    ensures Clean(DateText(d), texts, dates)
  {
    DateHeadChars(d);
    ZoneOpen(DateHead(d));
    assert DateText(d) == DateHead(d) + " +0000 UTC";
  }

  lemma ZoneOpen(head: string)
    requires NumberChars(head)
    ensures NoQuote(head + " +0000 UTC") && DashesOpen(head + " +0000 UTC")
  {
    var s := head + " +0000 UTC";
    forall i | 0 <= i < |s| ensures s[i] != '\'' {
      assert i < |head| ==> IsNumberChar(s[i]);
    }
    forall i | 0 <= i < |s| && s[i] == '-'
      ensures EndOf(s, i, IsNumberChar) < |s| && EndOf(s, i, IsNumberChar) > i
              && s[EndOf(s, i, IsNumberChar) - 1] == ' '
    {
      assert i < |head|;
      forall k | i <= k < |head| + 1 ensures IsNumberChar(s[k]) {
        assert k < |head| ==> s[k] == head[k];
      }
      EndIs(s, i, |head| + 1, IsNumberChar);
    }
  }

  /** An expression whose text is clean. */
  predicate CleanSource(e: Expression, dates: bool) {
    match e
    case Field(name) => IsName(name)
    case TextConst(s) => dates && NoQuote(s)
    case _ => true
  }

  lemma ExpressionClean(e: Expression, texts: bool, dates: bool)
    requires CleanSource(e, dates)
    ensures Clean(ExpressionText(e), texts, dates)
  {
    match e {
      case Field(name) => { NameBare(name); BareClean(name, texts, dates); }
      case IntConst(n) => { DigitsBare(DecimalText(n)); BareClean(DecimalText(n), texts, dates); }
      case BoolConst(b) =>
      case TextConst(s) =>
      case DateConst(d) => DateClean(d, texts, dates);
    }
  }

  lemma TermClean(t: Term, texts: bool, dates: bool)
    requires CleanSource(t.lhs, dates) && CleanSource(t.rhs, dates)
    ensures Clean(TermText(t), texts, dates)
  {
    ExpressionClean(t.lhs, texts, dates);
    ExpressionClean(t.rhs, texts, dates);
    var op := " " + OpText(t.op) + " ";
    OpBare(t.op);
    BareClean(op, texts, dates);
    CleanJoinThree(ExpressionText(t.lhs), op, ExpressionText(t.rhs), texts, dates);
    GlueOp(ExpressionText(t.lhs), OpText(t.op), ExpressionText(t.rhs));
  }

  lemma OpBare(op: CompareOp)
    ensures Bare(" " + OpText(op) + " ")
  {
  }

  lemma GlueOp(a: string, op: string, b: string)
    ensures a + " " + op + " " + b == a + (" " + op + " ") + b
  {
  }

  predicate CleanTerms(terms: seq<Term>, dates: bool) {
    forall i :: 0 <= i < |terms| ==> CleanSource(terms[i].lhs, dates) && CleanSource(terms[i].rhs, dates)
  }

  lemma AndClean(a: string, b: string, texts: bool, dates: bool)
    requires Clean(a, texts, dates) && Clean(b, texts, dates)
    ensures Clean(a + " and " + b, texts, dates)
  {
    BareClean(" and ", texts, dates);
    CleanJoinThree(a, " and ", b, texts, dates);
  }

  lemma {:induction false} TermsClean(terms: seq<Term>, texts: bool, dates: bool)
    requires CleanTerms(terms, dates)
    ensures Clean(TermsText(terms), texts, dates)
    decreases |terms|
  {
    if terms == [] {
      BareClean("", texts, dates);
    } else {
      var last := |terms| - 1;
      TermClean(terms[last], texts, dates);
      if last > 0 {
        TermsClean(terms[..last], texts, dates);
        AndClean(TermsText(terms[..last]), TermText(terms[last]), texts, dates);
      }
    }
  }

  lemma {:induction false} CommasBare(names: seq<string>)
    requires AreNames(names)
    ensures Bare(Commas(names))
    decreases |names|
  {
    if names != [] {
      CommasBare(names[..|names| - 1]);
      assert IsName(names[|names| - 1]);
      NameBare(names[|names| - 1]);
    }
  }

  /** The text in front of the condition. */
  function HeadText(q: QueryData): string {
    SelectText(q.fields) + " from " + DropTwo(Commas(q.tables))
  }

  lemma HeadBare(q: QueryData)
    requires WritableQuery(q)
    ensures Bare(HeadText(q))
  {
    CommasBare(q.tables);
    if q.fields.Some? {
      CommasBare(q.fields.value);
    }
  }

  lemma QueryClean(q: QueryData, texts: bool, dates: bool)
    requires WritableQuery(q)
    requires CleanTerms(q.terms, dates)
    ensures Clean(QueryText(q), texts, dates)
  {
    HeadBare(q);
    BareClean(HeadText(q), texts, dates);
    WhereClean(q.terms, texts, dates);
    CleanJoin(HeadText(q), WhereText(q.terms), texts, dates);
    assert QueryText(q) == HeadText(q) + WhereText(q.terms);
  }

  lemma WhereClean(terms: seq<Term>, texts: bool, dates: bool)
    requires CleanTerms(terms, dates)
    ensures Clean(WhereText(terms), texts, dates)
  {
    TermsClean(terms, texts, dates);
    if TermsText(terms) == "" {
      BareClean("", texts, dates);
    } else {
      BehindWhere(TermsText(terms), texts, dates);
    }
  }

  lemma BehindWhere(text: string, texts: bool, dates: bool)
    requires Clean(text, texts, dates)
    ensures Clean(" where " + text, texts, dates)
  {
    BareClean(" where ", texts, dates);
    CleanJoin(" where ", text, texts, dates);
  }

  // The exact condition.

  predicate HasText(terms: seq<Term>) {
    exists i :: 0 <= i < |terms| && (terms[i].lhs.TextConst? || terms[i].rhs.TextConst?)
  }

  /** A query that the parser can return comes back from its printed text exactly when its terms are built
      from fields, integers and booleans.  A printed text has no quotes, so no text constant can come out of
      it; a printed date has its zone behind it, so no date can. */
  lemma RoundTripIff(q: QueryData)
    requires WritableQuery(q)
    ensures ParseQuery(QueryText(q)) == Some(q) <==> PrintableTerms(q.terms)
  {
    if PrintableTerms(q.terms) {
      PrintedQueryParses(q);
    } else if HasText(q.terms) {
      TextsLost(q);
    } else {
      DatesLost(q);
    }
  }

  lemma TextsLost(q: QueryData)
    requires WritableQuery(q) && HasText(q.terms)
    ensures ParseQuery(QueryText(q)) != Some(q)
  {
    AllClean(q.terms, true);
    QueryClean(q, false, true);
    if ParseQuery(QueryText(q)).Some? {
      QueryMade(QueryText(q), false, true);
      TextsOnly(q.terms);
    }
  }

  lemma DatesLost(q: QueryData)
    requires WritableQuery(q) && !HasText(q.terms) && !PrintableTerms(q.terms)
    ensures ParseQuery(QueryText(q)) != Some(q)
  {
    AllClean(q.terms, false);
    QueryClean(q, true, false);
    if ParseQuery(QueryText(q)).Some? {
      QueryMade(QueryText(q), true, false);
      DatesOnly(q.terms);
    }
  }

  lemma AllClean(terms: seq<Term>, dates: bool)
    requires TermsOk(terms, true, true) && (dates || !HasText(terms))
    ensures CleanTerms(terms, dates)
  {
  }

  lemma TextsOnly(terms: seq<Term>)
    requires HasText(terms)
    ensures !TermsOk(terms, false, true)
  {
    var i :| 0 <= i < |terms| && (terms[i].lhs.TextConst? || terms[i].rhs.TextConst?);
  }

  lemma DatesOnly(terms: seq<Term>)
    requires TermsOk(terms, true, true) && !HasText(terms) && !PrintableTerms(terms)
    ensures !TermsOk(terms, true, false)
  {
  }

  /** Hence for whatever was parsed once, as the text of a view is. */
  lemma ReparsesIff(input: string)
    requires ParseQuery(input).Some?
    ensures var q := ParseQuery(input).value; ParseQuery(QueryText(q)) == Some(q) <==> PrintableTerms(q.terms)
  {
    ParsedIsWritable(input);
    RoundTripIff(ParseQuery(input).value);
  }

  /** What a text constant reads as where it comes back as something else: a field, an integer or a
      boolean, by what its text looks like. */
  function ReadAs(e: Expression): Expression {
    if !e.TextConst? then e
    else if IsName(e.s) then Field(e.s)
    else if e.s == "true" || e.s == "false" then BoolConst(e.s == "true")
    else if AllDigits(e.s) && DecimalText(Decimal(e.s)) == e.s then IntConst(Decimal(e.s))
    else e
  }

  function TermsReadAs(terms: seq<Term>): (r: seq<Term>)
    ensures |r| == |terms|
  {
    if terms == [] then []
    else
      var t := terms[|terms| - 1];
      TermsReadAs(terms[..|terms| - 1]) + [Term(ReadAs(t.lhs), ReadAs(t.rhs), t.op)]
  }

  lemma SameExpression(e: Expression)
    ensures ExpressionText(ReadAs(e)) == ExpressionText(e)
  {
  }

  lemma {:induction false} SameTerms(terms: seq<Term>)
    ensures TermsText(TermsReadAs(terms)) == TermsText(terms)
    decreases |terms|
  {
    if terms != [] {
      var last := |terms| - 1;
      SameTerms(terms[..last]);
      SameExpression(terms[last].lhs);
      SameExpression(terms[last].rhs);
      assert TermsReadAs(terms)[..last] == TermsReadAs(terms[..last]);
    }
  }

  /** Text constants that look like identifiers, integers or booleans come back as those. */
  lemma TextsReadAs(q: QueryData)
    requires PrintableQuery(q.(terms := TermsReadAs(q.terms)))
    ensures ParseQuery(QueryText(q)) == Some(q.(terms := TermsReadAs(q.terms)))
  {
    SameTerms(q.terms);
    PrintedQueryParses(q.(terms := TermsReadAs(q.terms)));
  }

  // What a date prints as.

  lemma {:induction false} ZeroDigits(k: nat)
    ensures Digits(0, k) == seq(k, i => '0')
  {
    if k > 0 {
      ZeroDigits(k - 1);
    }
  }

  lemma {:induction false} PaddedIs(n: nat, k: nat)
    requires k >= 1 && High(n, k) == 0
    ensures |DecimalText(n)| <= k && Padded(n, k) == Digits(n, k)
    decreases n
  {
    if n < 10 {
      ZeroDigits(k - 1);
      assert Digits(n, k) == Digits(0, k - 1) + [('0' as int + n % 10) as char];
    } else {
      HighOne(n);
      PaddedIs(n / 10, k - 1);
      GlueZeros(k - |DecimalText(n)|, DecimalText(n / 10), [('0' as int + n % 10) as char]);
    }
  }

  lemma HighOne(n: nat)
    ensures High(n, 1) == n / 10
  {
    assert High(n, 1) == High(n / 10, 0);
  }

  lemma GlueZeros(k: nat, s: string, d: string)
    ensures (seq(k, i => '0') + s) + d == seq(k, i => '0') + (s + d)
  {
  }

  /** A date prints as it could be written, with its time and UTC for its zone behind it. */
  lemma PrintedDate(d: DateTime)
    requires OnCalendar(d)
    ensures var written := DayText(d) + (" " + TimeText(Digits(d.hour, 2), d));
            DateWritten(written, d) && DateText(d) == written + " +0000 UTC"
  {
    PaddedParts(d);
    assert AllBlank(" ") && HourWritten(Digits(d.hour, 2), d.hour);
    GlueDate(DayText(d), Digits(d.hour, 2), Digits(d.minute, 2), Digits(d.second, 2));
  }

  lemma PaddedParts(d: DateTime)
    requires OnCalendar(d)
    ensures DateText(d) == DayText(d) + " " + Digits(d.hour, 2) + ":" + Digits(d.minute, 2) + ":"
                           + Digits(d.second, 2) + " +0000 UTC"
  {
    FourDigits(d.year);
    PaddedIs(d.year, 4);
    PaddedTwo(d.month);
    PaddedTwo(d.day);
    PaddedTwo(d.hour);
    PaddedTwo(d.minute);
    PaddedTwo(d.second);
  }

  lemma PaddedTwo(n: nat)
    requires n < 100
    ensures Padded(n, 2) == Digits(n, 2)
  {
    TwoDigits(n);
    PaddedIs(n, 2);
  }

  lemma GlueDate(day: string, hour: string, minute: string, second: string)
    ensures day + " " + hour + ":" + minute + ":" + second + " +0000 UTC" ==
              day + (" " + (hour + (":" + minute + ":" + second))) + " +0000 UTC"
  {
  }

  // An error that is passed over.

  /** The lexer stands on a token, with this text ahead. */
  ghost predicate OnIts(input: string, st: State, token: Token, tail: string) {
    st.position <= |input| && st.token == token && Ahead(input, st.position) == tail
  }

  lemma WordNext(input: string, st: State, t: Token, word: string, tail: string)
    requires OnIts(input, st, t, word + (" " + tail)) && LowerWord(word) && NotAhead(tail, IsSpace)
    ensures AdvanceOk(input, st) && OnIts(input, Advance(input, st), Word(word), tail)
  {
    CasedReads(word, word);
    WordAhead(input, st.position, word, " ", tail);
  }

  lemma EqualsNext(input: string, st: State, t: Token, tail: string)
    requires OnIts(input, st, t, "=" + (" " + tail)) && NotAhead(tail, IsSpace)
    ensures AdvanceOk(input, st) && OnIts(input, Advance(input, st), Operator("="), tail)
  {
    OperatorAhead(input, st.position, "=", " ", tail);
  }

  lemma TrueNext(input: string, st: State, t: Token, tail: string)
    requires OnIts(input, st, t, "true" + (" " + tail)) && NotAhead(tail, IsSpace)
    ensures AdvanceOk(input, st) && OnIts(input, Advance(input, st), Boolean(true), tail)
  {
    BoolReads("true", true);
    WordAhead(input, st.position, "true", " ", tail);
  }

  lemma DollarNext(input: string, st: State, t: Token)
    requires OnIts(input, st, t, "$")
    ensures !AdvanceOk(input, st) && Advance(input, st).token == t
  {
    assert input[EndOf(input, st.position, IsSpace)] == "$"[0];
  }

  const ENDING := "true" + (" " + "$")

  /** A condition whose constant is followed by a character that starts no token. */
  lemma ConditionPassed(input: string, st: State, field: string)
    requires IsName(field) && OnIts(input, st, Word(field), "=" + (" " + ENDING))
    ensures exists st' :: ParsePredicate(input, st) == Ok([Term(Field(field), BoolConst(false), EQ)], st')
  {
    EqualsNext(input, st, Word(field), ENDING);
    var st1 := Advance(input, st);
    TrueNext(input, st1, Operator("="), "$");
    var st2 := Advance(input, st1);
    DollarNext(input, st2, Boolean(true));
    var st3 := Advance(input, st2);
    assert ParseExpression(input, st) == Ok(Field(field), st1);
    assert ParseExpression(input, st2) == Ok(BoolConst(false), st3);
    assert ParseTerm(input, st) == Ok(Term(Field(field), BoolConst(false), EQ), st3);
    assert ParsePredicate(input, st) == Ok([Term(Field(field), BoolConst(false), EQ)], st3);
  }

  function Condition(field: string): string {
    field + (" " + ("=" + (" " + ENDING)))
  }

  function Tables(field: string, table: string): string {
    table + (" " + ("where" + (" " + Condition(field))))
  }

  lemma NameStarts(name: string, rest: string)
    requires IsName(name)
    ensures NotAhead(name + rest, IsSpace)
  {
    assert NameChar(name[0]);
  }

  lemma TablesPassed(input: string, st: State, fields: Option<seq<string>>, field: string, table: string)
    requires IsName(field) && IsName(table) && OnIts(input, st, Word("from"), Tables(field, table))
    ensures ParseFrom(input, fields, st) == Some(QueryData(fields, [table], [Term(Field(field), BoolConst(false), EQ)]))
  {
    NameStarts(field, " " + ("=" + (" " + ENDING)));
    KeywordsAreWords();
    WordNext(input, st, Word("from"), table, "where" + (" " + Condition(field)));
    var st1 := Advance(input, st);
    WordNext(input, st1, Word(table), "where", Condition(field));
    var st2 := Advance(input, st1);
    WordNext(input, st2, Word("where"), field, "=" + (" " + ENDING));
    ConditionPassed(input, Advance(input, st2), field);
    assert ParseTableList(input, st1) == Ok([table], st2);
  }

  function Unfinished(field: string, table: string): string {
    "select" + (" " + (field + (" " + ("from" + (" " + Tables(field, table))))))
  }

  /** A query with such a condition, such as select a from t where a = true $, is accepted, with false for
      the constant. */
  lemma ErrorPassedOver(field: string, table: string)
    requires IsName(field) && IsName(table)
    ensures ParseQuery(Unfinished(field, table)) ==
              Some(QueryData(Some([field]), [table], [Term(Field(field), BoolConst(false), EQ)]))
  {
    var input := Unfinished(field, table);
    var t1 := "from" + (" " + Tables(field, table));
    KeywordsAreWords();
    NameStarts(field, " " + t1);
    NothingSkipped(input, "select", " " + (field + (" " + t1)));
    var st := State(0, Delimiter(0 as char));
    WordNext(input, st, st.token, "select", field + (" " + t1));
    var st0 := Start(input);
    WordNext(input, st0, Word("select"), field, t1);
    FieldPassed(input, Advance(input, st0), field, table);
  }

  lemma FieldPassed(input: string, st: State, field: string, table: string)
    requires IsName(field) && IsName(table) && OnIts(input, st, Word(field), "from" + (" " + Tables(field, table)))
    ensures ParseSelectList(input, st).Ok? && ParseSelectList(input, st).value == Some([field])
    ensures ParseFrom(input, Some([field]), ParseSelectList(input, st).st) ==
              Some(QueryData(Some([field]), [table], [Term(Field(field), BoolConst(false), EQ)]))
  {
    KeywordsAreWords();
    NameStarts(table, " " + ("where" + (" " + Condition(field))));
    WordNext(input, st, Word(field), "from", Tables(field, table));
    var st1 := Advance(input, st);
    assert ParseSelectList(input, st) == Ok(Some([field]), st1);
    TablesPassed(input, st1, Some([field]), field, table);
  }
}
