/** Query text as clients write it, with every freedom of spelling it leaves, and what parsing it gives. */
module SourceTexts {
  import opened Options
  import opened Lexers
  import opened Queries
  import opened Parsers
  import opened Scanning
  import opened TokenParse

  /** What a query is written with: words in any case, a comma or star, a comparison, a constant. */
  datatype Want =
    | Letters(w: string)
    | Mark(c: char)
    | Compare(op: CompareOp)
    | Constant(e: Expression)

  /** A piece of text, and the white space behind it. */
  datatype Piece = Piece(text: string, gap: string)

  function PiecesText(ps: seq<Piece>): string {
    if ps == [] then "" else ps[0].text + (ps[0].gap + PiecesText(ps[1..]))
  }

  /** The same with more text behind it. */
  function TextBefore(ps: seq<Piece>, tail: string): string {
    if ps == [] then tail else ps[0].text + (ps[0].gap + TextBefore(ps[1..], tail))
  }

  lemma {:induction false} TextBeforeIs(ps: seq<Piece>, tail: string)
    ensures TextBefore(ps, tail) == PiecesText(ps) + tail
  {
    if ps != [] {
      TextBeforeIs(ps[1..], tail);
      GlueTail(ps[0].text, ps[0].gap, PiecesText(ps[1..]), tail);
    }
  }

  lemma GlueTail(a: string, b: string, c: string, tail: string)
    ensures a + (b + (c + tail)) == (a + (b + c)) + tail
  {
  }

  /** Nothing comes behind a query, or a semicolon and whatever is behind that. */
  predicate EndsQuery(tail: string) {
    tail == "" || tail[0] == ';'
  }

  predicate IsWhite(c: char) {
    c == ' ' || c == '\t' || c == '\n' || c == '\r' || c as int == 11 || c as int == 12
  }

  /** A word with some of its letters written as capitals. */
  predicate Cased(text: string, w: string) {
    && |text| == |w|
    && forall i :: 0 <= i < |w| ==> text[i] == w[i] || ('a' <= w[i] <= 'z' && text[i] as int + 32 == w[i] as int)
  }

  /** The last k decimal digits of a number, and what is in front of them. */
  function Digits(n: nat, k: nat): (s: string)
    ensures |s| == k
    decreases k
  {
    if k == 0 then "" else Digits(n / 10, k - 1) + [('0' as int + n % 10) as char]
  }

  function High(n: nat, k: nat): nat
    decreases k
  {
    if k == 0 then n else High(n / 10, k - 1)
  }

  /** Decimal digits, zeros in front allowed. */
  predicate IntWritten(text: string, n: nat) {
    text != "" && text == Digits(n, |text|) && High(n, |text|) == 0
  }

  function DayText(d: DateTime): string {
    Digits(d.year, 4) + "-" + Digits(d.month, 2) + "-" + Digits(d.day, 2)
  }

  predicate AllBlank(s: string) {
    forall i :: 0 <= i < |s| ==> s[i] == ' '
  }

  /** The hour may have one digit. */
  predicate HourWritten(text: string, hour: nat) {
    text == Digits(hour, 2) || (hour < 10 && text == Digits(hour, 1))
  }

  function TimeText(hour: string, d: DateTime): string {
    hour + (":" + Digits(d.minute, 2) + ":" + Digits(d.second, 2))
  }

  /** YYYY-MM-DD, at midnight, or with blanks and HH:MM:SS behind it. */
  ghost predicate DateWritten(text: string, d: DateTime) {
    || (text == DayText(d) && d.hour == 0 && d.minute == 0 && d.second == 0)
    || exists blanks, hour ::
         && (blanks != "" && AllBlank(blanks)) && HourWritten(hour, d.hour)
         && text == DayText(d) + (blanks + TimeText(hour, d))
  }

  /** A day of the calendar with a year of four digits, and a time of day. */
  predicate OnCalendar(d: DateTime) {
    && d.year < 10_000 && 1 <= d.month <= 12 && d.day >= 1 && d.hour < 24 && d.minute < 60 && d.second < 60
    && (|| d.day <= 28
        || (d.day <= 30 && d.month != 2)
        || (d.day == 31 && d.month in {1, 3, 5, 7, 8, 10, 12})
        || (d.day == 29 && d.month == 2 && d.year % 4 == 0 && (d.year % 100 != 0 || d.year % 400 == 0)))
  }

  predicate OpWritten(text: string, op: CompareOp) {
    match op
    case EQ => text == "="
    case NE => text == "<>" || text == "!="
    case LT => text == "<"
    case LE => text == "<="
    case GT => text == ">"
    case GE => text == ">="
  }

  ghost predicate Writes(text: string, want: Want) {
    match want
    case Letters(w) => Cased(text, w)
    case Mark(c) => text == [c]
    case Compare(op) => OpWritten(text, op)
    case Constant(e) =>
      match e
      case IntConst(n) => IntWritten(text, n)
      case BoolConst(b) => Cased(text, if b then "true" else "false")
      case TextConst(s) => text == "'" + s + "'"
      case DateConst(d) => DateWritten(text, d)
      case Field(_) => false
  }

  /** A word; and what would run together with a word in front of it. */
  predicate Wordy(w: Want) {
    w.Letters? || (w.Constant? && w.e.BoolConst?)
  }

  predicate Wordlike(w: Want) {
    Wordy(w) || Numeric(w)
  }

  predicate Numeric(w: Want) {
    w.Constant? && (w.e.IntConst? || w.e.DateConst?)
  }

  /** White space, and some of it between two words. */
  predicate GapOk(gap: string, ws: seq<Want>, i: nat)
    requires i < |ws|
  {
    && (forall j :: 0 <= j < |gap| ==> IsWhite(gap[j]))
    && (gap == "" && Wordy(ws[i]) && i + 1 < |ws| ==> !Wordlike(ws[i + 1]))
  }

  ghost predicate Spelled(ps: seq<Piece>, ws: seq<Want>) {
    |ps| == |ws| && forall i :: 0 <= i < |ws| ==> Writes(ps[i].text, ws[i]) && GapOk(ps[i].gap, ws, i)
  }

  /** A date right in front of a blank: the scanner of numbers takes the blank into the date. */
  predicate Spoilt(p: Piece, w: Want) {
    w.Constant? && w.e.DateConst? && p.gap != "" && p.gap[0] == ' '
  }

  ghost predicate SpoiltSomewhere(ps: seq<Piece>, ws: seq<Want>)
    requires |ps| == |ws|
  {
    exists i :: 0 <= i < |ps| && Spoilt(ps[i], ws[i])
  }

  function NamesWants(names: seq<string>): seq<Want> {
    if names == [] then []
    else if |names| == 1 then [Letters(names[0])]
    else [Letters(names[0]), Mark(',')] + NamesWants(names[1..])
  }

  function ExpressionWant(e: Expression): Want {
    if e.Field? then Letters(e.name) else Constant(e)
  }

  function TermWants(t: Term): seq<Want> {
    [ExpressionWant(t.lhs), Compare(t.op), ExpressionWant(t.rhs)]
  }

  function TermsWants(terms: seq<Term>): seq<Want> {
    if terms == [] then []
    else if |terms| == 1 then TermWants(terms[0])
    else TermWants(terms[0]) + ([Letters("and")] + TermsWants(terms[1..]))
  }

  function WhereWants(terms: seq<Term>): seq<Want> {
    if terms == [] then [] else [Letters("where")] + TermsWants(terms)
  }

  function FieldsWants(fields: Option<seq<string>>): seq<Want> {
    match fields
    case None => [Mark('*')]
    case Some(names) => NamesWants(names)
  }

  function FromWants(q: QueryData): seq<Want> {
    [Letters("from")] + (NamesWants(q.tables) + WhereWants(q.terms))
  }

  /** What a query is written with, in order. */
  function QueryWants(q: QueryData): seq<Want> {
    [Letters("select")] + (FieldsWants(q.fields) + FromWants(q))
  }

  /** What can be written: names, integers of 64 bits, texts without quotes, days of the calendar. */
  predicate Writable(e: Expression) {
    match e
    case Field(name) => IsName(name)
    case IntConst(n) => n < 0x8000_0000_0000_0000
    case BoolConst(_) => true
    case TextConst(s) => NoQuote(s)
    case DateConst(d) => OnCalendar(d)
  }

  predicate WritableTerms(terms: seq<Term>) {
    forall i :: 0 <= i < |terms| ==> Writable(terms[i].lhs) && Writable(terms[i].rhs)
  }

  predicate WritableQuery(q: QueryData) {
    && (q.fields.Some? ==> q.fields.value != [] && AreNames(q.fields.value))
    && q.tables != [] && AreNames(q.tables) && WritableTerms(q.terms)
  }

  // Single pieces.

  function TokenOf(text: string, want: Want): Token {
    match want
    case Letters(w) => Word(w)
    case Mark(c) => Delimiter(c)
    case Compare(_) => Operator(text)
    case Constant(e) => ExpressionToken(e)
  }

  predicate WantOk(w: Want) {
    match w
    case Letters(w) => LowerWord(w)
    case Mark(c) => c == ',' || c == '*'
    case Compare(_) => true
    case Constant(e) => !e.Field? && Writable(e)
  }

  /** Words are recognized in any case. */
  lemma CasedReads(text: string, w: string)
    requires Cased(text, w) && w != "" && !IsDigit(w[0]) && forall i :: 0 <= i < |w| ==> NameChar(w[i])
    ensures IsWord(text) && Lower(text) == w
  {
    forall i | 0 <= i < |w| ensures IsWordChar(text[i]) && LowerChar(text[i]) == w[i] {
      assert NameChar(w[i]);
    }
    assert NameChar(w[0]);
    assert Lower(text) == w;
  }

  lemma BoolReads(text: string, b: bool)
    requires Cased(text, if b then "true" else "false")
    ensures IsWord(text) && WordToken(text) == Boolean(b)
  {
    CasedReads(text, if b then "true" else "false");
  }

  lemma {:induction false} DigitsRead(n: nat, k: nat)
    ensures AllDigits(Digits(n, k)) && (High(n, k) == 0 ==> Decimal(Digits(n, k)) == n)
    decreases k
  {
    if k > 0 {
      DigitsRead(n / 10, k - 1);
      var s := Digits(n, k);
      assert s[..k - 1] == Digits(n / 10, k - 1);
      assert IsDigit(s[k - 1]);
    }
  }

  lemma IntReads(text: string, n: nat, blanks: string)
    requires IntWritten(text, n) && n < 0x8000_0000_0000_0000 && AllBlank(blanks)
    ensures IsNumeric(text) && NumberToken(text + blanks) == Some(Number(n))
  {
    DigitsRead(n, |text|);
    assert IsDigit(text[0]);
    NumberReads(text, blanks);
  }

  lemma TwoDigits(n: nat)
    requires n < 100
    ensures High(n, 2) == 0 && Decimal(Digits(n, 2)) == n && AllDigits(Digits(n, 2))
  {
    DigitsRead(n, 2);
    assert High(n, 2) == High(n / 10, 1) == High(n / 10 / 10, 0) == 0;
  }

  lemma OneDigit(n: nat)
    requires n < 10
    ensures High(n, 1) == 0 && Decimal(Digits(n, 1)) == n && AllDigits(Digits(n, 1))
  {
    DigitsRead(n, 1);
    assert High(n, 1) == High(n / 10, 0) == 0;
  }

  lemma FourDigits(n: nat)
    requires n < 10_000
    ensures High(n, 4) == 0 && Decimal(Digits(n, 4)) == n && AllDigits(Digits(n, 4))
  {
    DigitsRead(n, 4);
    assert High(n, 4) == High(n / 10, 3) == High(n / 10 / 10, 2) == High(n / 10 / 10 / 10, 1);
    assert High(n / 10 / 10 / 10, 1) == High(n / 10 / 10 / 10 / 10, 0) == 0;
  }

  /** The parts of the day in front of whatever comes behind it. */
  lemma DayParts(s: string, d: DateTime, rest: string)
    requires s == DayText(d) + rest && OnCalendar(d)
    ensures |s| == 10 + |rest| && s[4] == '-' && s[7] == '-' && IsDigit(s[0]) && s[10..] == rest
    ensures s[..4] == Digits(d.year, 4) && s[5..7] == Digits(d.month, 2) && s[8..10] == Digits(d.day, 2)
    ensures AllDigits(s[..4]) && AllDigits(s[5..7]) && AllDigits(s[8..10])
    ensures Decimal(s[..4]) == d.year && Decimal(s[5..7]) == d.month && Decimal(s[8..10]) == d.day
  {
    FourDigits(d.year);
    TwoDigits(d.month);
    TwoDigits(d.day);
    assert s[..4] == Digits(d.year, 4) && s[5..7] == Digits(d.month, 2) && s[8..10] == Digits(d.day, 2);
    assert s[0] == s[..4][0];
  }

  lemma CalendarDays(d: DateTime)
    requires d.year < 10_000 && d.hour < 24 && d.minute < 60 && d.second < 60
    ensures OnCalendar(d) <==> 1 <= d.month <= 12 && 1 <= d.day <= DaysIn(d.year, d.month)
  {
  }

  lemma DayReads(text: string, d: DateTime)
    requires text == DayText(d) && OnCalendar(d) && d.hour == 0 && d.minute == 0 && d.second == 0
    ensures ParseDate(text) == Some(d) && |text| == 10 && IsDigit(text[0])
  {
    assert text == DayText(d) + "";
    DayParts(text, d, "");
    CalendarDays(d);
  }

  /** The parts of the time behind the blanks. */
  lemma TimeParts(s: string, t: nat, hour: string, d: DateTime, h: nat)
    requires t <= |s| && s[t..] == TimeText(hour, d) && HourWritten(hour, d.hour) && h == t + |hour| && OnCalendar(d)
    ensures |s| == h + 6 && s[h] == ':' && s[h + 3] == ':' && 1 <= |hour| <= 2
    ensures s[t..h] == hour && s[h + 1..h + 3] == Digits(d.minute, 2) && s[h + 4..] == Digits(d.second, 2)
    ensures AllDigits(s[t..h]) && AllDigits(s[h + 1..h + 3]) && AllDigits(s[h + 4..])
    ensures Decimal(s[t..h]) == d.hour && Decimal(s[h + 1..h + 3]) == d.minute && Decimal(s[h + 4..]) == d.second
  {
    var r := s[t..];
    TwoDigits(d.hour);
    if d.hour < 10 {
      OneDigit(d.hour);
    }
    TwoDigits(d.minute);
    TwoDigits(d.second);
    assert s[t..h] == r[..|hour|] == hour;
    assert s[h + 1..h + 3] == r[|hour| + 1..|hour| + 3] == Digits(d.minute, 2);
    assert s[h + 4..] == r[|hour| + 4..] == Digits(d.second, 2);
    assert s[h] == r[|hour|] && s[h + 3] == r[|hour| + 3];
  }

  lemma TimeReads(text: string, d: DateTime, blanks: string, hour: string)
    requires OnCalendar(d) && blanks != "" && AllBlank(blanks) && HourWritten(hour, d.hour)
    requires text == DayText(d) + (blanks + TimeText(hour, d))
    ensures ParseDate(text) == Some(d)
  {
    DayParts(text, d, blanks + TimeText(hour, d));
    var t, h := 10 + |blanks|, 10 + |blanks| + |hour|;
    Split(text, 10, blanks, TimeText(hour, d));
    TimeParts(text, t, hour, d, h);
    assert IsDigit(text[t..h][0]) && text[t] == text[t..h][0];
    BlanksEnd(text, blanks, TimeText(hour, d));
    HourEnds(text, t, h);
    CalendarDays(d);
    DayTimeReads(text, d, t, h);
  }

  lemma DayTimeReads(s: string, d: DateTime, t: nat, h: nat)
    requires |s| > 10 && s[4] == '-' && s[7] == '-' && AllDigits(s[..4]) && AllDigits(s[5..7]) && AllDigits(s[8..10])
    requires Decimal(s[..4]) == d.year && Decimal(s[5..7]) == d.month && Decimal(s[8..10]) == d.day
    requires 1 <= d.month <= 12 && 1 <= d.day <= DaysIn(d.year, d.month)
    requires 10 < t == EndOf(s, 10, IsBlank) && h == if t + 1 < |s| && IsDigit(s[t + 1]) then t + 2 else t + 1
    requires |s| == h + 6 && s[h] == ':' && s[h + 3] == ':'
    requires AllDigits(s[t..h]) && AllDigits(s[h + 1..h + 3]) && AllDigits(s[h + 4..])
    requires Decimal(s[t..h]) == d.hour && Decimal(s[h + 1..h + 3]) == d.minute && Decimal(s[h + 4..]) == d.second
    requires d.hour < 24 && d.minute < 60 && d.second < 60
    ensures ParseDate(s) == Some(d)
  {
  }

  /** A text whose parts do not fill it is no date. */
  lemma NoDate(s: string, t: nat, h: nat)
    requires |s| > 10 && t == EndOf(s, 10, IsBlank) && h == if t + 1 < |s| && IsDigit(s[t + 1]) then t + 2 else t + 1
    requires |s| != h + 6
    ensures ParseDate(s) == None
  {
  }

  lemma BlanksEnd(s: string, blanks: string, rest: string)
    requires |s| >= 10 && s[10..] == blanks + rest && AllBlank(blanks) && rest != "" && IsDigit(rest[0])
    ensures EndOf(s, 10, IsBlank) == 10 + |blanks|
  {
    StretchIs(s, 10, blanks, rest, IsBlank);
  }

  lemma HourEnds(s: string, t: nat, h: nat)
    requires t < h <= t + 2 && h < |s| && s[h] == ':' && AllDigits(s[t..h])
    ensures h == if t + 1 < |s| && IsDigit(s[t + 1]) then t + 2 else t + 1
  {
    assert h == t + 2 ==> IsDigit(s[t..h][1]) && s[t + 1] == s[t..h][1];
  }

  lemma DateReads(text: string, d: DateTime)
    requires DateWritten(text, d) && OnCalendar(d)
    ensures NumberToken(text) == Some(Date(d))
  {
    if text == DayText(d) && d.hour == 0 && d.minute == 0 && d.second == 0 {
      DayReads(text, d);
    } else {
      var blanks, hour :| (blanks != "" && AllBlank(blanks)) && HourWritten(hour, d.hour)
                          && text == DayText(d) + (blanks + TimeText(hour, d));
      TimeReads(text, d, blanks, hour);
    }
  }

  lemma DateNumeric(text: string, d: DateTime)
    requires DateWritten(text, d) && OnCalendar(d)
    ensures IsNumeric(text) && |text| >= 10 && text[4] == '-'
  {
    FourDigits(d.year);
    TwoDigits(d.month);
    TwoDigits(d.day);
    DayNumeric(d);
    if text == DayText(d) {
      DayParts(text + "", d, "");
    } else {
      var blanks, hour :| (blanks != "" && AllBlank(blanks)) && HourWritten(hour, d.hour)
                          && text == DayText(d) + (blanks + TimeText(hour, d));
      DayParts(text, d, blanks + TimeText(hour, d));
      TimeNumeric(d, hour);
      NumericJoin(DayText(d), blanks + TimeText(hour, d));
    }
  }

  lemma NumericJoin(a: string, b: string)
    requires AllOf(a, IsNumberChar) && AllOf(b, IsNumberChar)
    ensures AllOf(a + b, IsNumberChar)
  {
  }

  lemma DigitsNumeric(s: string)
    requires AllDigits(s)
    ensures AllOf(s, IsNumberChar)
  {
    forall i | 0 <= i < |s| ensures IsNumberChar(s[i]) {
      assert IsDigit(s[i]);
    }
  }

  lemma DayNumeric(d: DateTime)
    ensures AllOf(DayText(d), IsNumberChar)
  {
    DigitsRead(d.year, 4);
    DigitsRead(d.month, 2);
    DigitsRead(d.day, 2);
    DigitsNumeric(Digits(d.year, 4));
    DigitsNumeric(Digits(d.month, 2));
    DigitsNumeric(Digits(d.day, 2));
  }

  lemma TimeNumeric(d: DateTime, hour: string)
    requires HourWritten(hour, d.hour)
    ensures AllOf(TimeText(hour, d), IsNumberChar)
  {
    DigitsRead(d.hour, |hour|);
    DigitsRead(d.minute, 2);
    DigitsRead(d.second, 2);
    DigitsNumeric(hour);
    DigitsNumeric(Digits(d.minute, 2));
    DigitsNumeric(Digits(d.second, 2));
  }

  /** With a blank behind it, a date is neither a date nor a number. */
  lemma SpoiltReads(text: string, d: DateTime, blanks: string)
    requires DateWritten(text, d) && OnCalendar(d) && blanks != "" && AllBlank(blanks)
    ensures NumberToken(text + blanks) == None
  {
    var s := text + blanks;
    DateNumeric(text, d);
    SpoiltDate(text, d, blanks);
    assert s[4] == text[4];
    DashStays(s, 4);
  }

  lemma {:induction false} DashStays(s: string, i: nat)
    requires i < |s| && s[i] == '-'
    ensures exists j :: 0 <= j < |WithoutSpaces(s)| && WithoutSpaces(s)[j] == '-'
    ensures !AllDigits(WithoutSpaces(s))
    decreases |s|
  {
    var rest := WithoutSpaces(s[..|s| - 1]);
    if i == |s| - 1 {
      assert WithoutSpaces(s)[|rest|] == '-';
    } else {
      DashStays(s[..|s| - 1], i);
      var j :| 0 <= j < |rest| && rest[j] == '-';
      assert WithoutSpaces(s)[j] == '-';
    }
  }

  lemma SpoiltDate(text: string, d: DateTime, blanks: string)
    requires DateWritten(text, d) && OnCalendar(d) && blanks != "" && AllBlank(blanks)
    ensures ParseDate(text + blanks) == None
  {
    var s := text + blanks;
    if text == DayText(d) {
      DayParts(s, d, blanks);
      assert s[10..] == blanks + "";
      StretchIs(s, 10, blanks, "", IsBlank);
    } else {
      var more, hour :| (more != "" && AllBlank(more)) && HourWritten(hour, d.hour)
                        && text == DayText(d) + (more + TimeText(hour, d));
      SpoiltTime(s, d, more, hour, blanks);
    }
  }

  lemma SpoiltTime(s: string, d: DateTime, more: string, hour: string, blanks: string)
    requires OnCalendar(d) && more != "" && AllBlank(more) && HourWritten(hour, d.hour) && blanks != ""
    requires s == DayText(d) + (more + TimeText(hour, d)) + blanks
    ensures ParseDate(s) == None
  {
    var t, h := 10 + |more|, 10 + |more| + |hour|;
    assert DayText(d) + "" == DayText(d);
    DayParts(DayText(d), d, "");
    HourDigits(hour, d.hour);
    GlueTime(s, DayText(d), more, hour, ":" + Digits(d.minute, 2) + ":" + Digits(d.second, 2), blanks);
    BlanksEnd(s, more, TimeText(hour, d) + blanks);
    HourEnds(s, t, h);
    NoDate(s, t, h);
  }

  lemma HourDigits(text: string, hour: nat)
    requires HourWritten(text, hour)
    ensures 1 <= |text| <= 2 && AllDigits(text) && IsDigit(text[0])
  {
    DigitsRead(hour, |text|);
  }

  lemma GlueTime(s: string, day: string, more: string, hour: string, rest: string, blanks: string)
    requires s == day + (more + (hour + rest)) + blanks && |day| == 10 && |rest| == 6 && rest[0] == ':' && hour != ""
    ensures s[10..] == more + ((hour + rest) + blanks) && ((hour + rest) + blanks)[0] == hour[0]
    ensures |s| == 10 + |more| + |hour| + 6 + |blanks| && s[10 + |more| + |hour|] == ':'
    ensures s[10 + |more|..10 + |more| + |hour|] == hour
  {
  }
}
