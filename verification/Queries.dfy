/** Queries and their printed form (parse/query_data.go, query/predicate.go, query/term.go,
    query/operators.go). */
module Queries {
  import opened Options
  import opened Lexers

  datatype CompareOp = EQ | NE | LT | LE | GT | GE

  function OpText(op: CompareOp): string {
    match op
    case EQ => "="
    case NE => "<>"
    case LT => "<"
    case LE => "<="
    case GT => ">"
    case GE => ">="
  }

  function OperatorFromString(s: string): Option<CompareOp> {
    if s == "=" then Some(EQ)
    else if s == "<>" || s == "!=" then Some(NE)
    else if s == "<" then Some(LT)
    else if s == "<=" then Some(LE)
    else if s == ">" then Some(GT)
    else if s == ">=" then Some(GE)
    else None
  }

  /** A field, or a constant of one of the types the parser makes. */
  datatype Expression =
    | Field(name: string)
    | IntConst(n: nat)
    | BoolConst(b: bool)
    | TextConst(s: string)
    | DateConst(d: DateTime)

  datatype Term = Term(lhs: Expression, rhs: Expression, op: CompareOp)

  /** A query; no list of fields stands for all of them. */
  datatype QueryData = QueryData(fields: Option<seq<string>>, tables: seq<string>, terms: seq<Term>)

  function DecimalText(n: nat): (s: string)
    ensures s != "" && AllDigits(s) && Decimal(s) == n
  {
    var d := [('0' as int + n % 10) as char];
    if n < 10 then d
    else
      var s := DecimalText(n / 10) + d;
      assert s[..|s| - 1] == DecimalText(n / 10);
      s
  }

  function Padded(n: nat, width: nat): string {
    var s := DecimalText(n);
    seq(if |s| < width then width - |s| else 0, i => '0') + s
  }

  /** A time prints with its zone, which parsed dates have as UTC. */
  function DateText(d: DateTime): string {
    Padded(d.year, 4) + "-" + Padded(d.month, 2) + "-" + Padded(d.day, 2) + " "
    + Padded(d.hour, 2) + ":" + Padded(d.minute, 2) + ":" + Padded(d.second, 2) + " +0000 UTC"
  }

  /** Constants print bare: no quotes around text. */
  function ExpressionText(e: Expression): string {
    match e
    case Field(name) => name
    case IntConst(n) => DecimalText(n)
    case BoolConst(b) => if b then "true" else "false"
    case TextConst(s) => s
    case DateConst(d) => DateText(d)
  }

  function TermText(t: Term): string {
    ExpressionText(t.lhs) + " " + OpText(t.op) + " " + ExpressionText(t.rhs)
  }

  function TermsText(terms: seq<Term>): string {
    if terms == [] then ""
    else if |terms| == 1 then TermText(terms[0])
    else TermsText(terms[..|terms| - 1]) + " and " + TermText(terms[|terms| - 1])
  }

  /** Every name followed by a comma and a space. */
  function Commas(names: seq<string>): string {
    if names == [] then "" else Commas(names[..|names| - 1]) + names[|names| - 1] + ", "
  }

  function DropTwo(s: string): string {
    if |s| < 2 then s else s[..|s| - 2]
  }

  function SelectText(fields: Option<seq<string>>): string {
    match fields
    case None => "select *"
    case Some(names) => DropTwo("select " + Commas(names))
  }

  function WhereText(terms: seq<Term>): string {
    if TermsText(terms) == "" then "" else " where " + TermsText(terms)
  }

  function QueryText(q: QueryData): string {
    if q.tables == [] then ""
    else SelectText(q.fields) + " from " + DropTwo(Commas(q.tables)) + WhereText(q.terms)
  }

  class Predicate {
    var terms: seq<Term>

    constructor (terms: seq<Term>)
      ensures this.terms == terms
    {
      this.terms := terms;
    }

    method ConjoinWith(other: Predicate)
      modifies this
      ensures terms == old(terms) + old(other.terms)
    {
      terms := terms + other.terms;
    }

    method ToString() returns (r: string)
      ensures r == TermsText(terms)
    {
      if |terms| == 0 {
        return "";
      }
      r := TermText(terms[0]);
      for i := 1 to |terms|
        invariant r == TermsText(terms[..i])
      {
        assert terms[..i + 1][..i] == terms[..i];
        r := r + " and " + TermText(terms[i]);
      }
      assert terms[..|terms|] == terms;
    }
  }

  method CommaList(names: seq<string>) returns (r: string)
    ensures r == Commas(names)
  {
    r := "";
    for i := 0 to |names|
      invariant r == Commas(names[..i])
    {
      assert names[..i + 1][..i] == names[..i];
      r := r + names[i] + ", ";
    }
    assert names[..|names|] == names;
  }

  /** An empty list of fields takes the end of the word before it along. */
  method SelectString(fields: Option<seq<string>>) returns (result: string)
    ensures result == SelectText(fields)
  {
    result := "select ";
    if fields.None? {
      result := result + "*";
    } else {
      var names := CommaList(fields.value);
      result := result + names;
      result := result[..|result| - 2];
    }
  }

  method QueryString(q: QueryData) returns (result: string)
    ensures result == QueryText(q)
  {
    if |q.tables| == 0 {
      return "";
    }
    result := SelectString(q.fields);
    result := result + " from ";
    ghost var head := result;
    var tables := CommaList(q.tables);
    EndsInComma(q.tables);
    result := result + tables;
    assert result[..|result| - 2] == head + DropTwo(tables);
    result := result[..|result| - 2];
    var pred := new Predicate(q.terms);
    var predicateString := pred.ToString();
    if predicateString != "" {
      result := result + " where " + predicateString;
    }
  }

  lemma EndsInComma(names: seq<string>)
    requires names != []
    ensures |Commas(names)| >= 2
  {
  }
}
