/** The messages the lexer and the parser write to the diagnostic stream, in the order written. */
module Diagnostics {

  /** One line of diagnostic output; the parser's messages carry the value of yylineno. */
  datatype Diagnostic =
    | IllegalInput(c: char)
    | MissingSemi(line: nat)
    | MismatchedParen(line: nat)
    | SyntaxError(line: nat)
    | NumOrIdExpected(line: nat)

  /** Decimal digits of a line number. */
  function NatToString(n: nat): (s: string)
    ensures |s| >= 1
    ensures forall i :: 0 <= i < |s| ==> '0' <= s[i] <= '9'
    decreases n
  {
    var d := [(48 + n % 10) as char];
    if n < 10 then d else NatToString(n / 10) + d
  }

  predicate IsDigit(c: char)
  {
    '0' <= c <= '9'
  }

  /** The number a string of decimal digits denotes, read left to right. */
  function DigitsValue(s: string): nat
  {
    if s == [] then 0
    else 10 * DigitsValue(s[..|s| - 1]) + (if IsDigit(s[|s| - 1]) then s[|s| - 1] as int - '0' as int else 0)
  }

  /** How many decimal digits s starts with. */
  function LeadingDigits(s: string): (k: nat)
    ensures k <= |s|
  {
    if s == [] || !IsDigit(s[0]) then 0 else 1 + LeadingDigits(s[1..])
  }

  /** The digits NatToString gives denote n, with no leading zero. */
  lemma {:induction false} NatToStringValue(n: nat)
    ensures DigitsValue(NatToString(n)) == n
    ensures n > 0 ==> NatToString(n)[0] != '0'
    decreases n
  {
    var d := [(48 + n % 10) as char];
    if n >= 10 {
      var x := NatToString(n / 10);
      NatToStringValue(n / 10);
      assert (x + d)[..|x + d| - 1] == x;
    }
  }

  /** A run of digits followed by something that is not a digit. */
  lemma {:induction false} LeadingDigitsOf(x: string, rest: string)
    requires forall i :: 0 <= i < |x| ==> IsDigit(x[i])
    requires rest == [] || !IsDigit(rest[0])
    ensures LeadingDigits(x + rest) == |x|
    decreases |x|
  {
    if x != [] {
      assert (x + rest)[0] == x[0];
      assert (x + rest)[1..] == x[1..] + rest;
      LeadingDigitsOf(x[1..], rest);
    } else {
      assert x + rest == rest;
    }
  }

  /**
   * Reading a diagnostic line back: a parser message starts with the decimal
   * digits of its line number and then ':'; the lexer's warning has no line
   * number and shows its character between '<' and '>' at the end.
   */
  lemma MessageLine(d: Diagnostic)
    ensures var m, k := Message(d), LeadingDigits(Message(d));
      if d.IllegalInput? then
        k == 0 && |m| >= 3 && m[|m| - 3..] == ['<', d.c, '>']
      else
        1 <= k < |m| && DigitsValue(m[..k]) == d.line && m[k] == ':'
  {
    if !d.IllegalInput? {
      var x := NatToString(d.line);
      var rest := Message(d)[|x|..];
      assert Message(d) == x + rest;
      assert rest[0] == ':';
      LeadingDigitsOf(x, rest);
      NatToStringValue(d.line);
      assert Message(d)[..|x|] == x;
    }
  }

  /** The text of a diagnostic line, without its newline. */
  function Message(d: Diagnostic): string
  {
    match d
    case IllegalInput(c) => "Ignoring illegal input <" + [c] + ">"
    case MissingSemi(l) => NatToString(l) + ": Inserting missing ';'"
    case MismatchedParen(l) => NatToString(l) + ": Mismatched ')'"
    case SyntaxError(l) => NatToString(l) + ": Syntax Error"
    case NumOrIdExpected(l) => NatToString(l) + ": Number or identifier expected"
  }

  /** The lexer's warning for each character of cs, in order. */
  function Warnings(cs: seq<char>): (ds: seq<Diagnostic>)
    ensures |ds| == |cs|
    ensures forall i :: 0 <= i < |cs| ==> ds[i] == IllegalInput(cs[i])
  {
    seq(|cs|, i requires 0 <= i < |cs| => IllegalInput(cs[i]))
  }

  /** Every diagnostic in ds is a lexer warning. */
  predicate OnlyWarnings(ds: seq<Diagnostic>)
  {
    forall i :: 0 <= i < |ds| ==> ds[i].IllegalInput?
  }

  /** The parser's own messages in ds: everything except the lexer's warnings. */
  function Reported(ds: seq<Diagnostic>): (r: seq<Diagnostic>)
    ensures |r| <= |ds|
    ensures forall i :: 0 <= i < |r| ==> !r[i].IllegalInput?
    ensures OnlyWarnings(ds) ==> r == []
  {
    if ds == [] then []
    else if ds[0].IllegalInput? then Reported(ds[1..])
    else [ds[0]] + Reported(ds[1..])
  }

  /** Filtering out warnings distributes over appending. */
  lemma {:induction false} ReportedAppend(a: seq<Diagnostic>, b: seq<Diagnostic>)
    ensures Reported(a + b) == Reported(a) + Reported(b)
    decreases |a|
  {
    if a == [] {
      assert a + b == b;
    } else {
      assert (a + b)[1..] == a[1..] + b;
      ReportedAppend(a[1..], b);
    }
  }

  /** Warning about one more character appends one warning. */
  lemma WarningsSnoc(cs: seq<char>, c: char)
    ensures Warnings(cs + [c]) == Warnings(cs) + [IllegalInput(c)]
  {
    assert |Warnings(cs + [c])| == |Warnings(cs) + [IllegalInput(c)]|;
  }

  /** Lexer warnings appended to the log leave the parser's messages as they were. */
  lemma ReportedWarnings(ds: seq<Diagnostic>, cs: seq<char>)
    ensures Reported(ds + Warnings(cs)) == Reported(ds)
  {
    ReportedAppend(ds, Warnings(cs));
    assert ds + [] == ds;
  }

  /** A parser message appended to the log is appended to its messages. */
  lemma ReportedMessage(ds: seq<Diagnostic>, d: Diagnostic)
    requires !d.IllegalInput?
    ensures Reported(ds + [d]) == Reported(ds) + [d]
  {
    ReportedAppend(ds, [d]);
    assert Reported([d]) == [d] + Reported([]);
  }

  /** A diagnostic without its line number. */
  datatype Problem = Ignored(c: char) | MissingSemicolon | UnmatchedParen | Syntax | OperandExpected

  function Tag(d: Diagnostic): Problem
  {
    match d
    case IllegalInput(c) => Ignored(c)
    case MissingSemi(_) => MissingSemicolon
    case MismatchedParen(_) => UnmatchedParen
    case SyntaxError(_) => Syntax
    case NumOrIdExpected(_) => OperandExpected
  }

  /** The parser's messages in ds, in order, without their line numbers. */
  function Problems(ds: seq<Diagnostic>): (ps: seq<Problem>)
    ensures |ps| == |Reported(ds)|
    ensures forall i :: 0 <= i < |ps| ==> ps[i] == Tag(Reported(ds)[i])
  {
    var r := Reported(ds);
    seq(|r|, i requires 0 <= i < |r| => Tag(r[i]))
  }

  /** A parser message appended to the log appends its problem. */
  lemma ProblemsMessage(ds: seq<Diagnostic>, d: Diagnostic)
    requires !d.IllegalInput?
    ensures Problems(ds + [d]) == Problems(ds) + [Tag(d)]
  {
    ReportedMessage(ds, d);
  }
}
