/**
 * The lexer of lex.c as pure functions: the character classes it uses, the way
 * fgets cuts the input into buffer loads, one call of lex() as the function
 * NextToken, and the tokenisation Scan of whole buffers that NextToken follows.
 */
module LexSpec {
  import opened Tokens
  import opened Diagnostics

  /** fgets is called with a 128-byte buffer, so one load holds at most 127 characters. */
  const BufferLength := 128
  const MaxLoad := BufferLength - 1

  /** isalnum in the C locale. */
  predicate IsAlnum(c: char)
  {
    ('a' <= c <= 'z') || ('A' <= c <= 'Z') || ('0' <= c <= '9')
  }

  /** isspace in the C locale: space, \t, \n, \v, \f, \r. */
  predicate IsSpace(c: char)
  {
    c == ' ' || c == '\t' || c == '\n' || c == 11 as char || c == 12 as char || c == '\r'
  }

  /** The three characters the scanning loop passes over without a word. */
  predicate IsBlank(c: char)
  {
    c == ' ' || c == '\t' || c == '\n'
  }

  /** The kind of a one-character token; '$' stands for the end of input. */
  function Single(c: char): (r: Option<Kind>)
    ensures r.Some? ==> !IsAlnum(c) && !IsSpace(c) && r.value != NumOrId
  {
    if c == '$' then Some(EOI)
    else if c == ';' then Some(Semi)
    else if c == '+' then Some(Plus)
    else if c == '*' then Some(Times)
    else if c == '(' then Some(LParen)
    else if c == ')' then Some(RParen)
    else None
  }

  /** The end of the run of alphanumeric characters that starts at i. */
  function RunEnd(s: string, i: nat): (j: nat)
    requires i <= |s|
    ensures i <= j <= |s|
    ensures forall k :: i <= k < j ==> IsAlnum(s[k])
    ensures j == |s| || !IsAlnum(s[j])
    decreases |s| - i
  {
    if i == |s| || !IsAlnum(s[i]) then i else RunEnd(s, i + 1)
  }

  /** The first position at or after i that does not hold an isspace character. */
  function SkipSpace(s: string, i: nat): (j: nat)
    requires i <= |s|
    ensures i <= j <= |s|
    ensures forall k :: i <= k < j ==> IsSpace(s[k])
    ensures j == |s| || !IsSpace(s[j])
    decreases |s| - i
  {
    if i == |s| || !IsSpace(s[i]) then i else SkipSpace(s, i + 1)
  }

  // ---------------------------------------------------------------------------
  // Buffer loads

  /** A string fgets can deliver into the buffer: one to 127 characters, no NUL,
      and a newline only as its last character. */
  predicate GoodLoad(l: string)
  {
    1 <= |l| <= MaxLoad &&
    (forall i :: 0 <= i < |l| ==> l[i] != '\0') &&
    (forall i :: 0 <= i < |l| - 1 ==> l[i] != '\n')
  }

  /** How many characters one fgets call takes from text, starting at i:
      up to and including a newline, but never more than 127. */
  function LoadEnd(text: string, i: nat): (j: nat)
    requires i < |text|
    ensures i < j <= |text| && j <= i + MaxLoad
    ensures forall k :: i <= k < j - 1 ==> text[k] != '\n'
    ensures j < |text| ==> text[j - 1] == '\n' || j == i + MaxLoad
    decreases |text| - i
  {
    LoadEndFrom(text, i, i)
  }

  function LoadEndFrom(text: string, start: nat, i: nat): (j: nat)
    requires start <= i < |text| && i < start + MaxLoad
    requires forall k :: start <= k < i ==> text[k] != '\n'
    ensures i < j <= |text| && j <= start + MaxLoad
    ensures forall k :: start <= k < j - 1 ==> text[k] != '\n'
    ensures j < |text| ==> text[j - 1] == '\n' || j == start + MaxLoad
    decreases |text| - i
  {
    if text[i] == '\n' || i + 1 == |text| || i + 1 == start + MaxLoad then i + 1
    else LoadEndFrom(text, start, i + 1)
  }

  /** The successive results of fgets(input_buffer, 128, stdin) on text. */
  function Loads(text: string): (ls: seq<string>)
    decreases |text|
  {
    if text == [] then []
    else
      var n := LoadEnd(text, 0);
      [text[..n]] + Loads(text[n..])
  }

  function Concat(ls: seq<string>): string
  {
    if ls == [] then [] else ls[0] + Concat(ls[1..])
  }

  /** The loads give back the whole text, in order. */
  lemma {:induction false} LoadsConcat(text: string)
    ensures Concat(Loads(text)) == text
    decreases |text|
  {
    if text != [] {
      var n := LoadEnd(text, 0);
      LoadsConcat(text[n..]);
      assert text[..n] + text[n..] == text;
    }
  }

  /** Every load of a text without NUL characters is one fgets can deliver. */
  lemma {:induction false} LoadsGood(text: string)
    requires forall i :: 0 <= i < |text| ==> text[i] != '\0'
    ensures forall l :: l in Loads(text) ==> GoodLoad(l)
    decreases |text|
  {
    if text != [] {
      var n := LoadEnd(text, 0);
      assert forall i :: 0 <= i < |text[n..]| ==> text[n..][i] == text[n + i];
      LoadsGood(text[n..]);
      assert Loads(text) == [text[..n]] + Loads(text[n..]);
    }
  }

  // ---------------------------------------------------------------------------
  // Tokenisation of buffered text

  /** What the lexer meets in the text: a token with its lexeme, or an illegal
      character it warns about. */
  datatype Event = Tok(kind: Kind, text: string) | Illegal(c: char)


  /** The tokens and illegal characters of s from position i on, in order. */
  function ScanFrom(s: string, i: nat): seq<Event>
    decreases if i <= |s| then |s| - i else 0
  {
    if i >= |s| then []
    else if Single(s[i]).Some? then [Tok(Single(s[i]).value, s[i..i + 1])] + ScanFrom(s, i + 1)
    else if IsBlank(s[i]) then ScanFrom(s, i + 1)
    else if IsAlnum(s[i]) then
      var n := RunEnd(s, i);
      [Tok(NumOrId, s[i..n])] + ScanFrom(s, n)
    else [Illegal(s[i])] + ScanFrom(s, i + 1)
  }

  /** What lex meets in a fresh load: it first skips the load's leading isspace characters. */
  function ScanLoad(l: string): seq<Event>
  {
    ScanFrom(l, SkipSpace(l, 0))
  }

  /** What lex meets in the loads from index next on. */
  function ScanLoads(loads: seq<string>, next: nat): seq<Event>
    decreases |loads| - next
  {
    if next >= |loads| then [] else ScanLoad(loads[next]) + ScanLoads(loads, next + 1)
  }

  /** Everything the lexer has still to meet: the rest of the buffer from
      cursor cur on (a cursor at or past the end points at the buffer's NUL),
      then every load fgets has still to deliver. */
  function Pending(buf: string, cur: nat, loads: seq<string>, next: nat): seq<Event>
  {
    ScanFrom(buf, cur) + ScanLoads(loads, next)
  }

  function IllegalEvents(cs: seq<char>): (es: seq<Event>)
    ensures |es| == |cs|
    ensures forall i :: 0 <= i < |cs| ==> es[i] == Illegal(cs[i])
  {
    seq(|cs|, i requires 0 <= i < |cs| => Illegal(cs[i]))
  }

  // ---------------------------------------------------------------------------
  // One call of lex()

  /** The result of one lex() call: either fgets found no more input, or a token
      was found at buf[yytext..yytext + yyleng]. warnings are the illegal
      characters passed on the way, linesRead the successful fgets calls. */
  datatype Outcome =
    | Exhausted(yytext: nat, yyleng: nat, warnings: seq<char>, linesRead: nat)
    | Lexed(kind: Kind, buf: string, yytext: nat, yyleng: nat, warnings: seq<char>, linesRead: nat)
  {
    /** The token kind lex() returns. */
    function Returned(): Kind
    {
      if Exhausted? then EOI else kind
    }

    /** The buffer contents afterwards; running out of input leaves it empty. */
    function Buffer(): string
    {
      if Exhausted? then [] else buf
    }
  }

  /** The outcome, seen from before some earlier successful fgets calls and warnings. */
  function Extend(o: Outcome, w: seq<char>, m: nat): Outcome
  {
    o.(warnings := w + o.warnings, linesRead := m + o.linesRead)
  }

  /**
   * lex() from cursor cur into buf, with loads[next..] still to be delivered by
   * fgets, and yt, yl the values yytext and yyleng hold so far.
   */
  function NextToken(buf: string, cur: nat, loads: seq<string>, next: nat, yt: nat, yl: nat): (o: Outcome)
    requires next <= |loads|
    ensures next + o.linesRead <= |loads|
    ensures o.Exhausted? ==> next + o.linesRead == |loads|
    ensures o.Lexed? ==> 1 <= o.yyleng && o.yytext + o.yyleng <= |o.buf|
    decreases |loads| - next, if cur <= |buf| then |buf| - cur else 0
  {
    if cur >= |buf| then
      if next == |loads| then Exhausted(yt, yl, [], 0)
      else Extend(NextToken(loads[next], SkipSpace(loads[next], 0), loads, next + 1, yt, yl), [], 1)
    else if Single(buf[cur]).Some? then Lexed(Single(buf[cur]).value, buf, cur, 1, [], 0)
    else if IsBlank(buf[cur]) then NextToken(buf, cur + 1, loads, next, cur, 1)
    else if IsAlnum(buf[cur]) then Lexed(NumOrId, buf, cur, RunEnd(buf, cur) - cur, [], 0)
    else Extend(NextToken(buf, cur + 1, loads, next, cur, 1), [buf[cur]], 0)
  }

  /** What a lex() call consumes of the pending text, in order. */
  function Consumed(o: Outcome): seq<Event>
    requires o.Lexed? ==> o.yytext + o.yyleng <= |o.buf|
  {
    IllegalEvents(o.warnings) +
    if o.Lexed? then [Tok(o.kind, o.buf[o.yytext..o.yytext + o.yyleng])] else []
  }

  /** The text pending after a lex() call that started with loads[next..] to come. */
  function After(o: Outcome, loads: seq<string>, next: nat): seq<Event>
  {
    Pending(o.Buffer(), o.yytext + o.yyleng, loads, next + o.linesRead)
  }

  /** Consumed(o) followed by what is pending afterwards is what was pending before. */
  ghost predicate Follows(buf: string, cur: nat, loads: seq<string>, next: nat, o: Outcome)
    requires o.Lexed? ==> o.yytext + o.yyleng <= |o.buf|
  {
    Pending(buf, cur, loads, next) == Consumed(o) + After(o, loads, next)
  }

  /**
   * lex() follows the tokenisation: it consumes the illegal characters up to the
   * next token and that token, and leaves the rest pending from yytext + yyleng
   * on; when it runs out of input, only illegal characters were left.
   */
  lemma {:induction false} NextTokenFollowsScan(buf: string, cur: nat, loads: seq<string>, next: nat, yt: nat, yl: nat)
    requires next <= |loads|
    ensures Follows(buf, cur, loads, next, NextToken(buf, cur, loads, next, yt, yl))
    decreases |loads| - next, if cur <= |buf| then |buf| - cur else 0
  {
    if cur >= |buf| {
      if next < |loads| {
        var l := loads[next];
        NextTokenFollowsScan(l, SkipSpace(l, 0), loads, next + 1, yt, yl);
        RereadStep(buf, cur, loads, next, yt, yl);
      } else {
        assert IllegalEvents([]) == [];
      }
    } else if Single(buf[cur]).Some? || IsAlnum(buf[cur]) {
      TokenStep(buf, cur, loads, next, yt, yl);
    } else if IsBlank(buf[cur]) {
      NextTokenFollowsScan(buf, cur + 1, loads, next, cur, 1);
      BlankStep(buf, cur, loads, next, yt, yl);
    } else {
      NextTokenFollowsScan(buf, cur + 1, loads, next, cur, 1);
      WarnStep(buf, cur, loads, next, yt, yl);
    }
  }

  /** At the buffer's NUL with a load to come, lex() goes on in the new load. */
  lemma RereadStep(buf: string, cur: nat, loads: seq<string>, next: nat, yt: nat, yl: nat)
    requires cur >= |buf| && next < |loads|
    requires var l := loads[next]; Follows(l, SkipSpace(l, 0), loads, next + 1, NextToken(l, SkipSpace(l, 0), loads, next + 1, yt, yl))
    ensures Follows(buf, cur, loads, next, NextToken(buf, cur, loads, next, yt, yl))
  {
    var l := loads[next];
    FollowsReread(buf, cur, loads, next, NextToken(l, SkipSpace(l, 0), loads, next + 1, yt, yl));
  }

  /** At a token character lex() returns that token. */
  lemma TokenStep(buf: string, cur: nat, loads: seq<string>, next: nat, yt: nat, yl: nat)
    requires next <= |loads| && cur < |buf| && (Single(buf[cur]).Some? || IsAlnum(buf[cur]))
    ensures Follows(buf, cur, loads, next, NextToken(buf, cur, loads, next, yt, yl))
  {
    var c := buf[cur];
    var k := if Single(c).Some? then Single(c).value else NumOrId;
    var n := if Single(c).Some? then cur + 1 else RunEnd(buf, cur);
    assert NextToken(buf, cur, loads, next, yt, yl) == Lexed(k, buf, cur, n - cur, [], 0);
    ScanFromToken(buf, cur);
    FollowsToken(buf, cur, loads, next, k, n);
  }

  /** A blank is passed over. */
  lemma BlankStep(buf: string, cur: nat, loads: seq<string>, next: nat, yt: nat, yl: nat)
    requires next <= |loads| && cur < |buf| && Single(buf[cur]).None? && IsBlank(buf[cur])
    requires Follows(buf, cur + 1, loads, next, NextToken(buf, cur + 1, loads, next, cur, 1))
    ensures Follows(buf, cur, loads, next, NextToken(buf, cur, loads, next, yt, yl))
  {
    assert ScanFrom(buf, cur) == ScanFrom(buf, cur + 1);
  }

  /** An illegal character is passed over with a warning. */
  lemma WarnStep(buf: string, cur: nat, loads: seq<string>, next: nat, yt: nat, yl: nat)
    requires next <= |loads| && cur < |buf| && Single(buf[cur]).None? && !IsBlank(buf[cur]) && !IsAlnum(buf[cur])
    requires Follows(buf, cur + 1, loads, next, NextToken(buf, cur + 1, loads, next, cur, 1))
    ensures Follows(buf, cur, loads, next, NextToken(buf, cur, loads, next, yt, yl))
  {
    var o := NextToken(buf, cur + 1, loads, next, cur, 1);
    assert NextToken(buf, cur, loads, next, yt, yl) == Extend(o, [buf[cur]], 0);
    assert ScanFrom(buf, cur) == [Illegal(buf[cur])] + ScanFrom(buf, cur + 1);
    FollowsWarn(buf, cur, loads, next, o);
  }

  lemma FollowsReread(buf: string, cur: nat, loads: seq<string>, next: nat, o: Outcome)
    requires cur >= |buf| && next < |loads|
    requires o.Lexed? ==> o.yytext + o.yyleng <= |o.buf|
    requires Follows(loads[next], SkipSpace(loads[next], 0), loads, next + 1, o)
    ensures Follows(buf, cur, loads, next, Extend(o, [], 1))
  {
    assert Consumed(Extend(o, [], 1)) == Consumed(o);
    assert After(Extend(o, [], 1), loads, next) == After(o, loads, next + 1);
  }

  lemma FollowsToken(buf: string, cur: nat, loads: seq<string>, next: nat, k: Kind, n: nat)
    requires cur < n <= |buf|
    requires ScanFrom(buf, cur) == [Tok(k, buf[cur..n])] + ScanFrom(buf, n)
    ensures Follows(buf, cur, loads, next, Lexed(k, buf, cur, n - cur, [], 0))
  {
    var o := Lexed(k, buf, cur, n - cur, [], 0);
    ConsumedToken(k, buf, cur, n, loads, next);
    Prepend([Tok(k, buf[cur..n])], ScanFrom(buf, cur), ScanFrom(buf, n), ScanLoads(loads, next));
  }

  /** A token found at once is all that is consumed, and the text after it is pending. */
  lemma ConsumedToken(k: Kind, buf: string, cur: nat, n: nat, loads: seq<string>, next: nat)
    requires cur < n <= |buf|
    ensures var o := Lexed(k, buf, cur, n - cur, [], 0);
      Consumed(o) == [Tok(k, buf[cur..n])] && After(o, loads, next) == Pending(buf, n, loads, next)
  {
    assert IllegalEvents([]) == [];
  }

  lemma FollowsWarn(buf: string, cur: nat, loads: seq<string>, next: nat, o: Outcome)
    requires cur < |buf|
    requires ScanFrom(buf, cur) == [Illegal(buf[cur])] + ScanFrom(buf, cur + 1)
    requires o.Lexed? ==> o.yytext + o.yyleng <= |o.buf|
    requires Follows(buf, cur + 1, loads, next, o)
    ensures Follows(buf, cur, loads, next, Extend(o, [buf[cur]], 0))
  {
    ConsumedWarn(buf[cur], o);
    assert After(Extend(o, [buf[cur]], 0), loads, next) == After(o, loads, next);
    Reassociate([Illegal(buf[cur])], ScanFrom(buf, cur), ScanFrom(buf, cur + 1), ScanLoads(loads, next),
      Consumed(o), After(o, loads, next));
  }

  lemma ConsumedWarn(c: char, o: Outcome)
    requires o.Lexed? ==> o.yytext + o.yyleng <= |o.buf|
    ensures Consumed(Extend(o, [c], 0)) == [Illegal(c)] + Consumed(o)
  {
    assert IllegalEvents([c] + o.warnings) == [Illegal(c)] + IllegalEvents(o.warnings);
  }

  lemma Prepend<T>(t: seq<T>, s: seq<T>, s1: seq<T>, l: seq<T>)
    requires s == t + s1
    ensures s + l == t + (s1 + l)
  {
  }

  lemma Reassociate<T>(i: seq<T>, s: seq<T>, s1: seq<T>, l: seq<T>, c: seq<T>, a: seq<T>)
    requires s == i + s1 && s1 + l == c + a
    ensures s + l == (i + c) + a
  {
    calc {
      s + l;
      (i + s1) + l;
      i + (s1 + l);
      i + (c + a);
      (i + c) + a;
    }
  }

  /**
   * The shape of a lexeme: NUM_OR_ID is a maximal run of alphanumeric
   * characters; every other token is the one character that stands for it.
   */
  ghost predicate Shaped(o: Outcome)
    requires o.Lexed? ==> o.yytext + o.yyleng <= |o.buf|
  {
    o.Lexed? ==>
      var b, t, n := o.buf, o.yytext, o.yyleng;
      (o.kind == NumOrId ==>
         n >= 1 && (forall k :: t <= k < t + n ==> IsAlnum(b[k])) && (t + n == |b| || !IsAlnum(b[t + n]))) &&
      (o.kind != NumOrId ==> n == 1 && Single(b[t]) == Some(o.kind))
  }

  lemma {:induction false} LexemeShape(buf: string, cur: nat, loads: seq<string>, next: nat, yt: nat, yl: nat)
    requires next <= |loads|
    ensures Shaped(NextToken(buf, cur, loads, next, yt, yl))
    decreases |loads| - next, if cur <= |buf| then |buf| - cur else 0
  {
    if cur >= |buf| {
      if next < |loads| {
        LexemeShape(loads[next], SkipSpace(loads[next], 0), loads, next + 1, yt, yl);
      }
    } else if Single(buf[cur]).None? && !IsAlnum(buf[cur]) {
      LexemeShape(buf, cur + 1, loads, next, cur, 1);
    }
  }

  // ---------------------------------------------------------------------------
  // The token stream seen through lex()

  /** The kinds of the tokens among es. */
  function Kinds(es: seq<Event>): seq<Kind>
  {
    if es == [] then []
    else if es[0].Tok? then [es[0].kind] + Kinds(es[1..])
    else Kinds(es[1..])
  }

  lemma {:induction false} KindsAppend(a: seq<Event>, b: seq<Event>)
    ensures Kinds(a + b) == Kinds(a) + Kinds(b)
    decreases |a|
  {
    if a == [] {
      assert a + b == b;
    } else {
      assert (a + b)[1..] == a[1..] + b;
      KindsAppend(a[1..], b);
    }
  }

  lemma {:induction false} KindsIllegal(cs: seq<char>)
    ensures Kinds(IllegalEvents(cs)) == []
    decreases |cs|
  {
    if cs != [] {
      assert IllegalEvents(cs)[1..] == IllegalEvents(cs[1..]);
      KindsIllegal(cs[1..]);
    }
  }

  /**
   * A token stream stands for itself followed by EOI forever; Cons and Trim keep
   * it free of trailing EOIs, so that each stream has exactly one representation.
   */
  function Cons(k: Kind, u: seq<Kind>): seq<Kind>
  {
    if k == EOI && u == [] then [] else [k] + u
  }

  function Trim(ks: seq<Kind>): seq<Kind>
  {
    if ks == [] then [] else Cons(ks[0], Trim(ks[1..]))
  }

  /** The first token of a stream. */
  function Peek(u: seq<Kind>): Kind
  {
    if u == [] then EOI else u[0]
  }

  /** The stream after its first token. */
  function Drop(u: seq<Kind>): (r: seq<Kind>)
    ensures |r| == if u == [] then 0 else |u| - 1
  {
    if u == [] then [] else u[1..]
  }

  /** The stream after its first n tokens. */
  function DropN(u: seq<Kind>, n: nat): (r: seq<Kind>)
    ensures |r| <= |u|
  {
    if n == 0 then u else DropN(Drop(u), n - 1)
  }

  /** DropN is slicing, as long as there is something to drop. */
  lemma {:induction false} DropNSlice(u: seq<Kind>, n: nat)
    requires n <= |u|
    ensures DropN(u, n) == u[n..]
    decreases n
  {
    if n > 0 {
      DropNSlice(Drop(u), n - 1);
      assert u[1..][n - 1..] == u[n..];
    }
  }

  /** The first token of a stream built by Cons, and what follows it. */
  lemma PeekDropCons(k: Kind, u: seq<Kind>)
    ensures Peek(Cons(k, u)) == k && Drop(Cons(k, u)) == u
  {
  }

  /** Dropping a tokens, then b more, drops a + b. */
  lemma {:induction false} DropNAdd(u: seq<Kind>, a: nat, b: nat)
    ensures DropN(DropN(u, a), b) == DropN(u, a + b)
    decreases a
  {
    if a > 0 {
      DropNAdd(Drop(u), a - 1, b);
    }
  }

  /**
   * The token kinds lex() will return from buffer position cur and the loads
   * from next on, with trailing EOIs removed: after the last of them lex()
   * returns EOI forever. A '$' gives an EOI, and the tokens after it stay in
   * the stream, since the next call goes on after the '$'.
   */
  function Stream(buf: string, cur: nat, loads: seq<string>, next: nat): seq<Kind>
    decreases |loads| - next, if cur <= |buf| then |buf| - cur else 0
  {
    if cur >= |buf| then
      if next >= |loads| then [] else Stream(loads[next], SkipSpace(loads[next], 0), loads, next + 1)
    else if Single(buf[cur]).Some? then Cons(Single(buf[cur]).value, Stream(buf, cur + 1, loads, next))
    else if IsAlnum(buf[cur]) then Cons(NumOrId, Stream(buf, RunEnd(buf, cur), loads, next))
    else Stream(buf, cur + 1, loads, next)
  }

  /** The token kinds lex() returns on text from the start, with trailing EOIs removed. */
  function Tokenize(text: string): seq<Kind>
  {
    Stream([], 0, Loads(text), 0)
  }

  /** The stream is the tokenisation of the pending text, without its illegal
      characters and trailing EOIs. */
  lemma {:induction false} StreamScan(buf: string, cur: nat, loads: seq<string>, next: nat)
    ensures Stream(buf, cur, loads, next) == Trim(Kinds(Pending(buf, cur, loads, next)))
    decreases |loads| - next, if cur <= |buf| then |buf| - cur else 0
  {
    if cur >= |buf| {
      if next < |loads| {
        StreamScan(loads[next], SkipSpace(loads[next], 0), loads, next + 1);
        PendingReread(buf, cur, loads, next);
      } else {
        assert Pending(buf, cur, loads, next) == [];
      }
    } else {
      var c := buf[cur];
      if Single(c).Some? || IsAlnum(c) {
        var n := if Single(c).Some? then cur + 1 else RunEnd(buf, cur);
        StreamScan(buf, n, loads, next);
        PendingToken(buf, cur, loads, next);
      } else {
        StreamScan(buf, cur + 1, loads, next);
        PendingSkip(buf, cur, loads, next);
      }
    }
  }

  /** At the buffer's NUL the pending text is that of the next load. */
  lemma PendingReread(buf: string, cur: nat, loads: seq<string>, next: nat)
    requires cur >= |buf| && next < |loads|
    ensures Pending(buf, cur, loads, next) == Pending(loads[next], SkipSpace(loads[next], 0), loads, next + 1)
  {
    assert [] + ScanLoads(loads, next) == ScanLoads(loads, next);
  }

  /** A token character starts the pending text with its token. */
  lemma PendingToken(buf: string, cur: nat, loads: seq<string>, next: nat)
    requires cur < |buf| && (Single(buf[cur]).Some? || IsAlnum(buf[cur]))
    ensures var c := buf[cur];
      var k := if Single(c).Some? then Single(c).value else NumOrId;
      var n := if Single(c).Some? then cur + 1 else RunEnd(buf, cur);
      Trim(Kinds(Pending(buf, cur, loads, next))) == Cons(k, Trim(Kinds(Pending(buf, n, loads, next))))
  {
    var c := buf[cur];
    var k := if Single(c).Some? then Single(c).value else NumOrId;
    var n := if Single(c).Some? then cur + 1 else RunEnd(buf, cur);
    var e := Tok(k, buf[cur..n]);
    var p := Pending(buf, n, loads, next);
    ScanFromToken(buf, cur);
    Prepend([e], ScanFrom(buf, cur), ScanFrom(buf, n), ScanLoads(loads, next));
    KindsAppend([e], p);
    assert Kinds([e]) == [k] by {
      assert [e][1..] == [];
    }
    TrimCons(k, Kinds(p));
  }

  /** The scan at a token character starts with its token. */
  lemma ScanFromToken(buf: string, cur: nat)
    requires cur < |buf| && (Single(buf[cur]).Some? || IsAlnum(buf[cur]))
    ensures var c := buf[cur];
      var k := if Single(c).Some? then Single(c).value else NumOrId;
      var n := if Single(c).Some? then cur + 1 else RunEnd(buf, cur);
      ScanFrom(buf, cur) == [Tok(k, buf[cur..n])] + ScanFrom(buf, n)
  {
  }

  lemma TrimCons(k: Kind, ks: seq<Kind>)
    ensures Trim([k] + ks) == Cons(k, Trim(ks))
  {
    assert ([k] + ks)[1..] == ks;
  }

  /** A blank or an illegal character adds no token. */
  lemma PendingSkip(buf: string, cur: nat, loads: seq<string>, next: nat)
    requires cur < |buf| && Single(buf[cur]).None? && !IsAlnum(buf[cur])
    ensures Kinds(Pending(buf, cur, loads, next)) == Kinds(Pending(buf, cur + 1, loads, next))
  {
    var p := Pending(buf, cur + 1, loads, next);
    if !IsBlank(buf[cur]) {
      assert Pending(buf, cur, loads, next) == [Illegal(buf[cur])] + p;
      assert ([Illegal(buf[cur])] + p)[1..] == p;
    }
  }

  /**
   * lex() yields the first token of the stream and leaves the stream's remainder;
   * once only illegal characters are left, it yields EOI and the stream stays empty.
   */
  lemma NextTokenStream(buf: string, cur: nat, loads: seq<string>, next: nat, yt: nat, yl: nat)
    requires next <= |loads|
    ensures var o := NextToken(buf, cur, loads, next, yt, yl);
      Stream(buf, cur, loads, next) ==
      Cons(o.Returned(), Stream(o.Buffer(), o.yytext + o.yyleng, loads, next + o.linesRead))
  {
    var o := NextToken(buf, cur, loads, next, yt, yl);
    NextTokenFollowsScan(buf, cur, loads, next, yt, yl);
    StreamOfFollows(buf, cur, loads, next, o);
    StreamScan(buf, cur, loads, next);
    StreamScan(o.Buffer(), o.yytext + o.yyleng, loads, next + o.linesRead);
  }

  lemma StreamOfFollows(buf: string, cur: nat, loads: seq<string>, next: nat, o: Outcome)
    requires o.Lexed? ==> o.yytext + o.yyleng <= |o.buf|
    requires o.Exhausted? ==> next + o.linesRead >= |loads|
    requires Follows(buf, cur, loads, next, o)
    ensures Trim(Kinds(Pending(buf, cur, loads, next))) == Cons(o.Returned(), Trim(Kinds(After(o, loads, next))))
  {
    var after := After(o, loads, next);
    var tok := if o.Lexed? then [Tok(o.kind, o.buf[o.yytext..o.yytext + o.yyleng])] else [];
    KindsAppend(IllegalEvents(o.warnings) + tok, after);
    KindsAppend(IllegalEvents(o.warnings), tok);
    KindsIllegal(o.warnings);
    if o.Exhausted? {
      assert after == [];
    }
  }

  // ---------------------------------------------------------------------------
  // The lexer's state as a value

  /** The state lex() works on: the loads of the input, how many fgets has
      delivered, the buffer, yytext, yyleng, yylineno and the diagnostics. */
  datatype Scanner = Scanner(
    loads: seq<string>, next: nat, buf: string,
    yytext: nat, yyleng: nat, yylineno: nat, diags: seq<Diagnostic>)
  {
    ghost predicate Valid()
    {
      (forall l :: l in loads ==> GoodLoad(l)) &&
      next <= |loads| && yylineno == next &&
      (buf == [] || yytext + yyleng <= |buf|)
    }

    /** Where scanning resumes: just past the current lexeme. */
    function Cursor(): nat
    {
      yytext + yyleng
    }

    /** The token kinds lex() will return from here on. */
    function Upcoming(): seq<Kind>
    {
      Stream(buf, Cursor(), loads, next)
    }
  }

  function OutcomeOf(s: Scanner): Outcome
    requires s.next <= |s.loads|
  {
    NextToken(s.buf, s.Cursor(), s.loads, s.next, s.yytext, s.yyleng)
  }

  /** The state one call of lex() leaves. */
  function LexStep(s: Scanner): Scanner
    requires s.next <= |s.loads|
  {
    var o := OutcomeOf(s);
    Scanner(s.loads, s.next + o.linesRead, o.Buffer(), o.yytext, o.yyleng,
            s.yylineno + o.linesRead, s.diags + Warnings(o.warnings))
  }

  /** The token kind one call of lex() returns. */
  function LexResult(s: Scanner): Kind
    requires s.next <= |s.loads|
  {
    OutcomeOf(s).Returned()
  }

  /**
   * What one lex() call does to the state: the state stays valid, yylineno
   * grows by the number of loads read and by nothing else, and diagnostics are
   * only appended, and only with warnings.
   */
  lemma LexStepState(s: Scanner)
    requires s.Valid()
    ensures var s' := LexStep(s);
      s'.Valid() && s'.loads == s.loads && s.next <= s'.next &&
      s'.yylineno - s.yylineno == s'.next - s.next &&
      s.diags <= s'.diags && OnlyWarnings(s'.diags[|s.diags|..])
  {
    var o := OutcomeOf(s);
    assert LexStep(s).diags[|s.diags|..] == Warnings(o.warnings);
  }

  /** The token one lex() call returns is the head of the upcoming stream, and
      its remainder is what comes after. */
  lemma LexStepStream(s: Scanner)
    requires s.next <= |s.loads|
    ensures s.Upcoming() == Cons(LexResult(s), LexStep(s).Upcoming())
  {
    NextTokenStream(s.buf, s.Cursor(), s.loads, s.next, s.yytext, s.yyleng);
  }

  // ---------------------------------------------------------------------------
  // Single steps of lex(), as the imperative lexer takes them

  /**
   * Part way through a lex() call that started in s0, in state s with cursor
   * cur: finishing the call from here yields the call's outcome, with the m
   * loads already read and the warnings w already written.
   */
  ghost predicate Tracks(s0: Scanner, s: Scanner, cur: nat, w: seq<char>, m: nat)
  {
    s0.next <= |s0.loads| && s.loads == s0.loads && s.next == s0.next + m && s.next <= |s.loads| &&
    s.yylineno == s0.yylineno + m && s.diags == s0.diags + Warnings(w) &&
    Extend(NextToken(s.buf, cur, s.loads, s.next, s.yytext, s.yyleng), w, m) == OutcomeOf(s0)
  }

  /** A call starts at the cursor yytext + yyleng. */
  lemma TrackStart(s0: Scanner)
    requires s0.next <= |s0.loads|
    ensures Tracks(s0, s0, s0.Cursor(), [], 0)
  {
    assert s0.diags + Warnings([]) == s0.diags;
  }

  /** At the buffer's NUL with no load left, the call returns EOI with the buffer emptied. */
  lemma TrackExhausted(s0: Scanner, s: Scanner, cur: nat, w: seq<char>, m: nat)
    requires Tracks(s0, s, cur, w, m) && cur >= |s.buf| && s.next == |s.loads|
    ensures LexResult(s0) == EOI && LexStep(s0) == s.(buf := [])
  {
    assert w + [] == w;
  }

  /** At the buffer's NUL with a load left, lex() reads it and skips its leading isspace characters. */
  lemma TrackReread(s0: Scanner, s: Scanner, cur: nat, w: seq<char>, m: nat)
    requires Tracks(s0, s, cur, w, m) && cur >= |s.buf| && s.next < |s.loads|
    ensures Tracks(s0, s.(buf := s.loads[s.next], next := s.next + 1, yylineno := s.yylineno + 1),
                   SkipSpace(s.loads[s.next], 0), w, m + 1)
  {
    ExtendExtend(NextToken(s.loads[s.next], SkipSpace(s.loads[s.next], 0), s.loads, s.next + 1, s.yytext, s.yyleng),
                 [], 1, w, m);
    assert w + [] == w;
  }

  /** A one-character token ends the call, with yytext at it and yyleng 1. */
  lemma TrackSingle(s0: Scanner, s: Scanner, cur: nat, w: seq<char>, m: nat)
    requires Tracks(s0, s, cur, w, m) && cur < |s.buf| && Single(s.buf[cur]).Some?
    ensures LexResult(s0) == Single(s.buf[cur]).value && LexStep(s0) == s.(yytext := cur, yyleng := 1)
  {
    assert w + [] == w;
  }

  /** A blank is passed over; yytext and yyleng are left at it. */
  lemma TrackBlank(s0: Scanner, s: Scanner, cur: nat, w: seq<char>, m: nat)
    requires Tracks(s0, s, cur, w, m) && cur < |s.buf| && Single(s.buf[cur]).None? && IsBlank(s.buf[cur])
    ensures Tracks(s0, s.(yytext := cur, yyleng := 1), cur + 1, w, m)
  {
  }

  /** An illegal character is warned about and passed over. */
  lemma TrackIllegal(s0: Scanner, s: Scanner, cur: nat, w: seq<char>, m: nat)
    requires Tracks(s0, s, cur, w, m) && cur < |s.buf|
    requires Single(s.buf[cur]).None? && !IsBlank(s.buf[cur]) && !IsAlnum(s.buf[cur])
    ensures Tracks(s0, s.(yytext := cur, yyleng := 1, diags := s.diags + [IllegalInput(s.buf[cur])]),
                   cur + 1, w + [s.buf[cur]], m)
  {
    var c := s.buf[cur];
    ExtendExtend(NextToken(s.buf, cur + 1, s.loads, s.next, cur, 1), [c], 0, w, m);
    WarningsSnoc(w, c);
  }

  /** An alphanumeric character starts the lexeme of a NUM_OR_ID that runs to n. */
  lemma TrackWord(s0: Scanner, s: Scanner, cur: nat, n: nat, w: seq<char>, m: nat)
    requires Tracks(s0, s, cur, w, m) && cur < |s.buf| && Single(s.buf[cur]).None?
    requires !IsBlank(s.buf[cur]) && IsAlnum(s.buf[cur]) && n == RunEnd(s.buf, cur)
    ensures LexResult(s0) == NumOrId && LexStep(s0) == s.(yytext := cur, yyleng := n - cur)
  {
    assert w + [] == w;
  }

  /** Extending an extended outcome adds up the warnings and the loads read. */
  lemma ExtendExtend(o: Outcome, a: seq<char>, i: nat, b: seq<char>, j: nat)
    ensures Extend(Extend(o, a, i), b, j) == Extend(o, b + a, j + i)
  {
    assert b + (a + o.warnings) == (b + a) + o.warnings;
  }
}
