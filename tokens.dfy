/** The token kinds shared by the lexer and the parser, and their integer codes. */
module Tokens {

  datatype Option<T> = None | Some(value: T)

  /** The seven kinds of token the lexer returns. */
  datatype Kind = EOI | Semi | Plus | Times | LParen | RParen | NumOrId

  /** The integer code of each kind: EOI = 0 up to NUM_OR_ID = 6. */
  function Code(k: Kind): (c: int)
    ensures 0 <= c <= 6
    ensures c == 0 <==> k == EOI
  {
    match k
    case EOI => 0
    case Semi => 1
    case Plus => 2
    case Times => 3
    case LParen => 4
    case RParen => 5
    case NumOrId => 6
  }

  /** The kind a code stands for, if any. */
  function FromCode(c: int): (r: Option<Kind>)
    ensures r.Some? <==> 0 <= c <= 6
  {
    if c == 0 then Some(EOI)
    else if c == 1 then Some(Semi)
    else if c == 2 then Some(Plus)
    else if c == 3 then Some(Times)
    else if c == 4 then Some(LParen)
    else if c == 5 then Some(RParen)
    else if c == 6 then Some(NumOrId)
    else None
  }

  /** Decoding an encoded kind gives the kind back. */
  lemma DecodeEncode(k: Kind)
    ensures FromCode(Code(k)) == Some(k)
  {
  }

  /** Encoding a decoded code gives the code back. */
  lemma EncodeDecode(c: int)
    requires 0 <= c <= 6
    ensures Code(FromCode(c).value) == c
  {
  }

  /** Distinct kinds have distinct codes. */
  lemma CodeInjective(j: Kind, k: Kind)
    ensures Code(j) == Code(k) ==> j == k
  {
    DecodeEncode(j);
    DecodeEncode(k);
  }
}
