/** What the scanner reads off a text, as functions of the unread rest of it. */
module Lexing {
  import opened Tokens

  // ----- characters -----

  /** The text ends with its first NUL, or where it ends. */
  function At(s: string): char {
    if s == "" then '\0' else s[0]
  }

  function Drop(s: string, n: nat): string {
    if n <= |s| then s[n..] else ""
  }

  const BEL := '\U{0007}'
  const BS := '\U{0008}'
  const VT := '\U{000B}'
  const FF := '\U{000C}'

  predicate IsNewLine(c: char) {
    c == '\n' || c == '\r'
  }

  predicate IsSpace(c: char) {
    c == ' ' || c == FF || c == '\t' || c == VT
  }

  /** The character classes that runs are read in. */
  datatype Class = Binary | Digit | Hex | Word

  predicate IsAlpha(c: char) {
    'A' <= c <= 'Z' || 'a' <= c <= 'z' || c == '_'
  }

  predicate Is(k: Class, c: char) {
    match k
    case Binary => c == '0' || c == '1'
    case Digit => '0' <= c <= '9'
    case Hex => '0' <= c <= '9' || 'A' <= c <= 'F' || 'a' <= c <= 'f'
    case Word => IsAlpha(c) || '0' <= c <= '9'
  }

  /** The length of the longest run of the class at the start. */
  function Run(k: Class, s: string): (n: nat)
    ensures n <= |s|
  {
    if s != "" && Is(k, s[0]) then 1 + Run(k, s[1..]) else 0
  }

  // ----- blanks and comments -----

  function SkipLine(s: string): (r: string)
    ensures |r| <= |s|
  {
    if At(s) == '\0' || IsNewLine(At(s)) then s else SkipLine(s[1..])
  }

  function SkipSection(s: string): (r: string)
    ensures |r| <= |s|
  {
    if At(s) == '\0' then s
    else if s[0] == '*' && At(s[1..]) == '/' then s[2..]
    else SkipSection(s[1..])
  }

  /** The rest from the next token on. */
  function Skip(s: string): (r: string)
    ensures |r| <= |s|
    decreases |s|
  {
    if At(s) == '\0' then s
    else if IsNewLine(s[0]) || IsSpace(s[0]) then Skip(s[1..])
    else if s[0] == '/' && At(s[1..]) == '/' then Skip(SkipLine(s[2..]))
    else if s[0] == '/' && At(s[1..]) == '*' then Skip(SkipSection(s[2..]))
    else s
  }

  // ----- tokens -----

  /** The character that an escape letter stands for. */
  function Unescape(c: char): char {
    match c
    case 'a' => BEL
    case 'b' => BS
    case 'f' => FF
    case 'n' => '\n'
    case 'r' => '\r'
    case 't' => '\t'
    case 'v' => VT
    case _ => c
  }

  predicate IsEscape(c: char) {
    c in "abfnrtv" || c == '\\' || c == '\'' || c == '"'
  }

  datatype Body = Body(ok: bool, value: string, rest: string)

  function Prepend(v: string, b: Body): Body {
    b.(value := v + b.value)
  }

  /** A string's characters up to its closing delimiter. The two digits of an
      `\x` escape are kept as they are. */
  function StringBody(delimiter: char, s: string): (b: Body)
    ensures |b.rest| <= |s|
  {
    var c := At(s);
    if c == delimiter then Body(true, "", Drop(s, 1))
    else if c == '\0' || IsNewLine(c) then Body(false, "", s)
    else if c == '\\' then
      var e := At(s[1..]);
      if e == 'x' then
        var h1, h2 := At(Drop(s, 2)), At(Drop(s, 3));
        if !Is(Hex, h1) then Body(false, "", Drop(s, 2))
        else if !Is(Hex, h2) then Body(false, [h1], Drop(s, 3))
        else Prepend([h1, h2], StringBody(delimiter, Drop(s, 4)))
      else if IsEscape(e) then Prepend([Unescape(e)], StringBody(delimiter, Drop(s, 2)))
      else Body(false, "", s[1..])
    else Prepend([c], StringBody(delimiter, s[1..]))
  }

  type Lexed = (Token, string)

  function Take(kind: TokenType, s: string, n: nat): Lexed
    requires n <= |s|
  {
    (Token(kind, s[..n]), s[n..])
  }

  /** A number: any digit may stand before the `b` or `x`. */
  function LexNumber(s: string): (r: Lexed)
    requires s != ""
    ensures |r.1| < |s|
  {
    var c := At(s[1..]);
    if c == 'b' || c == 'B' then Take(TIntB, s, 2 + Run(Binary, s[2..]))
    else if c == 'x' || c == 'X' then Take(TIntX, s, 2 + Run(Hex, s[2..]))
    else
      var n := 1 + Run(Digit, s[1..]);
      if At(s[n..]) == '.' then Take(TFloat, s, n + 1 + Run(Digit, s[n + 1..]))
      else Take(TIntD, s, n)
  }

  function LexString(s: string): (r: Lexed)
    requires s != ""
    ensures |r.1| < |s|
  {
    var b := StringBody(s[0], s[1..]);
    (Token(if b.ok then TString else TUnknown, b.value), b.rest)
  }

  /** One or two characters, by what the second one is. */
  function LexPair(s: string, one: TokenType): Lexed
    requires s != ""
  {
    match (s[0], At(s[1..]))
    case ('&', '&') => Take(TAnd2, s, 2)
    case ('|', '|') => Take(TOr2, s, 2)
    case ('|', '<') => Take(TShiftL, s, 2)
    case ('=', '=') => Take(TEq, s, 2)
    case ('<', '=') => Take(TLe, s, 2)
    case ('>', '|') => Take(TShiftR, s, 2)
    case ('>', '=') => Take(TGe, s, 2)
    case ('!', '=') => Take(TNe, s, 2)
    case _ => Take(one, s, 1)
  }

  function LexDots(s: string): Lexed
    requires s != "" && s[0] == '.'
  {
    if At(s[1..]) != '.' then Take(TDot, s, 1)
    else if At(s[2..]) != '.' then Take(TDot2, s, 2)
    else Take(TDot3, s, 3)
  }

  /** The token that a rest without leading blanks and comments starts with. */
  function LexToken(s: string): (r: Lexed)
    ensures r.0.kind == TEos <==> At(s) == '\0'
    ensures r.0.kind == TEos ==> r == (Token(TEos, ""), s)
    ensures r.0.kind != TEos ==> |r.1| < |s|
  {
    var c := At(s);
    if c == '\0' then (Token(TEos, ""), s)
    else if c == '&' then LexPair(s, TAnd)
    else if c == '|' then LexPair(s, TOr)
    else if c == '=' then LexPair(s, TAssign)
    else if c == '<' then LexPair(s, TLt)
    else if c == '>' then LexPair(s, TGt)
    else if c == '!' then LexPair(s, TNot)
    else if c == '.' then LexDots(s)
    else if Is(Digit, c) then LexNumber(s)
    else if c == '"' || c == '\'' then LexString(s)
    else if IsAlpha(c) then
      var n := Run(Word, s);
      Take(Infer(s[..n], TId), s, n)
    else
      Take(Infer([c], TUnknown), s, 1)
  }

  function Lex(s: string): (r: Lexed)
    ensures r.0.kind != TEos ==> |r.1| < |s|
  {
    LexToken(Skip(s))
  }

  const EOS := Token(TEos, "")

  /** All tokens of a text before its end. */
  function TokensOf(s: string): seq<Token>
    decreases |s|
  {
    var (t, rest) := Lex(s);
    if t.kind == TEos then [] else [t] + TokensOf(rest)
  }
}
