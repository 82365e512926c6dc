/** Tokens written as text, and scanning as the inverse of writing. */
module Rendering {
  import opened Tokens
  import opened Lexing

  predicate AllIn(k: Class, s: string) {
    forall i | 0 <= i < |s| :: Is(k, s[i])
  }

  /** How the scanner wants a token of a fixed spelling: by the table of names,
      but with the shifts the other way round. */
  function Spelling(kind: TokenType): string {
    match kind
    case TShiftL => "|<"
    case TShiftR => ">|"
    case _ => Name(kind)
  }

  predicate IsFloat(v: string) {
    exists n :: 0 < n < |v| && AllIn(Digit, v[..n]) && v[n] == '.' && AllIn(Digit, v[n + 1..])
  }

  /** The tokens that some text is scanned to. */
  predicate Valid(t: Token) {
    var v := t.value;
    match t.kind
    case TIntD => v != "" && AllIn(Digit, v)
    case TIntB => |v| >= 2 && Is(Digit, v[0]) && (v[1] == 'b' || v[1] == 'B') && AllIn(Binary, v[2..])
    case TIntX => |v| >= 2 && Is(Digit, v[0]) && (v[1] == 'x' || v[1] == 'X') && AllIn(Hex, v[2..])
    case TFloat => IsFloat(v)
    case TString => '\0' !in v
    case TId => v != "" && IsAlpha(v[0]) && AllIn(Word, v) && Named(v) == TUnknown
    case TEos => false
    case TUnknown => false
    case _ => v == Spelling(t.kind)
  }

  function EscapeChar(c: char): string {
    if c == BEL then "\\a"
    else if c == BS then "\\b"
    else if c == FF then "\\f"
    else if c == '\n' then "\\n"
    else if c == '\r' then "\\r"
    else if c == '\t' then "\\t"
    else if c == VT then "\\v"
    else if c == '\\' || c == '\'' || c == '"' then ['\\', c]
    else [c]
  }

  function Escape(v: string): string {
    if v == "" then "" else EscapeChar(v[0]) + Escape(v[1..])
  }

  function Text(t: Token): string {
    if t.kind == TString then "\"" + Escape(t.value) + "\"" else t.value
  }

  /** Each token followed by a space. */
  function Render(ts: seq<Token>): string {
    if ts == [] then "" else Text(ts[0]) + " " + Render(ts[1..])
  }

  // ----- runs -----

  lemma {:induction false} RunAll(k: Class, a: string, b: string)
    requires AllIn(k, a) && !Is(k, At(b))
    ensures Run(k, a + b) == |a|
  {
    if a == "" {
      assert a + b == b;
    } else {
      assert (a + b)[1..] == a[1..] + b;
      RunAll(k, a[1..], b);
    }
  }

  lemma {:induction false} RunIn(k: Class, s: string)
    ensures AllIn(k, s[..Run(k, s)])
  {
    if s != "" && Is(k, s[0]) {
      RunIn(k, s[1..]);
      var n := Run(k, s);
      assert s[..n] == [s[0]] + s[1..][..n - 1];
    }
  }

  // ----- writing, then scanning -----

  predicate IsQuote(d: char) {
    d == '"' || d == '\''
  }

  /** One escaped character is read back as that character. */
  lemma {:induction false} BodyOfChar(d: char, c: char, s: string)
    requires IsQuote(d) && c != '\0'
    ensures StringBody(d, EscapeChar(c) + s) == Prepend([c], StringBody(d, s))
  {
    var w := EscapeChar(c) + s;
    if |EscapeChar(c)| == 1 {
      assert w[1..] == s;
    } else {
      var e := EscapeChar(c)[1];
      assert Drop(w, 2) == s && w[0] == '\\' && At(w[1..]) == e;
      assert IsEscape(e) && Unescape(e) == c && e != 'x';
    }
  }

  lemma {:induction false} BodyOfEscape(d: char, v: string, rest: string)
    requires IsQuote(d) && '\0' !in v
    ensures StringBody(d, Escape(v) + [d] + rest) == Body(true, v, rest)
  {
    hide EscapeChar;
    if v == "" {
      assert Escape(v) + [d] + rest == [d] + rest;
    } else {
      var s := Escape(v[1..]) + [d] + rest;
      assert Escape(v) + [d] + rest == EscapeChar(v[0]) + s;
      BodyOfEscape(d, v[1..], rest);
      BodyOfChar(d, v[0], s);
    }
  }

  /** Either quote delimits a string. */
  lemma {:induction false} QuotedText(d: char, v: string, r: string)
    requires IsQuote(d) && '\0' !in v
    ensures LexToken([d] + Escape(v) + [d] + r) == (Token(TString, v), r)
  {
    hide Escape, StringBody, LexNumber, LexPair, LexDots, Named;
    var s := [d] + Escape(v) + [d] + r;
    BodyOfEscape(d, v, r);
    assert s[1..] == Escape(v) + [d] + r && s[0] == d;
  }

  lemma {:induction false} HexBody(d: char, h: char, k: char, w: string)
    requires IsQuote(d) && Is(Hex, h) && Is(Hex, k)
    ensures StringBody(d, ['\\', 'x', h, k] + w) == Prepend([h, k], StringBody(d, w))
  {
    hide Prepend;
    var b := ['\\', 'x', h, k] + w;
    assert At(b) == '\\' && At(b[1..]) == 'x' && At(Drop(b, 2)) == h && At(Drop(b, 3)) == k && Drop(b, 4) == w;
  }

  lemma {:induction false} StringEnd(d: char, r: string)
    ensures StringBody(d, [d] + r) == Body(true, "", r)
  {
    assert Drop([d] + r, 1) == r;
  }

  /** The two digits of an `\x` escape stand for themselves. */
  lemma {:induction false} HexEscapeText(d: char, h: char, k: char, r: string)
    requires IsQuote(d) && Is(Hex, h) && Is(Hex, k)
    ensures LexToken([d, '\\', 'x', h, k, d] + r) == (Token(TString, [h, k]), r)
  {
    hide LexNumber, LexPair, LexDots, Named, StringBody;
    var s := [d, '\\', 'x', h, k, d] + r;
    assert s[1..] == ['\\', 'x', h, k] + ([d] + r) && s[0] == d;
    HexBody(d, h, k, [d] + r);
    StringEnd(d, r);
    assert [h, k] + "" == [h, k];
  }

  predicate IsPlain(d: char, c: char) {
    c != d && c != '\\' && c != '\0' && !IsNewLine(c)
  }

  /** A line break, or the end of the text, inside a string makes the token unknown. */
  lemma {:induction false} BrokenText(d: char, v: string, r: string)
    requires IsQuote(d) && (forall i | 0 <= i < |v| :: IsPlain(d, v[i])) && (At(r) == '\0' || IsNewLine(At(r)))
    ensures LexToken([d] + v + r) == (Token(TUnknown, v), r)
  {
    hide StringBody, LexNumber, LexPair, LexDots, Named, IsPlain;
    var s := [d] + v + r;
    BrokenBody(d, v, r);
    assert s[1..] == v + r && s[0] == d;
  }

  lemma {:induction false} BrokenBody(d: char, v: string, r: string)
    requires IsQuote(d) && (forall i | 0 <= i < |v| :: IsPlain(d, v[i])) && (At(r) == '\0' || IsNewLine(At(r)))
    ensures StringBody(d, v + r) == Body(false, v, r)
  {
    if v == "" {
      assert v + r == r;
    } else {
      assert IsPlain(d, v[0]) && (v + r)[1..] == v[1..] + r;
      BrokenBody(d, v[1..], r);
    }
  }

  /** What ends a word, a number or an operator. */
  predicate Breaks(r: string) {
    At(r) == '\0' || IsSpace(At(r)) || IsNewLine(At(r)) || At(r) == '/'
  }

  /** A division must not run into a comment. */
  predicate Separates(kind: TokenType, r: string) {
    Breaks(r) && (kind == TDiv ==> At(r) != '/')
  }

  lemma {:induction false} LexBasedText(v: string, r: string, k: Class, kind: TokenType)
    requires |v| >= 2 && Is(Digit, v[0]) && AllIn(k, v[2..])
    requires
      || (k == Binary && kind == TIntB && (v[1] == 'b' || v[1] == 'B'))
      || (k == Hex && kind == TIntX && (v[1] == 'x' || v[1] == 'X'))
    requires Breaks(r)
    ensures LexNumber(v + r) == (Token(kind, v), r)
  {
    var s := v + r;
    assert s[2..] == v[2..] + r;
    RunAll(k, v[2..], r);
    assert s[..|v|] == v && s[|v|..] == r;
  }

  lemma {:induction false} LexDecimalText(v: string, r: string)
    requires v != "" && AllIn(Digit, v)
    requires Breaks(r)
    ensures LexNumber(v + r) == (Token(TIntD, v), r)
  {
    var s := v + r;
    assert s[1..] == v[1..] + r;
    assert AllIn(Digit, v[1..]) by { assert forall i | 0 <= i < |v| - 1 :: v[1..][i] == v[i + 1]; }
    RunAll(Digit, v[1..], r);
    assert Is(Digit, v[0]) && (|v| > 1 ==> Is(Digit, s[1]) && s[1] == v[1]);
    assert s[..|v|] == v && s[|v|..] == r;
  }

  lemma {:induction false} LexFloatText(v: string, r: string)
    requires IsFloat(v)
    requires Breaks(r)
    ensures LexNumber(v + r) == (Token(TFloat, v), r) && Is(Digit, v[0])
  {
    var n :| 0 < n < |v| && AllIn(Digit, v[..n]) && v[n] == '.' && AllIn(Digit, v[n + 1..]);
    var s := v + r;
    assert Is(Digit, v[..n][0]);
    FloatRuns(v, n, r);
    assert v + r == s;
    assert !(At(s[1..]) == 'b' || At(s[1..]) == 'B' || At(s[1..]) == 'x' || At(s[1..]) == 'X') by {
      assert n > 1 ==> Is(Digit, v[..n][1]);
    }
    assert s[..|v|] == v && s[|v|..] == r;
  }

  lemma {:induction false} FloatRuns(v: string, n: nat, e: string)
    requires 0 < n < |v| && AllIn(Digit, v[..n]) && v[n] == '.' && AllIn(Digit, v[n + 1..]) && !Is(Digit, At(e))
    ensures Run(Digit, (v + e)[1..]) == n - 1 && Run(Digit, (v + e)[n + 1..]) == |v| - n - 1
  {
    assert (v + e)[1..] == v[1..n] + (v[n..] + e);
    assert AllIn(Digit, v[1..n]) by { assert forall i | 0 <= i < n - 1 :: v[1..n][i] == v[..n][i + 1]; }
    RunAll(Digit, v[1..n], v[n..] + e);
    assert (v + e)[n + 1..] == v[n + 1..] + e;
    RunAll(Digit, v[n + 1..], e);
  }

  lemma {:induction false} LexWordText(v: string, r: string)
    requires v != "" && IsAlpha(v[0]) && AllIn(Word, v)
    requires Breaks(r)
    ensures LexToken(v + r) == (Token(Infer(v, TId), v), r)
  {
    hide Named;
    RunAll(Word, v, r);
    assert v + r == v + r;
    assert (v + r)[..|v|] == v;
  }

  lemma {:induction false} LexNumberText(t: Token, r: string)
    requires IsNumber(t.kind) && Valid(t)
    requires Breaks(r)
    ensures t.value != "" && Is(Digit, t.value[0])
    ensures LexNumber(t.value + r) == (t, r)
  {
    hide LexNumber, Name, Spelling;
    match t.kind {
      case TIntB => LexBasedText(t.value, r, Binary, TIntB);
      case TIntX => LexBasedText(t.value, r, Hex, TIntX);
      case TIntD => LexDecimalText(t.value, r);
      case TFloat => LexFloatText(t.value, r);
      case _ =>
    }
  }

  lemma {:induction false} KeywordText(kind: TokenType)
    requires IsKeyword(kind)
    ensures Spelling(kind) != "" && IsAlpha(Spelling(kind)[0]) && AllIn(Word, Spelling(kind))
    ensures Infer(Spelling(kind), TId) == kind
  {
    KeywordLetters(kind);
    hide Named, KeywordName;
    NamedName(kind);
  }

  lemma {:induction false} KeywordLetters(kind: TokenType)
    requires IsKeyword(kind)
    ensures KeywordName(kind) != "" && AllIn(Word, KeywordName(kind)) && IsAlpha(KeywordName(kind)[0])
  {
  }

  /** The characters of the operators that may begin a longer one, and of those
      that they may grow to. */
  predicate Munches(v: string, kind: TokenType) {
    || (|v| == 1
        && (v[0], kind)
           in {('&', TAnd), ('|', TOr), ('=', TAssign), ('!', TNot), ('>', TGt), ('<', TLt), ('.', TDot)})
    || (|v| == 2
        && (v[0], v[1], kind)
           in {('&', '&', TAnd2), ('|', '|', TOr2), ('|', '<', TShiftL), ('=', '=', TEq), ('<', '=', TLe),
               ('>', '|', TShiftR), ('>', '=', TGe), ('!', '=', TNe), ('.', '.', TDot2)})
    || (|v| == 3 && v[0] == v[1] == v[2] == '.' && kind == TDot3)
  }

  lemma {:induction false} MunchedSpelling(kind: TokenType)
    requires IsMunched(kind)
    ensures Munches(Spelling(kind), kind)
  {
    hide KeywordName, SingleName, ClassName;
  }

  lemma {:induction false} MunchedValid(v: string, kind: TokenType)
    requires Munches(v, kind)
    ensures Valid(Token(kind, v))
  {
    hide KeywordName, SingleName, ClassName;
  }

  lemma {:induction false} LexMunchedText(kind: TokenType, r: string)
    requires IsMunched(kind)
    requires Breaks(r)
    ensures LexToken(Spelling(kind) + r) == (Token(kind, Spelling(kind)), r)
  {
    hide Named, LexNumber, LexString, Spelling;
    MunchedSpelling(kind);
    var s := Spelling(kind) + r;
    assert s[|Spelling(kind)|..] == r && s[..|Spelling(kind)|] == Spelling(kind);
  }

  lemma {:induction false} LexSingleText(kind: TokenType, r: string)
    requires !IsMunched(kind) && !IsKeyword(kind) && IsFixed(kind)
    requires Separates(kind, r)
    ensures LexToken(Spelling(kind) + r) == (Token(kind, Spelling(kind)), r)
  {
    hide LexNumber, LexString, LexPair, LexDots, Named, Name, Spelling;
    var s := Spelling(kind) + r;
    SingleSpelling(kind);
    assert s[1..] == r && s[..1] == Spelling(kind) == [s[0]];
  }

  /** Such a token is one character that begins nothing longer. */
  lemma {:induction false} SingleSpelling(kind: TokenType)
    requires !IsMunched(kind) && !IsKeyword(kind) && IsFixed(kind)
    ensures |Spelling(kind)| == 1 && Infer(Spelling(kind), TUnknown) == kind
    ensures var c := Spelling(kind)[0];
            !Is(Digit, c) && !IsAlpha(c) && c !in "\0\"'|&=!><." && !IsNewLine(c) && !IsSpace(c)
            && (c == '/' ==> kind == TDiv)
  {
    NamedName(kind);
  }

  /** What begins with a token's text is past all blanks and comments. */
  predicate Solid(s: string) {
    && At(s) != '\0' && !IsNewLine(At(s)) && !IsSpace(At(s))
    && (s[0] == '/' ==> At(s[1..]) != '/' && At(s[1..]) != '*')
  }

  lemma {:induction false} LexFixedText(t: Token, r: string)
    requires IsFixed(t.kind) && Valid(t)
    requires Separates(t.kind, r)
    ensures LexToken(Text(t) + r) == (t, r)
  {
    hide Name, Spelling, LexToken, Named;
    if IsKeyword(t.kind) {
      KeywordText(t.kind);
      LexWordText(t.value, r);
    } else if IsMunched(t.kind) {
      LexMunchedText(t.kind, r);
    } else {
      LexSingleText(t.kind, r);
    }
  }

  lemma {:induction false} LexText(t: Token, r: string)
    requires Valid(t)
    requires Separates(t.kind, r)
    ensures LexToken(Text(t) + r) == (t, r)
  {
    if IsNumber(t.kind) {
      hide Valid, LexNumber, Spelling, Named, LexPair, LexDots, LexString;
      LexNumberText(t, r);
    } else {
      hide Name, Spelling, LexToken, IsFloat, AllIn, IsAlpha, Named;
      if t.kind == TString {
        QuotedText('"', t.value, r);
      } else if t.kind == TId {
        LexWordText(t.value, r);
      } else {
        LexFixedText(t, r);
      }
    }
  }

  /** A text that is read back as a token does not begin with a blank. */
  lemma {:induction false} LexedIsSolid(t: Token, r: string)
    requires Valid(t)
    requires Separates(t.kind, r)
    ensures Solid(Text(t) + r)
  {
    hide Named, LexNumber, LexPair, LexDots, StringBody;
    if IsNumber(t.kind) {
      LexNumberText(t, r);
    } else if t.kind != TString && t.kind != TId {
      SpelledIsSolid(t.kind, r);
    }
  }

  lemma {:induction false} SpelledIsSolid(kind: TokenType, r: string)
    requires IsFixed(kind)
    requires Separates(kind, r)
    ensures Solid(Spelling(kind) + r)
  {
    SpellingStart(kind);
    hide Name, Spelling, IsFixed;
    var s := Spelling(kind) + r;
    assert s[0] == Spelling(kind)[0] && (|Spelling(kind)| == 1 ==> s[1..] == r);
  }

  lemma {:induction false} SpellingStart(kind: TokenType)
    requires IsFixed(kind)
    ensures Spelling(kind) != ""
    ensures var c := Spelling(kind)[0];
            c != '\0' && !IsNewLine(c) && !IsSpace(c) && (c == '/' ==> |Spelling(kind)| == 1 && kind == TDiv)
  {
    hide Spelling, Named, AllIn;
    if IsKeyword(kind) {
      KeywordText(kind);
    } else if IsMunched(kind) {
      MunchedSpelling(kind);
    } else {
      SingleSpelling(kind);
    }
  }

  lemma {:induction false} SkipSolid(s: string)
    requires Solid(s)
    ensures Skip(s) == s
  {
  }

  lemma {:induction false} SameSkip(a: string, b: string)
    requires Skip(a) == Skip(b)
    ensures TokensOf(a) == TokensOf(b)
  {
    hide Skip, LexToken;
  }

  lemma {:induction false} BlankSkipped(c: char, r: string)
    requires IsSpace(c) || IsNewLine(c)
    ensures TokensOf([c] + r) == TokensOf(r)
  {
    assert ([c] + r)[1..] == r;
    SameSkip([c] + r, r);
  }

  /** A token that is written and separated from what follows is read first. */
  lemma {:induction false} TokenThen(t: Token, r: string)
    requires Valid(t) && Separates(t.kind, r)
    ensures TokensOf(Text(t) + r) == [t] + TokensOf(r)
  {
    hide Text, LexToken, Solid, Separates;
    LexText(t, r);
    LexedIsSolid(t, r);
    SkipSolid(Text(t) + r);
    assert t.kind != TEos;
  }

  /** Scanning undoes writing. */
  lemma {:induction false} TokenRoundTrip(ts: seq<Token>)
    requires forall i | 0 <= i < |ts| :: Valid(ts[i])
    ensures TokensOf(Render(ts)) == ts
  {
    hide Valid, Text, TokensOf;
    if ts == [] {
      NoTokens();
    } else {
      var r := Render(ts[1..]);
      TokenRoundTrip(ts[1..]);
      TokenThen(ts[0], " " + r);
      BlankSkipped(' ', r);
      assert Render(ts) == Text(ts[0]) + (" " + r);
    }
  }

  lemma {:induction false} NoTokens()
    ensures TokensOf("") == []
  {
  }

  // ----- scanning yields only what can be written -----

  lemma {:induction false} BodyValue(delimiter: char, s: string)
    requires delimiter != '\0'
    ensures '\0' !in StringBody(delimiter, s).value
    decreases |s|
  {
    var c := At(s);
    if c != delimiter && c != '\0' && !IsNewLine(c) {
      if c == '\\' {
        if At(s[1..]) == 'x' {
          BodyValue(delimiter, Drop(s, 4));
        } else if IsEscape(At(s[1..])) {
          BodyValue(delimiter, Drop(s, 2));
        }
      } else {
        BodyValue(delimiter, s[1..]);
      }
    }
  }

  lemma {:induction false} RunTaken(k: Class, s: string, n: nat)
    requires n <= |s|
    ensures AllIn(k, s[..n + Run(k, s[n..])][n..])
  {
    RunIn(k, s[n..]);
    assert s[..n + Run(k, s[n..])][n..] == s[n..][..Run(k, s[n..])];
  }

  lemma {:induction false} LexNumberValid(s: string)
    requires s != "" && Is(Digit, s[0])
    ensures Valid(LexNumber(s).0)
  {
    hide Name, Spelling, Run, IsFloat;
    var c := At(s[1..]);
    if c == 'b' || c == 'B' {
      RunTaken(Binary, s, 2);
    } else if c == 'x' || c == 'X' {
      RunTaken(Hex, s, 2);
    } else {
      RunIn(Digit, s[1..]);
      var n := 1 + Run(Digit, s[1..]);
      assert s[..n] == [s[0]] + s[1..][..n - 1];
      if At(s[n..]) == '.' {
        FloatTaken(s, n);
      }
    }
  }

  lemma {:induction false} FloatTaken(s: string, n: nat)
    requires 0 < n < |s| && AllIn(Digit, s[..n]) && s[n] == '.'
    ensures IsFloat(s[..n + 1 + Run(Digit, s[n + 1..])])
  {
    var v := s[..n + 1 + Run(Digit, s[n + 1..])];
    RunTaken(Digit, s, n + 1);
    assert v[..n] == s[..n] && v[n] == '.';
  }

  lemma {:induction false} WordValid(v: string)
    requires v != "" && IsAlpha(v[0]) && AllIn(Word, v)
    ensures Valid(Token(Infer(v, TId), v))
  {
    hide Named;
    NameOfNamed(v);
  }

  lemma {:induction false} LexWordValid(s: string)
    requires IsAlpha(At(s))
    ensures Valid(LexToken(s).0)
  {
    hide Name, Named, Spelling, Valid;
    RunIn(Word, s);
    WordValid(s[..Run(Word, s)]);
  }

  lemma {:induction false} LexSingleValid(s: string)
    requires At(s) !in "&|=<>!.\0" && !Is(Digit, At(s)) && At(s) != '"' && At(s) != '\'' && !IsAlpha(At(s))
    ensures LexToken(s).0.kind == TUnknown || Valid(LexToken(s).0)
  {
    NameOfNamed([At(s)]);
    assert s[..1] == [At(s)];
  }

  lemma {:induction false} LexStringValid(s: string)
    requires At(s) == '"' || At(s) == '\''
    ensures LexToken(s).0.kind == TUnknown || Valid(LexToken(s).0)
  {
    hide Name, Named, LexNumber, LexPair, LexDots, StringBody;
    BodyValue(At(s), s[1..]);
  }

  lemma {:induction false} LexMunchedValid(s: string)
    requires At(s) in "&|=<>!."
    ensures Valid(LexToken(s).0)
  {
    hide LexNumber, LexString, LexPair, LexDots, Valid;
    var c := s[0];
    if c == '.' {
      DotsValid(s);
    } else {
      PairValid(s, if c == '&' then TAnd else if c == '|' then TOr else if c == '=' then TAssign
                   else if c == '<' then TLt else if c == '>' then TGt else TNot);
    }
  }

  lemma {:induction false} PairValid(s: string, one: TokenType)
    requires s != "" && Munches([s[0]], one)
    ensures Valid(LexPair(s, one).0)
  {
    hide Valid;
    var t := LexPair(s, one).0;
    MunchedValid(t.value, t.kind);
  }

  lemma {:induction false} DotsValid(s: string)
    requires At(s) == '.'
    ensures Valid(LexDots(s).0)
  {
    hide Valid;
    var t := LexDots(s).0;
    MunchedValid(t.value, t.kind);
  }

  /** Every token but an unknown one is spelled as it would be written. */
  lemma {:induction false} LexTokenValid(s: string)
    ensures LexToken(s).0.kind in {TUnknown, TEos} || Valid(LexToken(s).0)
  {
    var c := At(s);
    if c == '\0' {
    } else {
      hide Valid, LexToken;
      if Is(Digit, c) {
        LexDigitValid(s);
      } else if c == '"' || c == '\'' {
        LexStringValid(s);
      } else if IsAlpha(c) {
        LexWordValid(s);
      } else if c in "&|=<>!." {
        LexMunchedValid(s);
      } else {
        LexSingleValid(s);
      }
    }
  }

  lemma {:induction false} LexDigitValid(s: string)
    requires Is(Digit, At(s))
    ensures Valid(LexToken(s).0)
  {
    hide Valid, LexNumber;
    LexNumberValid(s);
  }

  lemma {:induction false} ScannedValid(s: string)
    ensures forall i | 0 <= i < |TokensOf(s)| :: TokensOf(s)[i].kind == TUnknown || Valid(TokensOf(s)[i])
    ensures forall i | 0 <= i < |TokensOf(s)| :: TokensOf(s)[i].kind != TEos
    decreases |s|
  {
    hide Valid, LexToken;
    LexTokenValid(Skip(s));
    var (t, rest) := Lex(s);
    if t.kind != TEos {
      ScannedValid(rest);
    }
  }

  predicate AllKnown(ts: seq<Token>) {
    forall i | 0 <= i < |ts| :: ts[i].kind != TUnknown
  }

  lemma {:induction false} ValidKnown(t: Token)
    ensures Valid(t) ==> t.kind != TUnknown
  {
    hide Spelling, IsFloat;
  }

  /** The token sequences without an unknown token that texts are scanned to are
      exactly the sequences of valid tokens. */
  lemma {:induction false} ScannerRange(ts: seq<Token>)
    ensures (exists s :: TokensOf(s) == ts && AllKnown(ts)) <==> forall i | 0 <= i < |ts| :: Valid(ts[i])
  {
    hide TokensOf, Valid, Render;
    if s :| TokensOf(s) == ts && AllKnown(ts) {
      ScannedValid(s);
    }
    if forall i | 0 <= i < |ts| :: Valid(ts[i]) {
      TokenRoundTrip(ts);
      forall i | 0 <= i < |ts| ensures ts[i].kind != TUnknown {
        ValidKnown(ts[i]);
      }
      assert TokensOf(Render(ts)) == ts && AllKnown(ts);
    }
  }
}
