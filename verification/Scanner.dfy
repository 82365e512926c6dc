/** The scanner: one character and at most one token of look-ahead over a text. */
module Scanner {
  import opened Tokens
  import opened Lexing

  /** What the scanner has yet to deliver: the token looked at, if it is known,
      and the tokens of the unread text. */
  datatype Pending = Pending(ahead: Token, tokens: seq<Token>)

  function First(ts: seq<Token>): Token {
    if ts == [] then EOS else ts[0]
  }

  function Rest(ts: seq<Token>): seq<Token> {
    if ts == [] then [] else ts[1..]
  }

  const NoToken := Token(TUnknown, "")

  /** An unknown token in the look-ahead place counts as none. */
  function Advance(p: Pending): (Pending, Token) {
    if p.ahead.kind != TUnknown then (p.(ahead := NoToken), p.ahead)
    else (p.(tokens := Rest(p.tokens)), First(p.tokens))
  }

  function LookAhead(p: Pending): (Pending, Token) {
    if p.ahead.kind != TUnknown then (p, p.ahead)
    else (Pending(First(p.tokens), Rest(p.tokens)), First(p.tokens))
  }

  lemma {:induction false} LexIsFirst(s: string)
    ensures Lex(s).0 == First(TokensOf(s)) && TokensOf(Lex(s).1) == Rest(TokensOf(s))
  {
    if Lex(s).0.kind == TEos {
      EndStays(s);
    }
  }

  lemma {:induction false} EndStays(s: string)
    requires Lex(s).0.kind == TEos
    ensures Lex(Lex(s).1) == Lex(s) && Lex(s).0 == EOS
  {
    SkipTwice(s);
  }

  lemma {:induction false} SkipTwice(s: string)
    ensures Skip(Skip(s)) == Skip(s)
    decreases |s|
  {
    if At(s) != '\0' {
      if IsNewLine(s[0]) || IsSpace(s[0]) {
        SkipTwice(s[1..]);
      } else if s[0] == '/' && At(s[1..]) == '/' {
        SkipTwice(SkipLine(s[2..]));
      } else if s[0] == '/' && At(s[1..]) == '*' {
        SkipTwice(SkipSection(s[2..]));
      }
    }
  }

  lemma {:induction false} EndLexed(s: string)
    requires At(s) == '\0'
    ensures LexToken(s) == (EOS, s)
  {
  }

  lemma {:induction false} SlashLexed(s: string)
    requires At(s) == '/'
    ensures LexToken(s) == (Token(TDiv, "/"), s[1..])
  {
    assert s[..1] == "/";
  }

  /** A string's body from an escape on. */
  lemma {:induction false} EscapeBody(delimiter: char, s: string)
    requires At(s) == '\\' && delimiter != '\\' && delimiter != '\0'
    ensures StringBody(delimiter, s) ==
            if At(s[1..]) == 'x' then
              if !Is(Hex, At(Drop(s, 2))) then Body(false, "", Drop(s, 2))
              else if !Is(Hex, At(Drop(s, 3))) then Body(false, [At(Drop(s, 2))], Drop(s, 3))
              else Prepend([At(Drop(s, 2)), At(Drop(s, 3))], StringBody(delimiter, Drop(s, 4)))
            else if IsEscape(At(s[1..])) then Prepend([Unescape(At(s[1..]))], StringBody(delimiter, Drop(s, 2)))
            else Body(false, "", s[1..])
  {
    hide Unescape, IsEscape, Prepend;
  }

  lemma {:induction false} PrependNothing(b: Body)
    ensures Prepend("", b) == b
  {
  }

  lemma {:induction false} PrependTwice(v: string, w: string, b: Body)
    ensures Prepend(v, Prepend(w, b)) == Prepend(v + w, b)
  {
    assert v + (w + b.value) == v + w + b.value;
  }

  lemma {:induction false} CutShort(s: string)
    requires s != ""
    ensures [] + [s[0]] == [s[0]] == s[..1]
    ensures |s| > 1 ==> s[1..][1..] == s[2..] && [s[0]] + [s[1]] == s[..2]
    ensures |s| > 2 ==> s[2..][1..] == s[3..] && s[..2] + [s[2]] == s[..3]
  {
  }

  lemma {:induction false} CutNext(s: string, i: nat)
    requires i < |s|
    ensures s[i..][1..] == s[i + 1..] && s[..i] + [s[i]] == s[..i + 1]
  {
  }

  class Scanner {
    const source: string
    /** The index of the current character. */
    var position: nat
    var current: char
    var token: Token
    var lookAhead: Token

    ghost predicate Valid()
      reads this
    {
      position <= |source| && current == At(source[position..])
    }

    ghost function Unread(): string
      requires Valid()
      reads this
    {
      source[position..]
    }

    ghost function View(): Pending
      requires Valid()
      reads this
    {
      Pending(lookAhead, TokensOf(Unread()))
    }

    /** A scanner that is ready for a text. */
    constructor (text: string)
      ensures Valid() && source == text && View() == Pending(NoToken, TokensOf(text)) && token == NoToken
    {
      source, position := text, 0;
      current := At(text);
      token, lookAhead := NoToken, NoToken;
      new;
      assert text[0..] == text;
    }

    // ----- characters -----

    /** The end of the text is never read past. */
    method ReadChar()
      requires Valid() && current != '\0'
      modifies `position, `current
      ensures Valid() && Unread() == old(Unread())[1..]
    {
      position := position + 1;
      current := At(source[position..]);
    }

    method SaveChar(c: char)
      modifies `token
      ensures token == old(token).(value := old(token.value) + [c])
    {
      token := token.(value := token.value + [c]);
    }

    method SaveAndReadChar()
      requires Valid() && current != '\0'
      modifies `position, `current, `token
      ensures Valid() && Unread() == old(Unread())[1..]
      ensures token == old(token).(value := old(token.value) + [old(current)])
    {
      SaveChar(current);
      ReadChar();
    }

    /** The token's text and the unread text are `s`, cut at `i`. */
    ghost predicate Reads(s: string, i: nat)
      requires Valid()
      reads this
    {
      i <= |s| && token.value == s[..i] && Unread() == s[i..]
    }

    /** The loop that saves a run of characters of one class. */
    method SaveRun(k: Class, ghost s: string, ghost i: nat)
      requires Valid() && Reads(s, i)
      modifies `position, `current, `token
      ensures Valid() && Reads(s, i + Run(k, s[i..])) && token.kind == old(token.kind)
    {
      ghost var j := i;
      while Is(k, current)
        invariant Valid() && i <= j && Reads(s, j) && i + Run(k, s[i..]) == j + Run(k, s[j..])
        invariant token.kind == old(token.kind)
        decreases |Unread()|
      {
        CutNext(s, j);
        SaveAndReadChar();
        j := j + 1;
      }
    }

    /** A line break of one or two characters. */
    method NewLine()
      requires Valid() && IsNewLine(current)
      modifies `position, `current
      ensures Valid()
      ensures Unread() == old(Unread())[1..]
              || (|old(Unread())| > 1 && IsNewLine(old(Unread())[1]) && Unread() == old(Unread())[2..])
    {
      var first := current;
      ReadChar();
      if current == '\n' || (current == '\r' && current != first) {
        ReadChar();
      }
    }

    // ----- comments -----

    method ScanLineComment()
      requires Valid() && current != '\0'
      modifies `position, `current
      ensures Valid() && Unread() == SkipLine(old(Unread())[1..])
    {
      ReadChar();
      while !IsNewLine(current) && current != '\0'
        invariant Valid() && SkipLine(Unread()) == SkipLine(old(Unread())[1..])
        decreases |Unread()|
      {
        ReadChar();
      }
    }

    method ScanSectionComment()
      requires Valid() && current != '\0'
      modifies `position, `current, `token
      ensures Valid() && Unread() == SkipSection(old(Unread())[1..])
      ensures token.value == old(token.value)
    {
      ReadChar();
      while true
        invariant Valid() && SkipSection(Unread()) == SkipSection(old(Unread())[1..])
        invariant token.value == old(token.value)
        decreases |Unread()|
      {
        if current == '\0' {
          token := token.(kind := TEos);
          return;
        } else if IsNewLine(current) {
          ghost var s := Unread();
          assert |s| > 1 ==> s[1..][1..] == s[2..];
          NewLine();
        } else if current == '*' {
          ghost var s := Unread();
          assert |s| > 1 ==> s[1..][1..] == s[2..];
          ReadChar();
          if current == '/' {
            ReadChar();
            return;
          }
        } else {
          ReadChar();
        }
      }
    }

    // ----- tokens -----

    /** From the `b` or `x` of a number on. */
    method ScanBased(k: Class, kind: TokenType, ghost s: string)
      requires Valid() && current != '\0' && Reads(s, 1)
      modifies `position, `current, `token
      ensures Valid() && (token, Unread()) == Take(kind, s, 2 + Run(k, s[2..]))
    {
      CutNext(s, 1);
      SaveAndReadChar();
      SaveRun(k, s, 2);
      token := token.(kind := kind);
    }

    method ScanFraction(ghost s: string, ghost n: nat)
      requires Valid() && current != '\0' && Reads(s, n)
      modifies `position, `current, `token
      ensures Valid() && (token, Unread()) == Take(TFloat, s, n + 1 + Run(Digit, s[n + 1..]))
    {
      CutNext(s, n);
      SaveAndReadChar();
      SaveRun(Digit, s, n + 1);
      token := token.(kind := TFloat);
    }

    method ScanDecimal(ghost s: string)
      requires Valid() && Reads(s, 1)
      modifies `position, `current, `token
      ensures Valid()
      ensures var n := 1 + Run(Digit, s[1..]);
              (token, Unread()) == if At(s[n..]) == '.' then Take(TFloat, s, n + 1 + Run(Digit, s[n + 1..]))
                                   else Take(TIntD, s, n)
    {
      hide Run;
      SaveRun(Digit, s, 1);
      token := token.(kind := TIntD);
      if current == '.' {
        ScanFraction(s, 1 + Run(Digit, s[1..]));
      }
    }

    method ScanNumber()
      requires Valid() && Is(Digit, current) && token.value == ""
      modifies `position, `current, `token
      ensures Valid() && (token, Unread()) == LexNumber(old(Unread()))
    {
      hide Run, Take;
      ghost var s := Unread();
      CutNext(s, 0);
      SaveAndReadChar();
      if current == 'b' || current == 'B' {
        ScanBased(Binary, TIntB, s);
      } else if current == 'x' || current == 'X' {
        ScanBased(Hex, TIntX, s);
      } else {
        ScanDecimal(s);
      }
    }

    method ScanIdentifier()
      requires Valid() && IsAlpha(current) && token.value == ""
      modifies `position, `current, `token
      ensures Valid() && (token, Unread()) == LexToken(old(Unread()))
    {
      hide Named, LexNumber, LexString, LexPair, LexDots;
      ghost var s := Unread();
      CutNext(s, 0);
      SaveAndReadChar();
      SaveRun(Word, s, 1);
      InferType(TId);
    }

    /** Searches the table of names for the token's text. */
    method InferType(other: TokenType)
      modifies `token
      ensures token == Token(Infer(old(token.value), other), old(token.value))
    {
      hide Name, Named, TypeAt, Number;
      var i := 0;
      while i < COUNT
        invariant i <= COUNT && token == old(token)
        invariant forall j | 0 <= j < i :: Name(TypeAt(j)) != token.value
      {
        if token.value == Name(TypeAt(i)) {
          TypeAtKnown(i);
          NamedName(TypeAt(i));
          token := token.(kind := TypeAt(i));
          return;
        }
        i := i + 1;
      }
      NameOfNamed(token.value);
      if Named(token.value) != TUnknown {
        TypeAtNumber(Named(token.value));
      }
      token := token.(kind := other);
    }

    /** An escape; `value` is what it adds to the token. */
    method ScanEscape(ghost delimiter: char) returns (ok: bool, ghost value: string)
      requires Valid() && current == '\\' && delimiter != '\\' && delimiter != '\0'
      modifies `position, `current, `token
      ensures Valid() && token == old(token).(value := old(token.value) + value)
      ensures StringBody(delimiter, old(Unread())) ==
              if ok then Prepend(value, StringBody(delimiter, Unread())) else Body(false, value, Unread())
      ensures |Unread()| < |old(Unread())|
    {
      hide StringBody, Prepend, Unescape;
      ghost var s := Unread();
      EscapeBody(delimiter, s);
      ReadChar();
      value := "";
      assert Drop(s, 1) == Unread();
      if current == 'x' {
        ReadChar();
        assert Drop(s, 2) == Unread();
        if !Is(Hex, current) {
          return false, value;
        }
        ghost var first := current;
        value := [first];
        SaveAndReadChar();
        assert Drop(s, 3) == Unread();
        if !Is(Hex, current) {
          return false, value;
        }
        value := [first, current];
        SaveAndReadChar();
        assert Drop(s, 4) == Unread();
        return true, value;
      }
      if !IsEscape(current) {
        return false, value;
      }
      value := [Unescape(current)];
      SaveChar(Unescape(current));
      ReadChar();
      assert Drop(s, 2) == Unread();
      return true, value;
    }

    method ScanString(delimiter: char)
      requires Valid() && current == delimiter && (delimiter == '"' || delimiter == '\'') && token == NoToken
      modifies `position, `current, `token
      ensures Valid() && (token, Unread()) == LexString(old(Unread()))
    {
      ghost var b := StringBody(delimiter, Unread()[1..]);
      ReadChar();
      PrependNothing(b);
      while current != delimiter
        invariant Valid() && token.kind == TUnknown
        invariant b == Prepend(token.value, StringBody(delimiter, Unread()))
        decreases |Unread()|
      {
        ghost var v, s := token.value, Unread();
        if current == '\0' || IsNewLine(current) {
          assert v + "" == v;
          return;
        } else if current == '\\' {
          var ok;
          ghost var w;
          ok, w := ScanEscape(delimiter);
          PrependTwice(v, w, StringBody(delimiter, Unread()));
          if !ok {
            return;
          }
        } else {
          SaveAndReadChar();
          PrependTwice(v, [s[0]], StringBody(delimiter, Unread()));
        }
      }
      assert token.value + "" == token.value;
      ReadChar();
      token := token.(kind := TString);
    }

    // ----- the scanner's interface -----

    /** `one`, or with `second` behind it `two`. */
    method ScanPair(second: char, two: TokenType, one: TokenType)
      requires Valid() && current != '\0' && second != '\0' && token == NoToken
      modifies `position, `current, `token
      ensures Valid()
      ensures var s := old(Unread());
              (token, Unread()) == if At(s[1..]) == second then Take(two, s, 2) else Take(one, s, 1)
    {
      CutShort(Unread());
      SaveAndReadChar();
      if current == second {
        SaveAndReadChar();
        token := token.(kind := two);
      } else {
        token := token.(kind := one);
      }
    }

    /** Scans the next token into `token`. */
    /** A comment, which is skipped, or a division. */
    method ScanSlash() returns (done: bool)
      requires Valid() && current == '/' && token.value == ""
      modifies `position, `current, `token
      ensures Valid()
      ensures done ==> old(Unread()) == Skip(old(Unread())) && (token, Unread()) == LexToken(old(Unread()))
      ensures !done ==> Skip(Unread()) == Skip(old(Unread())) && |Unread()| < |old(Unread())| && token.value == ""
    {
      hide LexToken;
      ghost var s := Unread();
      CutShort(s);
      ReadChar();
      if current == '/' {
        ScanLineComment();
      } else if current == '*' {
        ScanSectionComment();
      } else {
        SaveChar('/');
        token := token.(kind := TDiv);
        SlashLexed(s);
        return true;
      }
      done := false;
    }

    method Scan()
      requires Valid()
      modifies `position, `current, `token
      ensures Valid() && (token, Unread()) == Lex(old(Unread()))
    {
      hide LexToken;
      token := NoToken;
      while true
        invariant Valid() && token.value == "" && Skip(Unread()) == Skip(old(Unread()))
        decreases |Unread()|
      {
        ghost var s := Unread();
        if current == '\0' {
          token := token.(kind := TEos);
          assert (token, Unread()) == LexToken(Unread()) by { EndLexed(Unread()); }
          return;
        } else if IsNewLine(current) {
          CutShort(s);
          NewLine();
        } else if IsSpace(current) {
          ReadChar();
        } else if current == '/' {
          var done := ScanSlash();
          if done {
            return;
          }
        } else {
          token := NoToken;
          ScanSolid();
          return;
        }
      }
    }

    /** A token that is no blank, comment or slash. */
    method ScanSolid()
      requires Valid() && current != '\0' && current != '/' && token == NoToken
      modifies `position, `current, `token
      ensures Valid() && (token, Unread()) == LexToken(old(Unread()))
    {
      hide Named, LexNumber, LexString, Run;
      CutShort(Unread());
      match current {
        case '&' => ScanPair('&', TAnd2, TAnd);
        case '=' => ScanPair('=', TEq, TAssign);
        case '<' => ScanPair('=', TLe, TLt);
        case '!' => ScanPair('=', TNe, TNot);
        case '|' => ScanBar();
        case '>' => ScanGreater();
        case '.' => ScanDots();
        case _ =>
          if Is(Digit, current) {
            ScanNumber();
          } else if current == '"' || current == '\'' {
            ScanString(current);
          } else if IsAlpha(current) {
            ScanIdentifier();
          } else {
            SaveAndReadChar();
            InferType(TUnknown);
          }
      }
    }

    method ScanBar()
      requires Valid() && current == '|' && token == NoToken
      modifies `position, `current, `token
      ensures Valid() && (token, Unread()) == LexPair(old(Unread()), TOr)
    {
      CutShort(Unread());
      SaveAndReadChar();
      if current == '|' {
        SaveAndReadChar();
        token := token.(kind := TOr2);
      } else if current == '<' {
        SaveAndReadChar();
        token := token.(kind := TShiftL);
      } else {
        token := token.(kind := TOr);
      }
    }

    method ScanGreater()
      requires Valid() && current == '>' && token == NoToken
      modifies `position, `current, `token
      ensures Valid() && (token, Unread()) == LexPair(old(Unread()), TGt)
    {
      CutShort(Unread());
      SaveAndReadChar();
      if current == '|' {
        SaveAndReadChar();
        token := token.(kind := TShiftR);
      } else if current == '=' {
        SaveAndReadChar();
        token := token.(kind := TGe);
      } else {
        token := token.(kind := TGt);
      }
    }

    method ScanDots()
      requires Valid() && current == '.' && token == NoToken
      modifies `position, `current, `token
      ensures Valid() && (token, Unread()) == LexDots(old(Unread()))
    {
      CutShort(Unread());
      SaveAndReadChar();
      if current != '.' {
        token := token.(kind := TDot);
        return;
      }
      SaveAndReadChar();
      if current != '.' {
        token := token.(kind := TDot2);
        return;
      }
      SaveAndReadChar();
      token := token.(kind := TDot3);
    }

    method NextToken()
      requires Valid()
      modifies this
      ensures Valid() && (View(), token) == Advance(old(View()))
    {
      hide TokensOf;
      if lookAhead.kind != TUnknown {
        token := lookAhead;
        lookAhead := NoToken;
      } else {
        LexIsFirst(Unread());
        Scan();
      }
    }

    /** The current token stays what it is. */
    method LookAheadToken() returns (t: Token)
      requires Valid()
      modifies this
      ensures Valid() && (View(), t) == LookAhead(old(View())) && token == old(token)
    {
      hide TokensOf;
      if lookAhead.kind == TUnknown {
        var saved := token;
        LexIsFirst(Unread());
        Scan();
        lookAhead := token;
        token := saved;
      }
      t := lookAhead;
    }
  }
}
