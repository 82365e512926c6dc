/** What may stand between tokens, told by the texts themselves: blanks, line
    breaks and comments leave no trace. */
module Layout {
  import opened Tokens
  import opened Lexing
  import opened Rendering

  datatype Gap =
    | Blank(c: char)
    | LineComment(text: string, end: char)
    | SectionComment(text: string)

  /** Whether the text closes a section comment. */
  ghost predicate Closes(s: string) {
    exists i :: 0 <= i < |s| - 1 && s[i] == '*' && s[i + 1] == '/'
  }

  ghost predicate GapOk(g: Gap) {
    match g
    case Blank(c) => c in [' ', '\t', '\n', '\r', '\U{000B}', '\U{000C}']
    case LineComment(c, n) => '\n' !in c && '\r' !in c && '\0' !in c && n in "\n\r"
    case SectionComment(c) => '\0' !in c && !Closes(c + "*")
  }

  function GapText(g: Gap): string {
    match g
    case Blank(c) => [c]
    case LineComment(c, n) => "//" + c + [n]
    case SectionComment(c) => "/*" + c + "*/"
  }

  lemma {:induction false} LineSkipped(c: string, r: string)
    requires '\n' !in c && '\r' !in c && '\0' !in c && (At(r) == '\0' || At(r) == '\n' || At(r) == '\r')
    ensures SkipLine(c + r) == r
  {
    if c == "" {
      assert c + r == r;
    } else {
      assert (c + r)[0] == c[0] && c[0] in c && (c + r)[1..] == c[1..] + r;
      LineSkipped(c[1..], r);
    }
  }

  lemma {:induction false} SectionSkipped(c: string, r: string)
    requires '\0' !in c && !Closes(c + "*")
    ensures SkipSection(c + "*/" + r) == r
  {
    var s := c + "*/" + r;
    if c == "" {
      assert s == "*/" + r && s[2..] == r && s[1..] == "/" + r;
    } else {
      var d := c[1..];
      assert s[0] == c[0] && c[0] in c;
      assert s[1..] == d + "*/" + r;
      assert s[1] == (c + "*")[1];
      assert !(s[0] == '*' && s[1] == '/') by { assert (c + "*")[0] == c[0]; }
      forall i | 0 <= i < |d + "*"| - 1 ensures !((d + "*")[i] == '*' && (d + "*")[i + 1] == '/') {
        assert (d + "*")[i] == (c + "*")[i + 1] && (d + "*")[i + 1] == (c + "*")[i + 2];
      }
      SectionSkipped(d, r);
    }
  }

  lemma {:induction false} LineGap(c: string, n: char, r: string)
    requires '\n' !in c && '\r' !in c && '\0' !in c && n in "\n\r"
    ensures TokensOf("//" + c + [n] + r) == TokensOf(r)
  {
    hide TokensOf, Skip, SkipLine;
    var s := c + ([n] + r);
    LineSkipped(c, [n] + r);
    SlashSkipped('/', s);
    CommentCut('/', s, "//" + c + [n] + r);
    SameSkip("//" + c + [n] + r, [n] + r);
    BlankSkipped(n, r);
  }

  lemma {:induction false} SectionGap(c: string, r: string)
    requires '\0' !in c && !Closes(c + "*")
    ensures TokensOf("/*" + c + "*/" + r) == TokensOf(r)
  {
    hide TokensOf, Skip, SkipSection, Closes;
    var s := c + "*/" + r;
    SectionSkipped(c, r);
    SlashSkipped('*', s);
    CommentCut('*', s, "/*" + c + "*/" + r);
    SameSkip("/*" + c + "*/" + r, r);
  }

  /** A line comment ends with its line and a section comment with the first
      closing mark; neither they nor blanks change the tokens behind them. */
  lemma {:induction false} GapSkipped(g: Gap, r: string)
    requires GapOk(g)
    ensures TokensOf(GapText(g) + r) == TokensOf(r)
  {
    hide TokensOf, Closes;
    match g {
      case Blank(c) => BlankSkipped(c, r);
      case LineComment(c, n) => LineGap(c, n, r);
      case SectionComment(c) => SectionGap(c, r);
    }
  }

  lemma {:induction false} CommentCut(c: char, s: string, w: string)
    requires |w| == |s| + 2 && w[0] == '/' && w[1] == c && w[2..] == s
    ensures w == "/" + [c] + s
  {
  }

  lemma {:induction false} SlashSkipped(c: char, s: string)
    ensures c == '/' ==> Skip("/" + [c] + s) == Skip(SkipLine(s))
    ensures c == '*' ==> Skip("/" + [c] + s) == Skip(SkipSection(s))
  {
    var w := "/" + [c] + s;
    assert w[0] == '/' && w[1] == c && w[2..] == s && At(w[1..]) == c;
  }

  /** A comment at the end of the text needs no line break. */
  lemma {:induction false} LastComment(c: string)
    requires '\n' !in c && '\r' !in c && '\0' !in c
    ensures TokensOf("//" + c) == []
  {
    hide TokensOf;
    LineSkipped(c, "");
    assert c + "" == c;
    CommentCut('/', c, "//" + c);
    SlashSkipped('/', c);
    SameSkip("//" + c, "");
    NoTokens();
  }

  // ----- texts with any layout -----

  function GapsText(gs: seq<Gap>): string {
    if gs == [] then "" else GapText(gs[0]) + GapsText(gs[1..])
  }

  ghost predicate GapsOk(gs: seq<Gap>) {
    forall g | g in gs :: GapOk(g)
  }

  /** Tokens, each with the layout behind it. */
  function Laid(ls: seq<(Token, seq<Gap>)>): string {
    if ls == [] then "" else Text(ls[0].0) + (GapsText(ls[0].1) + Laid(ls[1..]))
  }

  function TokensIn(ls: seq<(Token, seq<Gap>)>): seq<Token> {
    if ls == [] then [] else [ls[0].0] + TokensIn(ls[1..])
  }

  /** Between any two tokens there is some layout, and behind a division it does
      not start with a comment. */
  ghost predicate LaidOk(ls: seq<(Token, seq<Gap>)>) {
    ls != [] ==>
      var (t, gs) := ls[0];
      && Valid(t) && GapsOk(gs) && (gs == [] ==> |ls| == 1)
      && (t.kind == TDiv && gs != [] ==> gs[0].Blank?)
      && LaidOk(ls[1..])
  }

  lemma {:induction false} GapsSkipped(gs: seq<Gap>, r: string)
    requires GapsOk(gs)
    ensures TokensOf(GapsText(gs) + r) == TokensOf(r)
  {
    hide TokensOf, GapText, GapOk;
    if gs == [] {
      assert GapsText(gs) + r == r;
    } else {
      GapSkipped(gs[0], GapsText(gs[1..]) + r);
      GapsSkipped(gs[1..], r);
      assert GapsText(gs) + r == GapText(gs[0]) + (GapsText(gs[1..]) + r);
    }
  }

  lemma {:induction false} GapSeparates(kind: TokenType, g: Gap, r: string)
    requires GapOk(g) && (kind == TDiv ==> g.Blank?)
    ensures Separates(kind, GapText(g) + r)
  {
  }

  /** Scanning finds the tokens of a text whatever the layout before, between
      and behind them. */
  lemma {:induction false} LayoutRoundTrip(lead: seq<Gap>, ls: seq<(Token, seq<Gap>)>)
    requires GapsOk(lead) && LaidOk(ls)
    ensures TokensOf(GapsText(lead) + Laid(ls)) == TokensIn(ls)
    decreases |ls|
  {
    hide TokensOf, GapText, GapOk, Text, Valid, Separates;
    GapsSkipped(lead, Laid(ls));
    if ls == [] {
      NoTokens();
    } else {
      var (t, gs) := ls[0];
      var r := GapsText(gs) + Laid(ls[1..]);
      LayoutRoundTrip(gs, ls[1..]);
      if gs == [] {
        assert r == "";
        EndSeparates(t.kind);
      } else {
        assert r == GapText(gs[0]) + (GapsText(gs[1..]) + Laid(ls[1..]));
        GapSeparates(t.kind, gs[0], GapsText(gs[1..]) + Laid(ls[1..]));
      }
      TokenThen(t, r);
    }
  }

  lemma {:induction false} EndSeparates(kind: TokenType)
    ensures Separates(kind, "")
  {
  }

  // ----- the characters -----

  const LOWER := "abcdefghijklmnopqrstuvwxyz"
  const UPPER := "ABCDEFGHIJKLMNOPQRSTUVWXYZ"

  /** The classes of characters, listed. */
  lemma {:induction false} Digits(c: char)
    ensures Is(Binary, c) <==> c in "01"
    ensures Is(Digit, c) <==> c in "0123456789"
    ensures Is(Hex, c) <==> c in "0123456789abcdefABCDEF"
  {
  }

  lemma {:induction false} Letters(c: char)
    ensures IsAlpha(c) <==> c in LOWER || c in UPPER || c == '_'
    ensures Is(Word, c) <==> IsAlpha(c) || Is(Digit, c)
  {
    if 'a' <= c <= 'z' {
      LowerAt(c);
    }
    if 'A' <= c <= 'Z' {
      UpperAt(c);
    }
  }

  lemma {:induction false} LowerAt(c: char)
    requires 'a' <= c <= 'z'
    ensures LOWER[c as int - 'a' as int] == c
  {
  }

  lemma {:induction false} UpperAt(c: char)
    requires 'A' <= c <= 'Z'
    ensures UPPER[c as int - 'A' as int] == c
  {
  }
}
