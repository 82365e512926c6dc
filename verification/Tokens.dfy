/** Tokens, and the table of names by which the scanner recognises words and
    single-character operators. */
module Tokens {
  datatype TokenType =
    | TVar | TVal | TMake
    | TModule | TImport | TExport | TPublic | TPrivate
    | TFunc | TProc | TStruct | TEnum
    | TIf | TElse | TLoop | TBreak | TContinue | TReturn | TTrue | TFalse
    | TComma | TSemicolon | TColon | TQuestion | TAt | TPound | TDollar
    | TAdd | TSub | TMul | TDiv | TMod | TXor | TFlip
    | TLrb | TRrb | TLsb | TRsb | TLcb | TRcb
    | TAnd | TAnd2 | TOr | TOr2
    | TAssign | TEq | TNot | TNe | TGt | TGe | TLt | TLe
    | TShiftL | TShiftR
    | TDot | TDot2 | TDot3
    | TIntB | TIntX | TIntD | TFloat | TString | TId | TEos | TUnknown

  datatype Token = Token(kind: TokenType, value: string)

  const COUNT: nat := 64

  /** The types by number. */
  function TypeAt(i: nat): TokenType {
    match i
    case 0 => TVar case 1 => TVal case 2 => TMake
    case 3 => TModule case 4 => TImport case 5 => TExport case 6 => TPublic case 7 => TPrivate
    case 8 => TFunc case 9 => TProc case 10 => TStruct case 11 => TEnum
    case 12 => TIf case 13 => TElse case 14 => TLoop case 15 => TBreak case 16 => TContinue
    case 17 => TReturn case 18 => TTrue case 19 => TFalse
    case 20 => TComma case 21 => TSemicolon case 22 => TColon case 23 => TQuestion case 24 => TAt
    case 25 => TPound case 26 => TDollar
    case 27 => TAdd case 28 => TSub case 29 => TMul case 30 => TDiv case 31 => TMod
    case 32 => TXor case 33 => TFlip
    case 34 => TLrb case 35 => TRrb case 36 => TLsb case 37 => TRsb case 38 => TLcb
    case 39 => TRcb
    case 40 => TAnd case 41 => TAnd2 case 42 => TOr case 43 => TOr2
    case 44 => TAssign case 45 => TEq case 46 => TNot case 47 => TNe case 48 => TGt
    case 49 => TGe case 50 => TLt case 51 => TLe
    case 52 => TShiftL case 53 => TShiftR
    case 54 => TDot case 55 => TDot2 case 56 => TDot3
    case 57 => TIntB case 58 => TIntX case 59 => TIntD case 60 => TFloat case 61 => TString
    case 62 => TId case 63 => TEos
    case _ => TUnknown
  }

  function Number(t: TokenType): nat {
    match t
    case TVar => 0 case TVal => 1 case TMake => 2
    case TModule => 3 case TImport => 4 case TExport => 5 case TPublic => 6
    case TPrivate => 7
    case TFunc => 8 case TProc => 9 case TStruct => 10 case TEnum => 11
    case TIf => 12 case TElse => 13 case TLoop => 14 case TBreak => 15
    case TContinue => 16 case TReturn => 17 case TTrue => 18 case TFalse => 19
    case TComma => 20 case TSemicolon => 21 case TColon => 22 case TQuestion => 23
    case TAt => 24 case TPound => 25 case TDollar => 26
    case TAdd => 27 case TSub => 28 case TMul => 29 case TDiv => 30
    case TMod => 31 case TXor => 32 case TFlip => 33
    case TLrb => 34 case TRrb => 35 case TLsb => 36 case TRsb => 37
    case TLcb => 38 case TRcb => 39
    case TAnd => 40 case TAnd2 => 41 case TOr => 42 case TOr2 => 43
    case TAssign => 44 case TEq => 45 case TNot => 46 case TNe => 47
    case TGt => 48 case TGe => 49 case TLt => 50 case TLe => 51
    case TShiftL => 52 case TShiftR => 53
    case TDot => 54 case TDot2 => 55 case TDot3 => 56
    case TIntB => 57 case TIntX => 58 case TIntD => 59 case TFloat => 60
    case TString => 61 case TId => 62 case TEos => 63
    case TUnknown => 64
  }

  predicate IsNumber(kind: TokenType) {
    kind == TIntB || kind == TIntX || kind == TIntD || kind == TFloat
  }

  predicate IsKeyword(kind: TokenType) {
    match kind
    case TVar | TVal | TMake | TModule | TImport | TExport | TPublic | TPrivate => true
    case TFunc | TProc | TStruct | TEnum => true
    case TIf | TElse | TLoop | TBreak | TContinue | TReturn | TTrue | TFalse => true
    case _ => false
  }

  /** The kinds whose first character may begin a longer operator. */
  predicate IsMunched(kind: TokenType) {
    match kind
    case TAnd | TAnd2 | TOr | TOr2 | TAssign | TEq | TNot | TNe | TGt | TGe | TLt | TLe => true
    case TShiftL | TShiftR | TDot | TDot2 | TDot3 => true
    case _ => false
  }

  /** The kinds of one spelling. */
  predicate IsFixed(kind: TokenType) {
    !IsNumber(kind) && kind != TString && kind != TId && kind != TEos && kind != TUnknown
  }

  // ----- the table of names; the two shifts stand under each other's -----

  function KeywordName(t: TokenType): string {
    match t
    case TVar => "var" case TVal => "val" case TMake => "make"
    case TModule => "module" case TImport => "import" case TExport => "export" case TPublic => "public"
    case TPrivate => "private"
    case TFunc => "func" case TProc => "proc" case TStruct => "struct" case TEnum => "enum"
    case TIf => "if" case TElse => "else" case TLoop => "loop" case TBreak => "break"
    case TContinue => "continue" case TReturn => "return" case TTrue => "true" case TFalse => "false"
    case _ => ""
  }

  function MunchedName(t: TokenType): string {
    match t
    case TAnd => "&" case TAnd2 => "&&" case TOr => "|" case TOr2 => "||"
    case TAssign => "=" case TEq => "==" case TNot => "!" case TNe => "!="
    case TGt => ">" case TGe => ">=" case TLt => "<" case TLe => "<="
    case TShiftL => ">|" case TShiftR => "|<"
    case TDot => "." case TDot2 => ".." case TDot3 => "..."
    case _ => ""
  }

  function SingleName(t: TokenType): char {
    match t
    case TComma => ',' case TSemicolon => ';' case TColon => ':' case TQuestion => '?'
    case TAt => '@' case TPound => '#' case TDollar => '$'
    case TAdd => '+' case TSub => '-' case TMul => '*' case TDiv => '/'
    case TMod => '%' case TXor => '^' case TFlip => '~'
    case TLrb => '(' case TRrb => ')' case TLsb => '[' case TRsb => ']'
    case TLcb => '{' case TRcb => '}'
    case _ => ' '
  }

  function ClassName(t: TokenType): string {
    match t
    case TIntB => "<b-int>" case TIntX => "<x-int>" case TIntD => "<d-int>" case TFloat => "<float>"
    case TString => "<string>" case TId => "<identifier>" case TEos => "<eos>"
    case _ => ""
  }

  function Name(t: TokenType): string {
    if IsKeyword(t) then KeywordName(t)
    else if IsMunched(t) then MunchedName(t)
    else if IsFixed(t) then [SingleName(t)]
    else ClassName(t)
  }

  // ----- the type that a name stands for in the table -----

  function NamedKeyword(name: string): TokenType {
    match name
    case "var" => TVar case "val" => TVal case "make" => TMake
    case "module" => TModule case "import" => TImport case "export" => TExport case "public" => TPublic
    case "private" => TPrivate
    case "func" => TFunc case "proc" => TProc case "struct" => TStruct case "enum" => TEnum
    case "if" => TIf case "else" => TElse case "loop" => TLoop case "break" => TBreak
    case "continue" => TContinue case "return" => TReturn case "true" => TTrue case "false" => TFalse
    case _ => TUnknown
  }

  function NamedMunched(name: string): TokenType {
    match name
    case "&" => TAnd case "|" => TOr case "=" => TAssign case "!" => TNot
    case ">" => TGt case "<" => TLt case "." => TDot
    case "&&" => TAnd2 case "||" => TOr2 case "==" => TEq case "!=" => TNe case ">=" => TGe
    case "<=" => TLe case ">|" => TShiftL case "|<" => TShiftR case ".." => TDot2 case "..." => TDot3
    case _ => TUnknown
  }

  function NamedSingle(c: char): TokenType {
    match c
    case ',' => TComma case ';' => TSemicolon case ':' => TColon case '?' => TQuestion
    case '@' => TAt case '#' => TPound case '$' => TDollar
    case '+' => TAdd case '-' => TSub case '*' => TMul case '/' => TDiv
    case '%' => TMod case '^' => TXor case '~' => TFlip
    case '(' => TLrb case ')' => TRrb case '[' => TLsb case ']' => TRsb
    case '{' => TLcb case '}' => TRcb
    case _ => TUnknown
  }

  function NamedClass(name: string): TokenType {
    match name
    case "<b-int>" => TIntB case "<x-int>" => TIntX case "<d-int>" => TIntD case "<float>" => TFloat
    case "<string>" => TString case "<identifier>" => TId case "<eos>" => TEos
    case _ => TUnknown
  }

  function Named(name: string): TokenType {
    if |name| == 0 then TUnknown
    else if 'a' <= name[0] <= 'z' then NamedKeyword(name)
    else if |name| == 1 && NamedSingle(name[0]) != TUnknown then NamedSingle(name[0])
    else if |name| <= 3 then NamedMunched(name)
    else NamedClass(name)
  }

  function Infer(name: string, other: TokenType): TokenType {
    if Named(name) == TUnknown then other else Named(name)
  }

  lemma {:induction false} TypeAtNumber(t: TokenType)
    requires t != TUnknown
    ensures Number(t) < COUNT && TypeAt(Number(t)) == t
  {
    hide TypeAt;
    if Number(t) < 20 {
      TypeAtWord(t);
    } else if Number(t) < 40 {
      TypeAtLow(t);
    } else {
      TypeAtHigh(t);
    }
  }

  lemma {:induction false} TypeAtWord(t: TokenType)
    requires Number(t) < 20
    ensures TypeAt(Number(t)) == t
  {
  }

  lemma {:induction false} TypeAtLow(t: TokenType)
    requires 20 <= Number(t) < 40
    ensures TypeAt(Number(t)) == t
  {
  }

  lemma {:induction false} TypeAtHigh(t: TokenType)
    requires 40 <= Number(t) && t != TUnknown
    ensures TypeAt(Number(t)) == t && Number(t) < COUNT
  {
  }

  lemma {:induction false} TypeAtKnown(i: nat)
    requires i < COUNT
    ensures TypeAt(i) != TUnknown
  {
  }

  lemma {:induction false} NameOfNamed(name: string)
    ensures Named(name) != TUnknown ==> Name(Named(name)) == name
  {
    hide NamedKeyword, NamedMunched, NamedSingle, NamedClass, KeywordName, MunchedName, SingleName, ClassName;
    if Named(name) == TUnknown {
    } else if 'a' <= name[0] <= 'z' {
      NameOfKeyword(name);
    } else if |name| == 1 && NamedSingle(name[0]) != TUnknown {
      NameOfSingle(name[0]);
      assert name == [name[0]];
    } else if |name| <= 3 {
      NameOfMunched(name);
    } else {
      NameOfClass(name);
    }
  }

  lemma {:induction false} NameOfKeyword(name: string)
    requires NamedKeyword(name) != TUnknown
    ensures IsKeyword(NamedKeyword(name)) && KeywordName(NamedKeyword(name)) == name
  {
  }

  lemma {:induction false} NameOfMunched(name: string)
    requires NamedMunched(name) != TUnknown
    ensures IsMunched(NamedMunched(name)) && MunchedName(NamedMunched(name)) == name
  {
  }

  lemma {:induction false} NameOfSingle(c: char)
    requires NamedSingle(c) != TUnknown
    ensures var t := NamedSingle(c); IsFixed(t) && !IsKeyword(t) && !IsMunched(t) && SingleName(t) == c
  {
  }

  lemma {:induction false} NameOfClass(name: string)
    requires NamedClass(name) != TUnknown
    ensures var t := NamedClass(name); !IsFixed(t) && !IsKeyword(t) && !IsMunched(t) && ClassName(t) == name
  {
  }

  lemma {:induction false} NamedName(t: TokenType)
    requires t != TUnknown
    ensures Named(Name(t)) == t
  {
    hide Named, KeywordName, MunchedName, SingleName, ClassName;
    if IsKeyword(t) {
      KeywordNamed(t);
    } else if IsMunched(t) {
      MunchedNamed(t);
    } else if IsFixed(t) {
      SingleNamed(t);
    } else {
      ClassNamed(t);
    }
  }

  lemma {:induction false} KeywordNamed(t: TokenType)
    requires IsKeyword(t)
    ensures Named(KeywordName(t)) == t
  {
    hide KeywordName, NamedKeyword, NamedMunched, NamedSingle, NamedClass;
    KeywordFound(t);
    KeywordStart(t);
  }

  lemma {:induction false} KeywordFound(t: TokenType)
    requires IsKeyword(t)
    ensures NamedKeyword(KeywordName(t)) == t
  {
  }

  lemma {:induction false} KeywordStart(t: TokenType)
    requires IsKeyword(t)
    ensures KeywordName(t) != "" && 'a' <= KeywordName(t)[0] <= 'z'
  {
  }

  lemma {:induction false} MunchedNamed(t: TokenType)
    requires IsMunched(t)
    ensures Named(MunchedName(t)) == t
  {
    hide MunchedName, NamedMunched, NamedSingle;
    MunchedFound(t);
    MunchedSigns(t);
  }

  lemma {:induction false} MunchedFound(t: TokenType)
    requires IsMunched(t)
    ensures NamedMunched(MunchedName(t)) == t
  {
  }

  lemma {:induction false} MunchedSigns(t: TokenType)
    requires IsMunched(t)
    ensures var n := MunchedName(t);
            0 < |n| <= 3 && !('a' <= n[0] <= 'z') && NamedSingle(n[0]) == TUnknown
  {
  }

  lemma {:induction false} SingleNamed(t: TokenType)
    requires IsFixed(t) && !IsKeyword(t) && !IsMunched(t)
    ensures Named([SingleName(t)]) == t
  {
    hide NamedKeyword, NamedMunched, NamedClass;
  }

  lemma {:induction false} ClassNamed(t: TokenType)
    requires !IsFixed(t) && !IsKeyword(t) && !IsMunched(t) && t != TUnknown
    ensures Named(ClassName(t)) == t
  {
    hide NamedKeyword, NamedMunched, NamedSingle;
  }
}
