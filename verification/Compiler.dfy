/** From a program's text to code that behaves as the program. */
module Compiler {
  import opened Ast
  import opened Scalar
  import opened Ir
  import opened Lowering
  import opened Semantics
  import opened Meaning
  import opened Grammar
  import opened Statements
  import opened StatementPrinting
  import opened Tokens
  import opened Lexing
  import opened Layout
  import opened Acceptance
  import P = Parser
  import C = Coder

  /** The code of a text: scanned, parsed and encoded. */
  function Compiled(text: string): Option<Code> {
    match Parse(text)
    case None => None
    case Some(body) =>
      match EncodeModule(body)
      case None => None
      case Some(e) => Some(e.code)
  }

  /** The parser and the coder run one after the other. */
  method Compile(text: string) returns (ok: bool, code: Code)
    ensures ok ==> Compiled(text) == Some(code)
    ensures !ok ==> Compiled(text) == None
  {
    hide EncodeModule, PModule, EraseModule;
    code := [];
    var parser := new P.Parser(text);
    var body;
    ghost var ts;
    ok, body, ts := parser.ParseModule();
    if !ok {
      return;
    }
    var coder := new C.ModuleCoder();
    ok := coder.EncodeModule(body);
    code := coder.code;
  }

  /** A text is compiled if and only if it parses and its names and types check. */
  lemma {:induction false} CompiledIff(text: string)
    ensures Compiled(text).Some? <==> Parse(text).Some? && Checks(Parse(text).value)
  {
    hide Parse, EncodeModule, Checks;
    if Parse(text).Some? {
      AcceptedIff(Parse(text).value);
    }
  }

  /** The layout of a text means nothing. */
  lemma {:induction false} LayoutIgnored(text: string, lead: seq<Gap>, ls: seq<(Token, seq<Gap>)>)
    requires GapsOk(lead) && LaidOk(ls) && TokensIn(ls) == TokensOf(text)
    ensures Parse(GapsText(lead) + Laid(ls)) == Parse(text) && Compiled(GapsText(lead) + Laid(ls)) == Compiled(text)
  {
    hide TokensOf, PModule, EraseModule, EncodeModule, GapsOk, LaidOk, GapsText, Laid, TokensIn;
    LayoutRoundTrip(lead, ls);
  }

  ghost predicate Behaves(code: Code, body: seq<Stmt>, v: Val) {
    && (CodeReturns(code, v) <==> Returns(body, false, v))
    && (CodeFaults(code) <==> Faults(body, false))
    && (CodeDiverges(code) <==> Diverges(body, false))
  }

  /** Code compiled from a text behaves as the program that the text is parsed to. */
  lemma {:induction false} CompiledBehaves(text: string, v: Val)
    requires Compiled(text).Some? && ScopedSeq(Parse(text).value) && MergeableSeq(Parse(text).value)
    ensures Behaves(Compiled(text).value, Parse(text).value, v)
  {
    hide Parse, EncodeModule;
    SemanticPreservation(Parse(text).value, v);
  }

  /** A program written as text and compiled behaves as the program: nothing is
      lost between the tree and the code. */
  lemma {:induction false} SourceBehaves(body: seq<Stmt>, v: Val)
    requires PrintableSeq(body) && EncodeModule(body).Some? && ScopedSeq(body) && MergeableSeq(body)
    ensures Compiled(Source(body)).Some? && Behaves(Compiled(Source(body)).value, body, v)
  {
    hide Parse, EncodeModule, Source, Behaves;
    ProgramRoundTrip(body);
    CompiledBehaves(Source(body), v);
  }
}
