/** Whether looking ahead changes what the scanner delivers. */
module LookingAhead {
  import opened Tokens
  import opened Lexing
  import opened Rendering
  import opened Scanner

  datatype Op = Next | Look

  /** The tokens that the `Next`s of an interleaving deliver. */
  function Delivered(p: Pending, ops: seq<Op>): seq<Token>
    decreases |ops|
  {
    if ops == [] then []
    else if ops[0] == Look then Delivered(LookAhead(p).0, ops[1..])
    else [Advance(p).1] + Delivered(Advance(p).0, ops[1..])
  }

  function Nexts(ops: seq<Op>): nat {
    if ops == [] then 0 else (if ops[0] == Next then 1 else 0) + Nexts(ops[1..])
  }

  /** The first `n` tokens; behind the last one the end is delivered forever. */
  function Plainly(ts: seq<Token>, n: nat): seq<Token> {
    if n == 0 then [] else [First(ts)] + Plainly(Rest(ts), n - 1)
  }

  /** The tokens to come, whether looked at or not. */
  function Coming(p: Pending): seq<Token> {
    if p.ahead.kind == TUnknown then p.tokens
    else if p.ahead.kind == TEos then []
    else [p.ahead] + p.tokens
  }

  predicate Sound(p: Pending) {
    p.ahead.kind == TEos ==> p.ahead == EOS && p.tokens == []
  }

  predicate NoEnd(ts: seq<Token>) {
    forall i | 0 <= i < |ts| :: ts[i].kind != TEos
  }

  lemma {:induction false} ComingStep(p: Pending)
    requires Sound(p) && AllKnown(Coming(p)) && NoEnd(Coming(p))
    ensures Sound(LookAhead(p).0) && Coming(LookAhead(p).0) == Coming(p)
    ensures Sound(Advance(p).0) && Coming(Advance(p).0) == Rest(Coming(p)) && Advance(p).1 == First(Coming(p))
  {
  }

  lemma {:induction false} KnownTransparent(p: Pending, ops: seq<Op>)
    requires Sound(p) && AllKnown(Coming(p)) && NoEnd(Coming(p))
    ensures Delivered(p, ops) == Plainly(Coming(p), Nexts(ops))
    decreases |ops|
  {
    hide Coming, Sound, LookAhead, Advance, First;
    if ops != [] {
      ComingStep(p);
      if ops[0] == Look {
        KnownTransparent(LookAhead(p).0, ops[1..]);
      } else {
        KnownTransparent(Advance(p).0, ops[1..]);
      }
    }
  }

  /** `k` tokens delivered, one looked at, one more delivered. */
  function Peeking(k: nat): seq<Op> {
    if k == 0 then [Look, Next] else [Next] + Peeking(k - 1)
  }

  /** Looking at an unknown token loses it. */
  lemma {:induction false} PeekingLoses(ts: seq<Token>, k: nat)
    requires k < |ts| && ts[k].kind == TUnknown
    ensures var d := Delivered(Pending(NoToken, ts), Peeking(k));
            Nexts(Peeking(k)) == k + 1 && |d| == k + 1 && d[k] == First(ts[k + 1..])
    ensures var d := Plainly(ts, k + 1); |d| == k + 1 && d[k] == ts[k]
  {
    var ops := Peeking(k);
    var p := Pending(NoToken, ts);
    if k == 0 {
      assert ops[1..] == [Next] && [Next][1..] == [];
      var p1 := LookAhead(p).0;
      assert Delivered(p1, [Next]) == [Advance(p1).1] + Delivered(Advance(p1).0, []);
      assert Plainly(Rest(ts), 0) == [];
    } else {
      assert ops[1..] == Peeking(k - 1);
      PeekingLoses(ts[1..], k - 1);
      assert ts[1..][k..] == ts[k + 1..];
    }
  }

  function LastUnknown(ts: seq<Token>): (k: nat)
    requires !AllKnown(ts)
    ensures k < |ts| && ts[k].kind == TUnknown && forall i | k < i < |ts| :: ts[i].kind != TUnknown
  {
    if ts[|ts| - 1].kind == TUnknown then |ts| - 1
    else
      assert !AllKnown(ts[..|ts| - 1]);
      LastUnknown(ts[..|ts| - 1])
  }

  /** Every interleaving of looking and advancing delivers the tokens of the text
      in order, and then its end forever, exactly when the text is scanned
      without an unknown token. */
  lemma {:induction false} LookAheadTransparency(text: string)
    ensures (forall ops :: Delivered(Pending(NoToken, TokensOf(text)), ops) == Plainly(TokensOf(text), Nexts(ops)))
            <==> AllKnown(TokensOf(text))
  {
    hide TokensOf, Delivered, Nexts, Plainly;
    var ts := TokensOf(text);
    ScannedValid(text);
    if AllKnown(ts) {
      forall ops ensures Delivered(Pending(NoToken, ts), ops) == Plainly(ts, Nexts(ops)) {
        KnownTransparent(Pending(NoToken, ts), ops);
      }
    } else {
      UnknownLost(ts, LastUnknown(ts));
    }
  }

  lemma {:induction false} UnknownLost(ts: seq<Token>, k: nat)
    requires k < |ts| && ts[k].kind == TUnknown && First(ts[k + 1..]) != ts[k]
    ensures Delivered(Pending(NoToken, ts), Peeking(k)) != Plainly(ts, Nexts(Peeking(k)))
  {
    hide Delivered, Nexts, Plainly, First;
    PeekingLoses(ts, k);
  }
}
