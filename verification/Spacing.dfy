/** Where the whitespace of an arithmetic expression goes: to the number after it. */
module Spacing {
  import opened Tokens
  import opened AstBuilding

  /** The whitespace attached to tokens, one after the other. */
  function Attached(queue: seq<Token>): string {
    if queue == [] then "" else queue[0].whitespace + Attached(queue[1..])
  }

  /** The text of the whitespace tokens. */
  function SpaceOf(tokens: seq<Token>): string {
    if tokens == [] then ""
    else (if tokens[0].kind == Whitespace then tokens[0].value else "") + SpaceOf(tokens[1..])
  }

  /** Tokens as the tokenizer makes them of numbers, operators, parentheses and whitespace. */
  predicate IsPlain(token: Token) {
    token.whitespace == "" && token.kind in {Number, Operator, Parenthesis, Whitespace}
  }

  /** No operator waits with whitespace attached, and no call is being read. */
  predicate IsQuiet(y: Yard) {
    && (forall i :: 0 <= i < |y.operators| ==> y.operators[i].whitespace == "")
    && (forall i :: 0 <= i < |y.output| ==> y.output[i].kind != Name)
    && (forall i :: 0 <= i < |y.operators| ==> y.operators[i].kind != Name)
    && y.argCounts == []
  }

  lemma {:induction false} AttachedAppend(queue: seq<Token>, token: Token)
    ensures Attached(queue + [token]) == Attached(queue) + token.whitespace
  {
    if queue == [] {
      assert [token][1..] == [] && [] + [token] == [token];
    } else {
      assert (queue + [token])[0] == queue[0] && (queue + [token])[1..] == queue[1..] + [token];
      AttachedAppend(queue[1..], token);
      Regroup3(queue[0].whitespace, Attached(queue[1..]), token.whitespace);
    }
  }

  lemma {:induction false} PoppingAttachesNothing(y: Yard, precedence: int)
    requires IsQuiet(y)
    ensures var r := PopOperators(y, precedence);
            IsQuiet(r) && Attached(r.output) == Attached(y.output) && r.whitespace == y.whitespace
    decreases |y.operators|
  {
    hide YieldsTo, Attached;
    if y.operators != [] && YieldsTo(Top(y.operators), precedence) {
      AttachedAppend(y.output, Top(y.operators));
      PoppingAttachesNothing(y.(operators := Pop(y.operators), output := y.output + [Top(y.operators)]), precedence);
    }
  }

  lemma {:induction false} ClosingAttachesNothing(y: Yard)
    requires IsQuiet(y)
    ensures var r := PopToParenthesis(y);
            IsQuiet(r) && Attached(r.output) == Attached(y.output) && r.whitespace == y.whitespace
    decreases |y.operators|
  {
    hide Attached;
    if y.operators != [] && Top(y.operators).value != "(" {
      AttachedAppend(y.output, Top(y.operators));
      ClosingAttachesNothing(y.(operators := Pop(y.operators), output := y.output + [Top(y.operators)]));
    }
  }

  lemma StepKeepsSpace(y: Yard, token: Token)
    requires IsQuiet(y) && IsPlain(token) && YardStep(y, token).Success?
    ensures var z := YardStep(y, token).value;
            && IsQuiet(z)
            && Attached(z.output) + z.whitespace ==
               Attached(y.output) + y.whitespace + (if token.kind == Whitespace then token.value else "")
  {
    hide Attached, PopOperators, PopToParenthesis, OperatorPrecedence;
    var all := Attached(y.output) + y.whitespace;
    assert all + "" == all;
    if token.kind == Number {
      AttachedAppend(y.output, token.(whitespace := y.whitespace));
    } else if token.kind == Operator {
      PoppingAttachesNothing(y, OperatorPrecedence(token.value));
    } else if token.kind == Parenthesis {
      ClosingAttachesNothing(y);
    } else {
      Regroup3(Attached(y.output), y.whitespace, token.value);
    }
  }

  lemma {:induction false} RunKeepsSpace(y: Yard, tokens: seq<Token>)
    requires IsQuiet(y) && (forall i :: 0 <= i < |tokens| ==> IsPlain(tokens[i])) && YardRun(y, tokens).Success?
    ensures var z := YardRun(y, tokens).value;
            IsQuiet(z) && Attached(z.output) + z.whitespace == Attached(y.output) + y.whitespace + SpaceOf(tokens)
    decreases |tokens|
  {
    hide YardStep, Attached;
    if tokens == [] {
      assert Attached(y.output) + y.whitespace + "" == Attached(y.output) + y.whitespace;
    } else {
      StepKeepsSpace(y, tokens[0]);
      RunKeepsSpace(YardStep(y, tokens[0]).value, tokens[1..]);
      var own := if tokens[0].kind == Whitespace then tokens[0].value else "";
      Regroup3(Attached(y.output) + y.whitespace, own, SpaceOf(tokens[1..]));
    }
  }

  lemma {:induction false} DrainAttachesNothing(operators: seq<Token>, output: seq<Token>)
    requires forall i :: 0 <= i < |operators| ==> operators[i].whitespace == ""
    ensures Drain(operators, output).Success? ==> Attached(Drain(operators, output).value) == Attached(output)
    decreases |operators|
  {
    hide Attached;
    if operators != [] && Top(operators).kind != Parenthesis {
      AttachedAppend(output, Top(operators));
      DrainAttachesNothing(Pop(operators), output + [Top(operators)]);
    }
  }

  /** Whitespace is neither lost nor doubled: what is attached to the tokens of the output, and what is
      left over behind the last number, is together the whitespace of the expression. */
  lemma WhitespaceIsKept(tokens: seq<Token>) returns (left: string)
    requires (forall i :: 0 <= i < |tokens| ==> IsPlain(tokens[i])) && RpnOf(tokens).Success?
    ensures Attached(RpnOf(tokens).value) + left == SpaceOf(tokens)
  {
    hide YardRun, Drain, SpaceOf;
    RunKeepsSpace(EMPTY_YARD, tokens);
    var y := YardRun(EMPTY_YARD, tokens).value;
    DrainAttachesNothing(y.operators, y.output);
    left := y.whitespace;
    assert Attached([]) + "" + SpaceOf(tokens) == SpaceOf(tokens);
  }
}
