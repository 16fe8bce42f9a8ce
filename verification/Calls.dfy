/** What becomes of names: a call of one argument at the front of an expression is read as it is
    written; in other shapes calls go wrong, and there are no variables. */
module Calls {
  import opened Tokens
  import opened AstBuilding
  import opened Evaluating
  import opened Printing
  import opened Pipelines

  // One argument, at the front

  /** The notation has no parentheses of its own. */
  predicate IsOpen(c: Infix) {
    match c
    case Literal(_, _) => true
    case Parens(_, _, _) => false
    case Binary(left, _, _, right) => IsOpen(left) && IsOpen(right)
  }

  predicate IsFlat(tokens: seq<Token>) {
    forall i :: 0 <= i < |tokens| ==> tokens[i].kind in {Number, Operator, Whitespace}
  }

  const OPENING: Token := Plain(Parenthesis, "(")
  const CLOSING: Token := Plain(Parenthesis, ")")

  function CallTokens(name: string, c: Infix): seq<Token> {
    [Plain(Name, name), OPENING] + TokensOf(c) + [CLOSING, Plain(End, "")]
  }

  lemma {:induction false} OpenIsFlat(c: Infix)
    requires IsOpen(c)
    ensures IsFlat(TokensOf(c))
  {
    if c.Binary? {
      OpenIsFlat(c.left);
      OpenIsFlat(c.right);
    }
  }

  /** The same yard behind more output, while arguments are being counted. */
  function Framed(y: Yard, front: seq<Token>, counts: seq<nat>): Yard {
    y.(output := front + y.output, argCounts := counts)
  }

  lemma {:induction false} FramedPop(y: Yard, front: seq<Token>, counts: seq<nat>, precedence: int)
    ensures PopOperators(Framed(y, front, counts), precedence) == Framed(PopOperators(y, precedence), front, counts)
    ensures PopOperators(y, precedence).argCounts == y.argCounts
    decreases |y.operators|
  {
    hide YieldsTo;
    if y.operators != [] && YieldsTo(Top(y.operators), precedence) {
      var next := y.(operators := Pop(y.operators), output := y.output + [Top(y.operators)]);
      assert front + (y.output + [Top(y.operators)]) == front + y.output + [Top(y.operators)];
      FramedPop(next, front, counts, precedence);
    }
  }

  lemma FramedStep(y: Yard, front: seq<Token>, counts: seq<nat>, token: Token)
    requires y.argCounts == [] && front != [] && token.kind in {Number, Operator, Whitespace}
    ensures YardStep(Framed(y, front, counts), token) ==
            match YardStep(y, token)
            case Failure(error) => Failure(error)
            case Success(z) => Success(Framed(z, front, counts))
    ensures YardStep(y, token).Success? ==> YardStep(y, token).value.argCounts == []
  {
    hide PopOperators, OperatorPrecedence;
    if token.kind == Operator {
      FramedPop(y, front, counts, OperatorPrecedence(token.value));
    }
    assert front + (y.output + [token.(whitespace := y.whitespace)]) ==
           front + y.output + [token.(whitespace := y.whitespace)];
  }

  lemma {:induction false} FramedRun(y: Yard, front: seq<Token>, counts: seq<nat>, tokens: seq<Token>, rest: seq<Token>)
    requires y.argCounts == [] && front != [] && IsFlat(tokens) && YardRun(y, tokens).Success?
    ensures YardRun(y, tokens).value.argCounts == []
    ensures YardRun(Framed(y, front, counts), tokens + rest) ==
            YardRun(Framed(YardRun(y, tokens).value, front, counts), rest)
    decreases |tokens|
  {
    hide YardStep;
    if tokens == [] {
      assert tokens + rest == rest;
    } else {
      FramedStep(y, front, counts, tokens[0]);
      assert (tokens + rest)[1..] == tokens[1..] + rest;
      FramedRun(YardStep(y, tokens[0]).value, front, counts, tokens[1..], rest);
    }
  }

  lemma YardOpensCall(name: string, rest: seq<Token>)
    ensures YardRun(EMPTY_YARD, [Plain(Name, name), OPENING] + rest) ==
            YardRun(Framed(EMPTY_YARD.(operators := [OPENING]), [Plain(Name, name)], [0]), rest)
  {
    var y := EMPTY_YARD.(output := [Plain(Name, name)]);
    assert [Plain(Name, name), OPENING] + rest == [Plain(Name, name)] + ([OPENING] + rest);
    assert [] + [Plain(Name, name)] == [Plain(Name, name)] && [] + [OPENING] == [OPENING] && [] + [0] == [0];
    YardTakes(EMPTY_YARD, Plain(Name, name), [OPENING] + rest);
    assert YardStep(EMPTY_YARD, Plain(Name, name)) == Success(y);
    YardTakes(y, OPENING, rest);
    assert [Plain(Name, name)] + [] == [Plain(Name, name)];
  }

  lemma {:induction false} FramedPopInside(y: Yard, front: seq<Token>, counts: seq<nat>)
    ensures PopToParenthesis(Framed(y, front, counts)) == Framed(PopToParenthesis(y), front, counts)
    decreases |y.operators|
  {
    if y.operators != [] && Top(y.operators).value != "(" {
      var next := y.(operators := Pop(y.operators), output := y.output + [Top(y.operators)]);
      assert front + (y.output + [Top(y.operators)]) == front + y.output + [Top(y.operators)];
      FramedPopInside(next, front, counts);
    }
  }

  lemma YardClosesCall(name: string, z: Yard, body: seq<Token>)
    requires PopToParenthesis(z).operators == [OPENING] && PopToParenthesis(z).output == body
    ensures YardRun(Framed(z, [Plain(Name, name)], [0]), [CLOSING, Plain(End, "")]).Success?
    ensures var y := YardRun(Framed(z, [Plain(Name, name)], [0]), [CLOSING, Plain(End, "")]).value;
            y.operators == [] && y.output == body + [Plain(Name, name).(arity := 1)]
  {
    var y := Framed(z, [Plain(Name, name)], [0]);
    FramedPopInside(z, [Plain(Name, name)], [0]);
    assert ([Plain(Name, name)] + body)[1..] == body && ([Plain(Name, name)] + body)[0] == Plain(Name, name);
    assert [CLOSING] + [Plain(End, "")] == [CLOSING, Plain(End, "")];
    YardTakes(y, CLOSING, [Plain(End, "")]);
    YardEnds(YardStep(y, CLOSING).value);
    hide PopToParenthesis, YardRun;
  }

  /** A call of one argument without parentheses of its own, with nothing before it, becomes the call
      of the function on the tree of the argument. */
  lemma CallIsBuilt(name: string, c: Infix)
    requires IsProper(c) && IsOpen(c)
    ensures BuildOf(CallTokens(name, c)) == Success(AstNode(FunctionNode, name, [TreeOf(c)]))
  {
    hide IsSum, Reverse, Stripped, Waiting, Emitted, TokensOf, YardRun, AstRun, PopToParenthesis, Postorder;
    var y0 := EMPTY_YARD.(operators := [OPENING]);
    var ending := [CLOSING, Plain(End, "")];
    var z := YardReads(c, y0, []);
    assert TokensOf(c) + [] == TokensOf(c);
    YardRunNothing(z);
    OpenIsFlat(c);
    YardOpensCall(name, TokensOf(c) + ending);
    FramedRun(y0, [Plain(Name, name)], [0], TokensOf(c), ending);
    assert CallTokens(name, c) == [Plain(Name, name), OPENING] + (TokensOf(c) + ending);
    WaitingAreNoParentheses(c);
    WaitingIsPlain(c);
    WaitingCompletes(c);
    ReverseOfPlain(Waiting(c));
    PopsTheWaitingInside(z, [OPENING], Waiting(c));
    var body := z.output + Reverse(Waiting(c));
    StrippedAppend(z.output, Reverse(Waiting(c)));
    StrippedEmpty();
    YardClosesCall(name, z, body);
    PostorderBuildsBack(TreeOf(c), body);
    CallAtTheEnd(name, body, TreeOf(c));
  }

  lemma YardRunNothing(y: Yard)
    requires Consistent(y)
    ensures YardRun(y, []) == Success(y)
  {
  }

  /** A call takes as many nodes from the top of the stack as its arity says, in their order. */
  lemma CallTakesTheLast(stack: seq<AstNode>, arguments: seq<AstNode>, f: Token)
    requires f.kind == Name && f.arity == |arguments| > 0
    ensures AstStep(stack + arguments, f) == Success(stack + [AstNode(FunctionNode, f.value, arguments)])
  {
    assert (stack + arguments)[..|stack|] == stack && (stack + arguments)[|stack|..] == arguments;
  }

  lemma CallAtTheEnd(name: string, body: seq<Token>, node: AstNode)
    requires AstOf(body) == Success(node)
    ensures AstOf(body + [Plain(Name, name).(arity := 1)]) == Success(AstNode(FunctionNode, name, [node]))
  {
    var f := Plain(Name, name).(arity := 1);
    hide AstRun;
    assert Pop(body + [f]) == body && Top(body + [f]) == f;
    AstRunLast([], body + [f]);
    var stack := AstRun([], body).value;
    assert stack == [node];
    assert [node][..0] == [] && [node][0..] == [node];
  }

  /** So its value is the function's on the value of the argument. */
  lemma CallIsEvaluated(name: string, c: Infix, context: Context)
    requires IsProper(c) && IsOpen(c)
    ensures BuildOf(CallTokens(name, c)).Success?
    ensures Evaluate(BuildOf(CallTokens(name, c)).value, context) ==
            if name !in context.functions then Failure(FunctionNotFound(name))
            else if !DividesSafely(c) then Failure(FailureOf(c))
            else Success(context.functions[name]([ValueOf(c)]))
  {
    hide BuildOf, CallTokens, IsSum, TreeOf, FailureOf, DividesSafely, ValueOf, ApplyOperator, NumberValue;
    CallIsBuilt(name, c);
    EvaluationIsArithmetic(c, context);
    OneArgument(name, TreeOf(c), context);
  }

  lemma OneArgument(name: string, argument: AstNode, context: Context)
    ensures Evaluate(AstNode(FunctionNode, name, [argument]), context) ==
            if name !in context.functions then Failure(FunctionNotFound(name))
            else match Evaluate(argument, context)
                 case Failure(error) => Failure(error)
                 case Success(value) => Success(context.functions[name]([value]))
  {
    hide ApplyOperator, NumberValue;
    var node := AstNode(FunctionNode, name, [argument]);
    assert EvaluateAll(node, 0, context) == Success([]);
    assert [] + [Evaluate(argument, context)] == [Evaluate(argument, context)];
    if Evaluate(argument, context).Success? {
      assert [] + [Evaluate(argument, context).value] == [Evaluate(argument, context).value];
    }
  }

  // Everything else

  predicate HasNoVariables(node: AstNode) {
    node.kind != VariableNode && forall i :: 0 <= i < |node.children| ==> HasNoVariables(node.children[i])
  }

  lemma {:induction false} RunKeepsVariablesOut(stack: seq<AstNode>, queue: seq<Token>)
    requires forall i :: 0 <= i < |stack| ==> HasNoVariables(stack[i])
    ensures AstRun(stack, queue).Success? ==>
      forall i :: 0 <= i < |AstRun(stack, queue).value| ==> HasNoVariables(AstRun(stack, queue).value[i])
    decreases |queue|
  {
    if queue != [] && AstStep(stack, queue[0]).Success? {
      StepKeepsVariablesOut(stack, queue[0]);
      hide AstStep, HasNoVariables;
      RunKeepsVariablesOut(AstStep(stack, queue[0]).value, queue[1..]);
    }
  }

  lemma StepKeepsVariablesOut(stack: seq<AstNode>, token: Token)
    requires forall i :: 0 <= i < |stack| ==> HasNoVariables(stack[i])
    requires AstStep(stack, token).Success?
    ensures forall i :: 0 <= i < |AstStep(stack, token).value| ==> HasNoVariables(AstStep(stack, token).value[i])
  {
    var next := AstStep(stack, token).value;
    assert forall i :: 0 <= i < |next| - 1 ==> next[i] == stack[i];
    assert HasNoVariables(Top(next));
  }

  /** No tree that is built asks for a variable, so a name that is in use as one is never looked up. */
  lemma TreesHaveNoVariables(tokens: seq<Token>)
    ensures BuildOf(tokens).Success? ==> HasNoVariables(BuildOf(tokens).value)
  {
    if RpnOf(tokens).Success? {
      RunKeepsVariablesOut([], RpnOf(tokens).value);
    }
    hide AstRun, RpnOf, HasNoVariables;
  }

  lemma ReadsWord(y: Yard, t: seq<Token>, i: nat, output: seq<Token>)
    requires i < |t| && t[i].kind in {Number, Name} && t[i].whitespace == y.whitespace == ""
    requires Consistent(y) && output == y.output + [t[i]]
    ensures YardRun(y, t[i..]) == YardRun(y.(output := output), t[i + 1..])
  {
    assert t[i..][1..] == t[i + 1..];
  }

  lemma ReadsOpening(y: Yard, t: seq<Token>, i: nat, operators: seq<Token>, counts: seq<nat>)
    requires i < |t| && t[i] == OPENING && Consistent(y) && operators == y.operators + [OPENING]
    requires counts == y.argCounts + if y.output != [] && Top(y.output).kind == Name then [0] else []
    ensures YardRun(y, t[i..]) == YardRun(y.(operators := operators, argCounts := counts), t[i + 1..])
  {
    assert t[i..][1..] == t[i + 1..];
    assert y.argCounts + [] == y.argCounts;
  }

  /** Closing a call: the front of the output goes to its end, as the function of `arity` arguments. */
  lemma ReadsClosing(y: Yard, t: seq<Token>, i: nat, operators: seq<Token>, counts: seq<nat>, output: seq<Token>,
                     count: nat)
    requires i < |t| && t[i] == CLOSING && y.operators == operators + [OPENING] && y.output != []
    requires y.argCounts == counts + [count]
    requires output == y.output[1..] + [y.output[0].(arity := if count == 0 then 1 else count)]
    ensures YardRun(y, t[i..]) == YardRun(Yard(output, operators, counts, y.whitespace), t[i + 1..])
  {
    assert t[i..][1..] == t[i + 1..];
    assert Pop(y.operators) == operators && Pop(y.argCounts) == counts;
  }

  function Leaf(text: string): AstNode {
    AstNode(NumberNode, text, [])
  }

  /** A name on its own is refused. */
  lemma BareNamesAreRefused(name: string)
    ensures BuildOf([Plain(Name, name), Plain(End, "")]) == Failure(InvalidToken(name))
  {
    var t := [Plain(Name, name), Plain(End, "")];
    assert t[0..] == t;
    ReadsWord(EMPTY_YARD, t, 0, [Plain(Name, name)]);
  }

  /** Of two nested calls the inner function is applied last: f(g(a)) becomes g(f(a)). */
  lemma NestedCallsSwap(f: string, g: string, a: string)
    ensures BuildOf([Plain(Name, f), OPENING, Plain(Name, g), OPENING, Plain(Number, a), CLOSING, CLOSING,
                     Plain(End, "")]) ==
            Success(AstNode(FunctionNode, g, [AstNode(FunctionNode, f, [Leaf(a)])]))
  {
    var F, G, A := Plain(Name, f), Plain(Name, g), Plain(Number, a);
    var t := [F, OPENING, G, OPENING, A, CLOSING, CLOSING, Plain(End, "")];
    var queue := [A, F.(arity := 1), G.(arity := 1)];
    RpnOfNested(F, G, A, t, queue);
    JustANumber(a);
    CallAtTheEnd(f, [A], Leaf(a));
    CallAtTheEnd(g, [A] + [F.(arity := 1)], AstNode(FunctionNode, f, [Leaf(a)]));
    assert queue == [A] + [F.(arity := 1)] + [G.(arity := 1)];
    hide RpnOf, AstOf;
  }

  lemma JustANumber(a: string)
    ensures AstOf([Plain(Number, a)]) == Success(Leaf(a))
  {
    BuildsPostorder([], Leaf(a), []);
    assert [] + [Leaf(a)] == [Leaf(a)] && Postorder(Leaf(a)) + [] == [Plain(Number, a)];
  }

  lemma RpnOfNested(F: Token, G: Token, A: Token, t: seq<Token>, queue: seq<Token>)
    requires F.kind == G.kind == Name && A.kind == Number && F.whitespace == G.whitespace == A.whitespace == ""
    requires t == [F, OPENING, G, OPENING, A, CLOSING, CLOSING, Plain(End, "")]
    requires queue == [A, F.(arity := 1), G.(arity := 1)]
    ensures RpnOf(t) == Success(queue)
  {
    hide YardRun, PopToParenthesis;
    var y2 := Yard([F], [OPENING], [0], "");
    var y4 := Yard([F, G], [OPENING, OPENING], [0, 0], "");
    var y5 := Yard([F, G, A], [OPENING, OPENING], [0, 0], "");
    var y6 := Yard([G, A, F.(arity := 1)], [OPENING], [0], "");
    assert t[0..] == t;
    ReadsWord(EMPTY_YARD, t, 0, [F]);
    ReadsOpening(EMPTY_YARD.(output := [F]), t, 1, [OPENING], [0]);
    ReadsWord(y2, t, 2, [F, G]);
    ReadsOpening(y2.(output := [F, G]), t, 3, [OPENING, OPENING], [0, 0]);
    ReadsWord(y4, t, 4, [F, G, A]);
    ReadsClosing(y5, t, 5, [OPENING], [0], [G, A, F.(arity := 1)], 0);
    ReadsClosing(y6, t, 6, [], [], queue, 0);
    YardEnds(Yard(queue, [], [], ""));
    assert t[7..] == [Plain(End, "")];
  }

  const PLUS: Token := Plain(Operator, "+")
  const COMMA: Token := Plain(Delimiter, ",")

  lemma ReadsPlus(y: Yard, t: seq<Token>, i: nat, operators: seq<Token>)
    requires i < |t| && t[i] == PLUS && Consistent(y)
    requires (y.operators == [] || Top(y.operators) == OPENING) && operators == y.operators + [PLUS]
    ensures YardRun(y, t[i..]) == YardRun(y.(operators := operators), t[i + 1..])
  {
    assert t[i..][1..] == t[i + 1..];
  }

  lemma ReadsComma(y: Yard, t: seq<Token>, i: nat, counts: seq<nat>)
    requires i < |t| && t[i] == COMMA && Consistent(y)
    requires y.argCounts != [] && counts == Pop(y.argCounts) + [Top(y.argCounts) + 1]
    ensures YardRun(y, t[i..]) == YardRun(y.(argCounts := counts), t[i + 1..])
  {
    assert t[i..][1..] == t[i + 1..];
    assert YardStep(y, COMMA) == Success(y.(argCounts := counts)) by {
      hide PopOperators, PopToParenthesis, OperatorPrecedence, Top, Pop;
    }
    hide YardStep, Top, Pop;
  }

  /** The arity of a call is the number of commas in it, or one: a call of two arguments takes one
      of them, and the other is left over. */
  lemma TwoArgumentsAreRefused(f: string, a: string, b: string)
    ensures BuildOf([Plain(Name, f), OPENING, Plain(Number, a), COMMA, Plain(Number, b), CLOSING, Plain(End, "")]) ==
            Failure(InvalidRpn)
  {
    var F, A, B := Plain(Name, f), Plain(Number, a), Plain(Number, b);
    var t := [F, OPENING, A, COMMA, B, CLOSING, Plain(End, "")];
    var queue := [A, B, F.(arity := 1)];
    RpnOfTwo(F, A, B, t, queue);
    var stack := [Leaf(a)];
    JustTwo(a, b);
    assert queue == [A, B] + [F.(arity := 1)];
    assert Pop(queue) == [A, B] && Top(queue) == F.(arity := 1);
    AstRunLast([], queue);
    hide RpnOf, AstRun;
  }

  lemma JustTwo(a: string, b: string)
    ensures AstRun([], [Plain(Number, a), Plain(Number, b)]) == Success([Leaf(a), Leaf(b)])
  {
    BuildsPostorder([], Leaf(a), [Plain(Number, b)]);
    BuildsPostorder([Leaf(a)], Leaf(b), []);
    AstRunEmpty([Leaf(a), Leaf(b)]);
    hide AstRun;
    assert Postorder(Leaf(a)) + [Plain(Number, b)] == [Plain(Number, a), Plain(Number, b)];
    assert Postorder(Leaf(b)) + [] == [Plain(Number, b)];
    assert [] + [Leaf(a)] == [Leaf(a)] && [Leaf(a)] + [Leaf(b)] == [Leaf(a), Leaf(b)];
  }

  lemma RpnOfTwo(F: Token, A: Token, B: Token, t: seq<Token>, queue: seq<Token>)
    requires F.kind == Name && A.kind == B.kind == Number && F.whitespace == A.whitespace == B.whitespace == ""
    requires t == [F, OPENING, A, COMMA, B, CLOSING, Plain(End, "")] && queue == [A, B, F.(arity := 1)]
    ensures RpnOf(t) == Success(queue)
  {
    hide YardRun, PopToParenthesis;
    var y3 := Yard([F, A], [OPENING], [0], "");
    var y4 := Yard([F, A], [OPENING], [1], "");
    assert t[0..] == t;
    ReadsWord(EMPTY_YARD, t, 0, [F]);
    ReadsOpening(EMPTY_YARD.(output := [F]), t, 1, [OPENING], [0]);
    ReadsWord(y3.(output := [F]), t, 2, [F, A]);
    ReadsComma(y3, t, 3, [1]);
    ReadsWord(y4, t, 4, [F, A, B]);
    ReadsClosing(y4.(output := [F, A, B]), t, 5, [], [], queue, 1);
    YardEnds(Yard(queue, [], [], ""));
    assert t[6..] == [Plain(End, "")];
  }

  /** A call after a number is refused: the token at the front becomes the function. */
  lemma LaterCallsAreRefused(a: string, f: string, b: string)
    ensures BuildOf([Plain(Number, a), PLUS, Plain(Name, f), OPENING, Plain(Number, b), CLOSING, Plain(End, "")]) ==
            Failure(InvalidToken(f))
  {
    var A, F, B := Plain(Number, a), Plain(Name, f), Plain(Number, b);
    var t := [A, PLUS, F, OPENING, B, CLOSING, Plain(End, "")];
    var queue := [F, B, A.(arity := 1), PLUS];
    RpnOfLater(A, F, B, t);
    assert AstStep([], queue[0]) == Failure(InvalidToken(f));
    assert AstRun([], queue) == Failure(InvalidToken(f));
    assert AstOf(queue) == Failure(InvalidToken(f));
    hide RpnOf, AstRun, AstOf;
  }

  lemma RpnOfLater(A: Token, F: Token, B: Token, t: seq<Token>)
    requires F.kind == Name && A.kind == B.kind == Number && F.whitespace == A.whitespace == B.whitespace == ""
    requires t == [A, PLUS, F, OPENING, B, CLOSING, Plain(End, "")]
    ensures RpnOf(t) == Success([F, B, A.(arity := 1), PLUS])
  {
    hide YardRun, PopToParenthesis;
    var y2 := Yard([A], [PLUS], [], "");
    var y4 := Yard([A, F], [PLUS, OPENING], [0], "");
    var y6 := Yard([F, B, A.(arity := 1)], [PLUS], [], "");
    assert t[0..] == t;
    ReadsWord(EMPTY_YARD, t, 0, [A]);
    ReadsPlus(EMPTY_YARD.(output := [A]), t, 1, [PLUS]);
    ReadsWord(y2, t, 2, [A, F]);
    ReadsOpening(y2.(output := [A, F]), t, 3, [PLUS, OPENING], [0]);
    ReadsWord(y4, t, 4, [A, F, B]);
    ReadsClosing(y4.(output := [A, F, B]), t, 5, [PLUS], [], y6.output, 0);
    YardEnds(y6);
    assert t[6..] == [Plain(End, "")];
    assert Pop([PLUS]) == [] && y6.output + [PLUS] == [F, B, A.(arity := 1), PLUS];
    assert Drain([PLUS], y6.output) == Drain([], y6.output + [PLUS]);
  }

  /** Parentheses in the argument end the call early: f(a+(b)) becomes a+f(b). */
  lemma ParenthesesEndTheCall(f: string, a: string, b: string)
    ensures BuildOf([Plain(Name, f), OPENING, Plain(Number, a), PLUS, OPENING, Plain(Number, b), CLOSING, CLOSING,
                     Plain(End, "")]) ==
            Success(AstNode(OperatorNode, "+", [Leaf(a), AstNode(FunctionNode, f, [Leaf(b)])]))
  {
    var F, A, B := Plain(Name, f), Plain(Number, a), Plain(Number, b);
    var t := [F, OPENING, A, PLUS, OPENING, B, CLOSING, CLOSING, Plain(End, "")];
    var queue := [A, B, F.(arity := 1), PLUS];
    var call := AstNode(FunctionNode, f, [Leaf(b)]);
    RpnOfEarly(F, A, B, t, queue);
    hide RpnOf, AstRun, AstStep;
    JustTwo(a, b);
    assert Pop(queue) == [A, B, F.(arity := 1)] && Pop(Pop(queue)) == [A, B];
    AstRunLast([], queue);
    AstRunLast([], Pop(queue));
    CallsLast(Leaf(a), Leaf(b), F.(arity := 1));
    PlusLast(Leaf(a), call);
  }

  lemma PlusLast(left: AstNode, right: AstNode)
    ensures AstStep([left, right], PLUS) == Success([AstNode(OperatorNode, "+", [left, right])])
  {
    var node := AstNode(OperatorNode, "+", [left, right]);
    assert [left, right][..0] == [] && [left, right][0..] == [left, right];
    assert [] + [node] == [node];
  }

  lemma CallsLast(first: AstNode, argument: AstNode, f: Token)
    requires f.kind == Name && f.arity == 1
    ensures AstStep([first, argument], f) == Success([first, AstNode(FunctionNode, f.value, [argument])])
  {
    CallTakesTheLast([first], [argument], f);
    hide AstStep;
    assert [first] + [argument] == [first, argument];
    var node := AstNode(FunctionNode, f.value, [argument]);
    assert [first] + [node] == [first, node];
  }

  lemma ReadsUpToTheParenthesis(F: Token, A: Token, t: seq<Token>)
    requires F.kind == Name && A.kind == Number && F.whitespace == A.whitespace == ""
    requires |t| >= 5 && t[0] == F && t[1] == OPENING && t[2] == A && t[3] == PLUS && t[4] == OPENING
    ensures YardRun(EMPTY_YARD, t) == YardRun(Yard([F, A], [OPENING, PLUS, OPENING], [0], ""), t[5..])
  {
    hide YardRun, PopToParenthesis;
    var y3 := Yard([F, A], [OPENING], [0], "");
    assert t[0..] == t;
    ReadsWord(EMPTY_YARD, t, 0, [F]);
    ReadsOpening(EMPTY_YARD.(output := [F]), t, 1, [OPENING], [0]);
    ReadsWord(y3.(output := [F]), t, 2, [F, A]);
    ReadsPlus(y3, t, 3, [OPENING, PLUS]);
    ReadsOpening(y3.(operators := [OPENING, PLUS]), t, 4, [OPENING, PLUS, OPENING], [0]);
  }

  lemma RpnOfEarly(F: Token, A: Token, B: Token, t: seq<Token>, queue: seq<Token>)
    requires F.kind == Name && A.kind == B.kind == Number && F.whitespace == A.whitespace == B.whitespace == ""
    requires t == [F, OPENING, A, PLUS, OPENING, B, CLOSING, CLOSING, Plain(End, "")]
    requires queue == [A, B, F.(arity := 1), PLUS]
    ensures RpnOf(t) == Success(queue)
  {
    hide YardRun, PopToParenthesis;
    var y5 := Yard([F, A], [OPENING, PLUS, OPENING], [0], "");
    var y7 := Yard([A, B, F.(arity := 1)], [OPENING, PLUS], [], "");
    ReadsUpToTheParenthesis(F, A, t);
    ReadsWord(y5, t, 5, [F, A, B]);
    ReadsClosing(y5.(output := [F, A, B]), t, 6, [OPENING, PLUS], [], y7.output, 0);
    ClosesAfterPlus(y7, t, 7, queue);
    YardEnds(Yard(queue, [], [], ""));
    assert t[8..] == [Plain(End, "")];
  }

  lemma ClosesAfterPlus(y: Yard, t: seq<Token>, i: nat, output: seq<Token>)
    requires i < |t| && t[i] == CLOSING && y.operators == [OPENING, PLUS] && y.argCounts == []
    requires output == y.output + [PLUS]
    ensures YardRun(y, t[i..]) == YardRun(Yard(output, [], [], y.whitespace), t[i + 1..])
  {
    assert t[i..][1..] == t[i + 1..];
    assert Pop(y.operators) == [OPENING] && Pop([OPENING]) == [];
    assert PopToParenthesis(y) == y.(operators := [OPENING], output := output);
  }
}
