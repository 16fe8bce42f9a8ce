/** Infix notation and its inverse: what the parser makes of every way to write a tree down. */
module Printing {
  import opened Tokens
  import opened AstBuilding

  // Trees of numbers and operators

  ghost predicate IsArithmetic(node: AstNode) {
    if node.kind == NumberNode then node.children == []
    else
      && node.kind == OperatorNode && |node.children| == 2
      && IsArithmetic(node.children[0]) && IsArithmetic(node.children[1])
  }

  /** The tree in postorder. */
  ghost function Postorder(node: AstNode): seq<Token>
    requires IsArithmetic(node)
  {
    if node.kind == NumberNode then [Plain(Number, node.value)]
    else Postorder(node.children[0]) + Postorder(node.children[1]) + [Plain(Operator, node.value)]
  }

  ghost predicate AllArithmetic(stack: seq<AstNode>) {
    forall i :: 0 <= i < |stack| ==> IsArithmetic(stack[i])
  }

  ghost function PostorderAll(stack: seq<AstNode>): seq<Token>
    requires AllArithmetic(stack)
  {
    if stack == [] then [] else PostorderAll(Pop(stack)) + Postorder(Top(stack))
  }

  /** A queue of numbers and operators, whatever whitespace is attached to them. */
  ghost predicate IsArithmeticQueue(queue: seq<Token>) {
    forall i :: 0 <= i < |queue| ==> queue[i].kind == Number || queue[i].kind == Operator
  }

  function Stripped(queue: seq<Token>): (r: seq<Token>)
    ensures |r| == |queue|
  {
    if queue == [] then [] else Stripped(Pop(queue)) + [Plain(Top(queue).kind, Top(queue).value)]
  }

  /** Numbers minus operators. */
  function Surplus(queue: seq<Token>): int {
    if queue == [] then 0 else Surplus(Pop(queue)) + if Top(queue).kind == Number then 1 else -1
  }

  /** Every non-empty prefix has more numbers than operators. */
  ghost predicate NeverShort(queue: seq<Token>) {
    forall k :: 0 < k <= |queue| ==> Surplus(queue[..k]) >= 1
  }

  /** What the builder does after `queue` is what it does with the last token after the rest. */
  lemma {:induction false} AstRunLast(stack: seq<AstNode>, queue: seq<Token>)
    requires queue != []
    ensures AstRun(stack, queue) ==
            match AstRun(stack, Pop(queue))
            case Failure(error) => Failure(error)
            case Success(s) => AstStep(s, Top(queue))
    decreases |queue|
  {
    hide AstStep;
    if |queue| > 1 {
      assert Pop(queue)[1..] == Pop(queue[1..]) && Top(queue) == Top(queue[1..]);
      match AstStep(stack, queue[0])
      case Failure(_) =>
      case Success(next) => AstRunLast(next, queue[1..]);
    } else {
      assert Pop(queue) == [] && queue[1..] == [];
    }
  }

  lemma AstStepOnArithmetic(stack: seq<AstNode>, token: Token)
    requires AllArithmetic(stack) && (token.kind == Number || token.kind == Operator)
    ensures AstStep(stack, token).Success? <==> token.kind == Number || |stack| >= 2
    ensures AstStep(stack, token).Success? ==>
      var next := AstStep(stack, token).value;
      && AllArithmetic(next)
      && |next| == |stack| + (if token.kind == Number then 1 else -1)
      && PostorderAll(next) == PostorderAll(stack) + [Plain(token.kind, token.value)]
  {
    if AstStep(stack, token).Success? {
      var next := AstStep(stack, token).value;
      if token.kind == Number {
        assert Pop(next) == stack;
      } else {
        var k := |stack| - 2;
        assert Pop(next) == stack[..k] && Pop(Pop(stack)) == stack[..k];
        assert Top(next).children == [stack[k], stack[k + 1]];
      }
    }
  }

  lemma {:induction false} AstRunOnArithmetic(queue: seq<Token>)
    requires IsArithmeticQueue(queue)
    ensures AstRun([], queue).Success? <==> NeverShort(queue)
    ensures AstRun([], queue).Success? ==>
      var stack := AstRun([], queue).value;
      AllArithmetic(stack) && |stack| == Surplus(queue) && PostorderAll(stack) == Stripped(queue)
    decreases |queue|
  {
    hide AstRun, AstStep;
    if queue == [] {
      AstRunEmpty([]);
    } else {
      AstRunLast([], queue);
      AstRunOnArithmetic(Pop(queue));
      NeverShortLast(queue);
      if AstRun([], Pop(queue)).Success? {
        AstStepOnArithmetic(AstRun([], Pop(queue)).value, Top(queue));
      }
    }
  }

  lemma AstRunEmpty(stack: seq<AstNode>)
    ensures AstRun(stack, []) == Success(stack)
  {
  }

  lemma NeverShortLast(queue: seq<Token>)
    requires queue != []
    ensures NeverShort(queue) <==> NeverShort(Pop(queue)) && Surplus(queue) >= 1
  {
    hide Surplus;
    assert queue[..|queue|] == queue;
    forall k | 0 < k <= |queue| - 1
      ensures Pop(queue)[..k] == queue[..k]
    {
    }
    if NeverShort(queue) {
      forall k | 0 < k <= |Pop(queue)| ensures Surplus(Pop(queue)[..k]) >= 1 {
        assert Surplus(queue[..k]) >= 1;
      }
    }
    if NeverShort(Pop(queue)) && Surplus(queue) >= 1 {
      forall k | 0 < k <= |queue| ensures Surplus(queue[..k]) >= 1 {
        if k < |queue| {
          assert Surplus(Pop(queue)[..k]) >= 1;
        }
      }
    }
  }

  /** The tree builder accepts a queue of numbers and operators exactly when every non-empty
      prefix has more numbers than operators and the whole has one more; the tree it builds
      is the one whose postorder is the queue. */
  lemma TreeBuilderInvertsPostorder(queue: seq<Token>)
    requires IsArithmeticQueue(queue)
    ensures AstOf(queue).Success? <==> NeverShort(queue) && Surplus(queue) == 1
    ensures AstOf(queue).Success? ==>
      IsArithmetic(AstOf(queue).value) && Postorder(AstOf(queue).value) == Stripped(queue)
  {
    hide AstRun, NeverShort;
    AstRunOnArithmetic(queue);
    if AstOf(queue).Success? {
      var stack := AstRun([], queue).value;
      assert Pop(stack) == [];
    }
  }

  lemma {:induction false} BuildsPostorder(stack: seq<AstNode>, node: AstNode, rest: seq<Token>)
    requires IsArithmetic(node)
    ensures AstRun(stack, Postorder(node) + rest) == AstRun(stack + [node], rest)
    decreases node
  {
    hide AstStep, AstRun;
    if node.kind == NumberNode {
      var t := Plain(Number, node.value);
      assert Postorder(node) + rest == [t] + rest;
      BuildsLeaf(stack, node);
      AstTakes(stack, t, rest);
    } else {
      var l, r, t := node.children[0], node.children[1], Plain(Operator, node.value);
      assert Postorder(node) + rest == Postorder(l) + (Postorder(r) + ([t] + rest));
      BuildsPostorder(stack, l, Postorder(r) + ([t] + rest));
      BuildsPostorder(stack + [l], r, [t] + rest);
      BuildsOperator(stack, node);
      AstTakes(stack + [l] + [r], t, rest);
    }
  }

  lemma AstTakes(stack: seq<AstNode>, token: Token, rest: seq<Token>)
    requires AstStep(stack, token).Success?
    ensures AstRun(stack, [token] + rest) == AstRun(AstStep(stack, token).value, rest)
  {
    assert ([token] + rest)[1..] == rest;
  }

  lemma BuildsLeaf(stack: seq<AstNode>, node: AstNode)
    requires IsArithmetic(node) && node.kind == NumberNode
    ensures AstStep(stack, Plain(Number, node.value)) == Success(stack + [node])
  {
  }

  lemma BuildsOperator(stack: seq<AstNode>, node: AstNode)
    requires IsArithmetic(node) && node.kind == OperatorNode
    ensures AstStep(stack + [node.children[0]] + [node.children[1]], Plain(Operator, node.value)) ==
            Success(stack + [node])
  {
    var full := stack + [node.children[0]] + [node.children[1]];
    assert full[..|full| - 2] == stack && full[|full| - 2..] == node.children;
  }

  lemma StrippedLast(queue: seq<Token>, i: nat)
    requires i < |queue|
    ensures Stripped(queue)[i] == Plain(queue[i].kind, queue[i].value)
    decreases |queue|
  {
    if i < |queue| - 1 {
      StrippedLast(Pop(queue), i);
    }
  }

  lemma StrippedFirst(queue: seq<Token>)
    requires queue != []
    ensures Stripped(queue)[0] == Plain(queue[0].kind, queue[0].value)
    ensures Stripped(queue)[1..] == Stripped(queue[1..])
  {
    forall i | 0 <= i < |queue| ensures Stripped(queue)[i] == Plain(queue[i].kind, queue[i].value) {
      StrippedLast(queue, i);
    }
    forall i | 0 <= i < |queue| - 1 ensures Stripped(queue[1..])[i] == Stripped(queue)[1..][i] {
      StrippedLast(queue[1..], i);
    }
  }

  /** Whitespace attached to numbers and operators does not matter to the tree builder. */
  lemma {:induction false} WhitespaceIsIgnored(stack: seq<AstNode>, queue: seq<Token>)
    requires IsArithmeticQueue(queue)
    ensures AstRun(stack, queue) == AstRun(stack, Stripped(queue))
    decreases |queue|
  {
    if queue != [] {
      StrippedFirst(queue);
      assert AstStep(stack, queue[0]) == AstStep(stack, Stripped(queue)[0]);
      match AstStep(stack, queue[0])
      case Failure(_) =>
      case Success(next) => WhitespaceIsIgnored(next, queue[1..]);
    }
  }

  lemma PostorderBuildsBack(node: AstNode, queue: seq<Token>)
    requires IsArithmetic(node) && IsArithmeticQueue(queue) && Stripped(queue) == Postorder(node)
    ensures AstOf(queue) == Success(node)
  {
    WhitespaceIsIgnored([], queue);
    BuildsPostorder([], node, []);
    assert Postorder(node) + [] == Postorder(node) && [] + [node] == [node];
  }

  // Infix notation

  /** Every way to write a tree of numbers and operators: with parentheses where they are needed
      or not, and with whitespace before any token. */
  datatype Infix =
    | Literal(space: string, text: string)
    | Parens(open: string, inner: Infix, close: string)
    | Binary(left: Infix, space: string, op: string, right: Infix)

  predicate IsAdditive(op: string) {
    op == "+" || op == "-"
  }

  predicate IsMultiplicative(op: string) {
    op == "*" || op == "/" || op == "%"
  }

  /** The grammar. A sum is a product, or a sum plus or minus a product; a product is a factor, or a
      product times, divided by or modulo a factor; a factor is a number or a sum in parentheses. */
  predicate IsSum(c: Infix)
    decreases c, 2
  {
    IsProduct(c) || (c.Binary? && IsAdditive(c.op) && IsSum(c.left) && IsProduct(c.right))
  }

  predicate IsProduct(c: Infix)
    decreases c, 1
  {
    IsFactor(c) || (c.Binary? && IsMultiplicative(c.op) && IsProduct(c.left) && IsFactor(c.right))
  }

  predicate IsFactor(c: Infix)
    decreases c, 0
  {
    c.Literal? || (c.Parens? && IsSum(c.inner))
  }

  /** The parentheses that the grammar asks for are there. */
  predicate IsProper(c: Infix) {
    IsSum(c)
  }

  function Precedence(c: Infix): int {
    if c.Binary? then OperatorPrecedence(c.op) else 3
  }

  /** The grammar, read off the outermost shape. */
  lemma GrammarByShape(c: Infix)
    ensures c.Literal? ==> IsSum(c) && IsProduct(c) && IsFactor(c)
    ensures c.Parens? ==> IsSum(c) == IsProduct(c) == IsFactor(c) == IsSum(c.inner)
    ensures c.Binary? ==>
      && !IsFactor(c)
      && (IsProduct(c) <==> IsMultiplicative(c.op) && IsProduct(c.left) && IsFactor(c.right))
      && (IsSum(c) <==> IsProduct(c) || (IsAdditive(c.op) && IsSum(c.left) && IsProduct(c.right)))
  {
    if !c.Binary? {
      assert c.Parens? ==> IsFactor(c) == IsSum(c.inner);
      assert IsProduct(c) == IsFactor(c);
    }
  }

  /** The precedences of the code are those of the grammar. */
  lemma GrammarIsPrecedence(c: Infix)
    ensures IsProduct(c) <==> IsSum(c) && Precedence(c) >= 2
    ensures IsFactor(c) <==> IsSum(c) && Precedence(c) >= 3
    ensures c.Parens? ==> (IsSum(c) <==> IsSum(c.inner))
    ensures c.Binary? ==> (IsSum(c) <==>
              && OperatorPrecedence(c.op) > 0
              && IsSum(c.left) && IsSum(c.right)
              && Precedence(c.left) >= OperatorPrecedence(c.op)
              && Precedence(c.right) > OperatorPrecedence(c.op))
    decreases c
  {
    GrammarByShape(c);
    hide IsSum, IsProduct, IsFactor;
    if c.Binary? {
      GrammarIsPrecedence(c.left);
      GrammarIsPrecedence(c.right);
    }
  }

  function TreeOf(c: Infix): (node: AstNode)
    ensures IsArithmetic(node)
  {
    match c
    case Literal(_, text) => AstNode(NumberNode, text, [])
    case Parens(_, inner, _) => TreeOf(inner)
    case Binary(left, _, op, right) => AstNode(OperatorNode, op, [TreeOf(left), TreeOf(right)])
  }

  function SpaceTokens(space: string): seq<Token> {
    if space == "" then [] else [Plain(Whitespace, space)]
  }

  function TokensOf(c: Infix): seq<Token> {
    match c
    case Literal(space, text) => SpaceTokens(space) + [Plain(Number, text)]
    case Parens(open, inner, close) =>
      SpaceTokens(open) + [Plain(Parenthesis, "(")] + TokensOf(inner) + SpaceTokens(close) + [Plain(Parenthesis, ")")]
    case Binary(left, space, op, right) =>
      TokensOf(left) + SpaceTokens(space) + [Plain(Operator, op)] + TokensOf(right)
  }

  /** The tree written down with no whitespace, and with parentheses only around the operands that
      the grammar asks them for. */
  function Print(node: AstNode): Infix
    requires IsArithmetic(node)
  {
    if node.kind == NumberNode then Literal("", node.value)
    else
      var left, right := Print(node.children[0]), Print(node.children[1]);
      if IsAdditive(node.value) then Binary(left, "", node.value, AsProduct(right))
      else Binary(AsProduct(left), "", node.value, AsFactor(right))
  }

  function AsProduct(c: Infix): Infix {
    if IsProduct(c) then c else Parens("", c, "")
  }

  function AsFactor(c: Infix): Infix {
    if IsFactor(c) then c else Parens("", c, "")
  }

  ghost predicate KnownOperators(node: AstNode)
    requires IsArithmetic(node)
  {
    node.kind == NumberNode ||
    (&& (IsAdditive(node.value) || IsMultiplicative(node.value))
     && KnownOperators(node.children[0]) && KnownOperators(node.children[1]))
  }

  lemma ShapedAs(c: Infix)
    requires IsSum(c)
    ensures IsProduct(AsProduct(c)) && IsFactor(AsFactor(c))
    ensures IsFactor(c) ==> IsProduct(c)
  {
    GrammarByShape(Parens("", c, ""));
  }

  /** Every tree with known operators can be written down. */
  lemma {:induction false} PrintIsProper(node: AstNode)
    requires IsArithmetic(node) && KnownOperators(node)
    ensures IsProper(Print(node)) && TreeOf(Print(node)) == node
    decreases node
  {
    if node.kind != NumberNode {
      PrintIsProper(node.children[0]);
      PrintIsProper(node.children[1]);
      assert node.children == [node.children[0], node.children[1]];
      var left, right := Print(node.children[0]), Print(node.children[1]);
      ShapedAs(left);
      ShapedAs(right);
      GrammarByShape(Print(node));
    }
  }

  function Parentheses(c: Infix): nat {
    match c
    case Literal(_, _) => 0
    case Parens(_, inner, _) => Parentheses(inner) + 1
    case Binary(left, _, _, right) => Parentheses(left) + Parentheses(right)
  }

  lemma {:induction false} ProperIsKnown(c: Infix)
    requires IsSum(c)
    ensures KnownOperators(TreeOf(c))
    decreases c
  {
    GrammarByShape(c);
    if c.Binary? {
      GrammarByShape(c.left);
      GrammarByShape(c.right);
    }
    match c
    case Literal(_, _) =>
    case Parens(_, inner, _) =>
      ProperIsKnown(inner);
    case Binary(left, _, op, right) =>
      ProperIsKnown(left);
      ProperIsKnown(right);
      var node := TreeOf(c);
      assert node.children[0] == TreeOf(left) && node.children[1] == TreeOf(right);
  }

  lemma PrintedOperands(c: Infix)
    requires IsSum(c) && c.Binary?
    ensures var p, q := Print(TreeOf(c.left)), Print(TreeOf(c.right));
            && IsSum(p) && IsSum(q)
            && Print(TreeOf(c)) == if IsAdditive(c.op) then Binary(p, "", c.op, AsProduct(q))
                                   else Binary(AsProduct(p), "", c.op, AsFactor(q))
  {
    var node := TreeOf(c);
    assert node.children[0] == TreeOf(c.left) && node.children[1] == TreeOf(c.right);
    GrammarByShape(c);
    GrammarByShape(c.left);
    GrammarByShape(c.right);
    hide IsSum, IsProduct, IsFactor;
    ProperIsKnown(c.left);
    ProperIsKnown(c.right);
    PrintIsProper(TreeOf(c.left));
    PrintIsProper(TreeOf(c.right));
  }

  /** No way to write a tree down has fewer parentheses than the printed one, nor has one that may
      stand where a product or a factor is asked for fewer than the printed one there. */
  lemma {:induction false} PrintHasFewestParentheses(c: Infix)
    requires IsProper(c)
    ensures Parentheses(Print(TreeOf(c))) <= Parentheses(c)
    ensures IsProduct(c) ==> Parentheses(AsProduct(Print(TreeOf(c)))) <= Parentheses(c)
    ensures IsFactor(c) ==> Parentheses(AsFactor(Print(TreeOf(c)))) <= Parentheses(c)
    decreases c
  {
    GrammarByShape(c);
    match c
    case Literal(_, text) =>
      GrammarByShape(Literal("", text));
    case Parens(_, inner, _) =>
      PrintHasFewestParentheses(inner);
    case Binary(left, _, op, right) =>
      GrammarByShape(left);
      GrammarByShape(right);
      PrintHasFewestParentheses(left);
      PrintHasFewestParentheses(right);
      PrintedOperands(c);
      GrammarByShape(Print(TreeOf(c)));
      hide Print, TreeOf, IsSum, IsProduct, IsFactor;
  }

  // The shunting yard on infix notation

  /** The operators that wait on the stack once `c` was read, and what is in the output by then. */
  function Waiting(c: Infix): seq<Token> {
    match c
    case Binary(_, _, op, right) => [Plain(Operator, op)] + Waiting(right)
    case _ => []
  }

  ghost function Emitted(c: Infix): seq<Token> {
    match c
    case Literal(_, text) => [Plain(Number, text)]
    case Parens(_, inner, _) => Postorder(TreeOf(inner))
    case Binary(left, _, _, right) => Postorder(TreeOf(left)) + Emitted(right)
  }

  function Reverse<T>(s: seq<T>): seq<T> {
    if s == [] then [] else [Top(s)] + Reverse(Pop(s))
  }

  lemma {:induction false} ReversePutFirst<T>(x: T, s: seq<T>)
    ensures Reverse([x] + s) == Reverse(s) + [x]
  {
    if s == [] {
      assert [x] + s == [x] && Pop([x]) == [];
    } else {
      assert Top([x] + s) == Top(s) && Pop([x] + s) == [x] + Pop(s);
      ReversePutFirst(x, Pop(s));
    }
  }

  /** The waiting operators complete the output, innermost first. */
  lemma {:induction false} WaitingCompletes(c: Infix)
    ensures Emitted(c) + Reverse(Waiting(c)) == Postorder(TreeOf(c))
  {
    match c
    case Binary(left, _, op, right) =>
      WaitingCompletes(right);
      ReversePutFirst(Plain(Operator, op), Waiting(right));
      var node := TreeOf(c);
      assert node.children[0] == TreeOf(left) && node.children[1] == TreeOf(right);
    case _ =>
  }

  lemma {:induction false} WaitingBindAsTightly(c: Infix)
    requires IsProper(c)
    ensures forall i :: 0 <= i < |Waiting(c)| ==> YieldsTo(Waiting(c)[i], Precedence(c))
  {
    GrammarIsPrecedence(c);
    if c.Binary? {
      WaitingBindAsTightly(c.right);
    }
  }

  /** The top of the stack leaves an operator of `precedence` alone. */
  predicate Holds(operators: seq<Token>, precedence: int) {
    operators == [] || !YieldsTo(Top(operators), precedence)
  }

  lemma {:induction false} StrippedAppend(a: seq<Token>, b: seq<Token>)
    ensures Stripped(a + b) == Stripped(a) + Stripped(b)
    decreases |b|
  {
    if b == [] {
      assert a + b == a;
    } else {
      assert Pop(a + b) == a + Pop(b) && Top(a + b) == Top(b);
      StrippedAppend(a, Pop(b));
    }
  }

  /** Tokens as they come out of `Waiting`: operators with nothing attached. */
  predicate PlainOperators(tokens: seq<Token>) {
    forall i :: 0 <= i < |tokens| ==> tokens[i].kind == Operator && tokens[i] == Plain(Operator, tokens[i].value)
  }

  lemma {:induction false} PlainAreStripped(tokens: seq<Token>)
    requires PlainOperators(tokens)
    ensures Stripped(tokens) == tokens
    decreases |tokens|
  {
    if tokens != [] {
      assert Top(tokens) == Plain(Top(tokens).kind, Top(tokens).value) && PlainOperators(Pop(tokens));
      hide PlainOperators, Plain;
      PlainAreStripped(Pop(tokens));
      assert tokens == Pop(tokens) + [Top(tokens)];
    }
  }

  lemma {:induction false} ReverseIsPlain(tokens: seq<Token>)
    requires PlainOperators(tokens)
    ensures PlainOperators(Reverse(tokens))
    decreases |tokens|
  {
    if tokens != [] {
      ReverseIsPlain(Pop(tokens));
    }
  }

  lemma ReverseOfPlain(tokens: seq<Token>)
    requires PlainOperators(tokens)
    ensures PlainOperators(Reverse(tokens)) && Stripped(Reverse(tokens)) == Reverse(tokens)
  {
    ReverseIsPlain(tokens);
    PlainAreStripped(Reverse(tokens));
  }

  lemma {:induction false} WaitingIsPlain(c: Infix)
    ensures PlainOperators(Waiting(c))
  {
    if c.Binary? {
      WaitingIsPlain(c.right);
    }
  }

  lemma ReverseFirst(waiting: seq<Token>)
    requires waiting != []
    ensures Reverse(waiting) == [Top(waiting)] + Reverse(Pop(waiting))
  {
  }

  /** Moving the top of `waiting` to the output. */
  lemma MovesTop(base: seq<Token>, waiting: seq<Token>, output: seq<Token>)
    requires waiting != []
    ensures Top(base + waiting) == Top(waiting) && Pop(base + waiting) == base + Pop(waiting)
    ensures output + Reverse(waiting) == output + [Top(waiting)] + Reverse(Pop(waiting))
  {
    ReverseFirst(waiting);
    hide Reverse;
    Regroup3(output, [Top(waiting)], Reverse(Pop(waiting)));
  }

  lemma MovesNothing(base: seq<Token>, output: seq<Token>)
    ensures base + [] == base && output + Reverse([]) == output
  {
  }

  /** Of the operators `waiting` above `base` all are popped, and no more. */
  lemma {:induction false} PopsTheWaiting(y: Yard, base: seq<Token>, waiting: seq<Token>, precedence: int)
    requires y.operators == base + waiting && Holds(base, precedence)
    requires forall i :: 0 <= i < |waiting| ==> YieldsTo(waiting[i], precedence)
    ensures PopOperators(y, precedence) == y.(operators := base, output := y.output + Reverse(waiting))
    decreases |waiting|
  {
    hide YieldsTo, Reverse;
    if waiting == [] {
      MovesNothing(base, y.output);
    } else {
      MovesTop(base, waiting, y.output);
      var next := y.(operators := base + Pop(waiting), output := y.output + [Top(waiting)]);
      PopsTheWaiting(next, base, Pop(waiting), precedence);
    }
  }

  lemma {:induction false} PopsTheWaitingInside(y: Yard, base: seq<Token>, waiting: seq<Token>)
    requires y.operators == base + waiting && base != [] && Top(base).value == "("
    requires forall i :: 0 <= i < |waiting| ==> waiting[i].value != "("
    ensures PopToParenthesis(y) == y.(operators := base, output := y.output + Reverse(waiting))
    decreases |waiting|
  {
    hide Reverse;
    if waiting == [] {
      MovesNothing(base, y.output);
    } else {
      MovesTop(base, waiting, y.output);
      var next := y.(operators := base + Pop(waiting), output := y.output + [Top(waiting)]);
      PopsTheWaitingInside(next, base, Pop(waiting));
    }
  }

  lemma WaitingAreNoParentheses(c: Infix)
    requires IsProper(c)
    ensures forall i :: 0 <= i < |Waiting(c)| ==> Waiting(c)[i].value != "("
  {
    WaitingBindAsTightly(c);
    GrammarIsPrecedence(c);
    forall i | 0 <= i < |Waiting(c)| ensures Waiting(c)[i].value != "(" {
      assert YieldsTo(Waiting(c)[i], Precedence(c));
    }
  }

  /** A yard that reads arithmetic: no function is being counted and no name was put out. */
  ghost predicate ReadsArithmetic(y: Yard) {
    y.argCounts == [] && IsArithmeticQueue(y.output)
  }

  lemma YardTakes(y: Yard, token: Token, rest: seq<Token>)
    requires Consistent(y) && token.kind != End && YardStep(y, token).Success?
    ensures YardRun(y, [token] + rest) == YardRun(YardStep(y, token).value, rest)
  {
    assert ([token] + rest)[1..] == rest;
  }

  lemma YardTakesSpace(y: Yard, space: string, rest: seq<Token>) returns (z: Yard)
    requires ReadsArithmetic(y)
    ensures ReadsArithmetic(z) && z.operators == y.operators && z.output == y.output
    ensures YardRun(y, SpaceTokens(space) + rest) == YardRun(z, rest)
  {
    z := y.(whitespace := y.whitespace + space);
    if space == "" {
      assert z == y && SpaceTokens(space) + rest == rest;
    } else {
      YardTakes(y, Plain(Whitespace, space), rest);
    }
  }

  lemma YardReadsLiteral(text: string, y: Yard, rest: seq<Token>) returns (z: Yard)
    requires ReadsArithmetic(y)
    ensures ReadsArithmetic(z) && z.operators == y.operators
    ensures Stripped(z.output) == Stripped(y.output) + [Plain(Number, text)]
    ensures YardRun(y, [Plain(Number, text)] + rest) == YardRun(z, rest)
  {
    var t := Plain(Number, text);
    z := YardStep(y, t).value;
    YardTakes(y, t, rest);
    assert Pop(z.output) == y.output;
  }

  lemma YardReadsOperator(c: Infix, op: string, base: seq<Token>, y: Yard, rest: seq<Token>) returns (z: Yard)
    requires ReadsArithmetic(y) && IsProper(c) && OperatorPrecedence(op) > 0
    requires y.operators == base + Waiting(c) && Holds(base, OperatorPrecedence(op))
    requires Precedence(c) >= OperatorPrecedence(op)
    ensures ReadsArithmetic(z) && z.operators == base + [Plain(Operator, op)]
    ensures Stripped(z.output) == Stripped(y.output) + Reverse(Waiting(c))
    ensures YardRun(y, [Plain(Operator, op)] + rest) == YardRun(z, rest)
  {
    var t := Plain(Operator, op);
    hide Waiting, Reverse;
    WaitingBindAsTightly(c);
    WaitingIsPlain(c);
    PopsTheWaiting(y, base, Waiting(c), OperatorPrecedence(op));
    z := YardStep(y, t).value;
    YardTakes(y, t, rest);
    ReverseOfPlain(Waiting(c));
    StrippedAppend(y.output, Reverse(Waiting(c)));
  }

  lemma YardOpens(y: Yard, rest: seq<Token>) returns (z: Yard)
    requires ReadsArithmetic(y)
    ensures ReadsArithmetic(z) && z.output == y.output && z.operators == y.operators + [Plain(Parenthesis, "(")]
    ensures YardRun(y, [Plain(Parenthesis, "(")] + rest) == YardRun(z, rest)
  {
    var t := Plain(Parenthesis, "(");
    z := YardStep(y, t).value;
    YardTakes(y, t, rest);
  }

  lemma YardCloses(c: Infix, base: seq<Token>, y: Yard, rest: seq<Token>) returns (z: Yard)
    requires ReadsArithmetic(y) && IsProper(c)
    requires y.operators == base + [Plain(Parenthesis, "(")] + Waiting(c)
    ensures ReadsArithmetic(z) && z.operators == base
    ensures Stripped(z.output) == Stripped(y.output) + Reverse(Waiting(c))
    ensures YardRun(y, [Plain(Parenthesis, ")")] + rest) == YardRun(z, rest)
  {
    hide Waiting, Reverse, OperatorPrecedence, IsProper;
    var t := Plain(Parenthesis, ")");
    WaitingAreNoParentheses(c);
    WaitingIsPlain(c);
    var inner := base + [Plain(Parenthesis, "(")];
    PopsTheWaitingInside(y, inner, Waiting(c));
    assert Pop(inner) == base;
    z := YardStep(y, t).value;
    YardTakes(y, t, rest);
    ReverseOfPlain(Waiting(c));
    StrippedAppend(y.output, Reverse(Waiting(c)));
  }

  lemma TokensRegrouped(c: Infix, rest: seq<Token>)
    ensures match c
            case Literal(space, text) =>
              TokensOf(c) + rest == SpaceTokens(space) + ([Plain(Number, text)] + rest)
            case Parens(open, inner, close) =>
              TokensOf(c) + rest ==
              SpaceTokens(open) + ([Plain(Parenthesis, "(")] +
                (TokensOf(inner) + (SpaceTokens(close) + ([Plain(Parenthesis, ")")] + rest))))
            case Binary(left, space, op, right) =>
              TokensOf(c) + rest ==
              TokensOf(left) + (SpaceTokens(space) + ([Plain(Operator, op)] + (TokensOf(right) + rest)))
  {
    hide SpaceTokens;
    match c
    case Literal(space, text) => Regroup3(SpaceTokens(space), [Plain(Number, text)], rest);
    case Parens(open, inner, close) =>
      Regroup6(SpaceTokens(open), [Plain(Parenthesis, "(")], TokensOf(inner), SpaceTokens(close),
               [Plain(Parenthesis, ")")], rest);
    case Binary(left, space, op, right) =>
      Regroup5(TokensOf(left), SpaceTokens(space), [Plain(Operator, op)], TokensOf(right), rest);
  }

  /** Reading the tokens of `c` leaves its waiting operators on top of the stack and puts the
      rest of it out in postorder. */
  lemma {:induction false} YardReads(c: Infix, y: Yard, rest: seq<Token>) returns (z: Yard)
    requires IsProper(c) && ReadsArithmetic(y) && Holds(y.operators, Precedence(c))
    ensures ReadsArithmetic(z) && z.operators == y.operators + Waiting(c)
    ensures Stripped(z.output) == Stripped(y.output) + Emitted(c)
    ensures YardRun(y, TokensOf(c) + rest) == YardRun(z, rest)
    decreases c
  {
    hide YardRun, Reverse, Stripped, Postorder, OperatorPrecedence, IsArithmeticQueue, TokensOf, SpaceTokens, IsSum;
    TokensRegrouped(c, rest);
    GrammarIsPrecedence(c);
    match c
    case Literal(space, text) =>
      var z1 := YardTakesSpace(y, space, [Plain(Number, text)] + rest);
      z := YardReadsLiteral(text, z1, rest);
      assert y.operators + [] == y.operators;
    case Parens(open, inner, close) =>
      var r4 := [Plain(Parenthesis, ")")] + rest;
      var r3 := SpaceTokens(close) + r4;
      var r2 := TokensOf(inner) + r3;
      var z1 := YardTakesSpace(y, open, [Plain(Parenthesis, "(")] + r2);
      var z2 := YardOpens(z1, r2);
      var z3 := YardReads(inner, z2, r3);
      var z4 := YardTakesSpace(z3, close, r4);
      z := YardCloses(inner, y.operators, z4, rest);
      WaitingCompletes(inner);
      assert y.operators + [] == y.operators;
    case Binary(left, space, op, right) =>
      var r3 := TokensOf(right) + rest;
      var r2 := [Plain(Operator, op)] + r3;
      var z1 := YardReads(left, y, SpaceTokens(space) + r2);
      var z2 := YardTakesSpace(z1, space, r2);
      var z3 := YardReadsOperator(left, op, y.operators, z2, r3);
      z := YardReads(right, z3, rest);
      WaitingCompletes(left);
  }

  lemma {:induction false} DrainsTheWaiting(waiting: seq<Token>, output: seq<Token>)
    requires PlainOperators(waiting)
    ensures Drain(waiting, output) == Success(output + Reverse(waiting))
    decreases |waiting|
  {
    if waiting == [] {
      MovesNothing([], output);
    } else {
      MovesTop([], waiting, output);
      DrainsTheWaiting(Pop(waiting), output + [Top(waiting)]);
    }
  }

  /** The tokens of a whole source text: the expression, whitespace after it, and the end. */
  function SourceTokens(c: Infix, trailing: string): seq<Token> {
    TokensOf(c) + SpaceTokens(trailing) + [Plain(End, "")]
  }

  lemma RpnIsPostorder(c: Infix, trailing: string) returns (queue: seq<Token>)
    requires IsProper(c)
    ensures RpnOf(SourceTokens(c, trailing)) == Success(queue)
    ensures IsArithmeticQueue(queue) && Stripped(queue) == Postorder(TreeOf(c))
  {
    hide Waiting, Reverse, Stripped, OperatorPrecedence, TokensOf, SpaceTokens, YardRun, Emitted, Postorder;
    var end := [Plain(End, "")];
    StrippedEmpty();
    var z := YardReads(c, EMPTY_YARD, SpaceTokens(trailing) + end);
    var y := YardTakesSpace(z, trailing, end);
    YardEnds(y);
    assert SourceTokens(c, trailing) == TokensOf(c) + (SpaceTokens(trailing) + end);
    assert y.operators == Waiting(c);
    WaitingIsPlain(c);
    WaitingCompletes(c);
    DrainsTheWaiting(Waiting(c), y.output);
    queue := y.output + Reverse(Waiting(c));
    ReverseOfPlain(Waiting(c));
    StrippedAppend(y.output, Reverse(Waiting(c)));
  }

  lemma YardEnds(y: Yard)
    requires Consistent(y)
    ensures YardRun(y, [Plain(End, "")]) == Success(y)
  {
  }

  lemma StrippedEmpty()
    ensures Stripped([]) == []
  {
  }

  /** The parser undoes the printer: however a tree of numbers and operators is written down,
      with whatever parentheses beyond the needed ones and whatever whitespace, the parser
      gives back that tree. */
  lemma ParserUndoesPrinter(c: Infix, trailing: string)
    requires IsProper(c)
    ensures BuildOf(SourceTokens(c, trailing)) == Success(TreeOf(c))
  {
    var queue := RpnIsPostorder(c, trailing);
    PostorderBuildsBack(TreeOf(c), queue);
    assert SourceTokens(c, trailing) != [];
  }
}
