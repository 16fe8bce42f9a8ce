/** The shunting-yard algorithm and the tree builder: the loops, and the functions they compute. */
module AstBuilding {
  import opened Tokens

  datatype NodeType = FunctionNode | VariableNode | OperatorNode | NumberNode

  datatype AstNode = AstNode(kind: NodeType, value: string, children: seq<AstNode>)

  function OperatorPrecedence(op: string): int {
    if op == "+" || op == "-" then 1
    else if op == "*" || op == "/" then 2
    else if op == "%" then 2
    else -1
  }

  // Infix to reverse Polish notation

  /** The state of the shunting yard; the tops of the stacks are at the end. */
  datatype Yard = Yard(output: seq<Token>, operators: seq<Token>, argCounts: seq<nat>, whitespace: string)

  const EMPTY_YARD: Yard := Yard([], [], [], "")

  /** A function whose arguments are being counted was put in the output. */
  predicate Consistent(y: Yard) {
    y.argCounts != [] ==> y.output != []
  }

  function Top<T>(s: seq<T>): T
    requires s != []
  {
    s[|s| - 1]
  }

  function Pop<T>(s: seq<T>): seq<T>
    requires s != []
  {
    s[..|s| - 1]
  }

  predicate YieldsTo(top: Token, precedence: int) {
    top.kind == Operator && OperatorPrecedence(top.value) >= precedence
  }

  /** Moves operators from the stack to the output while they bind at least as tightly as
      `precedence`. */
  function PopOperators(y: Yard, precedence: int): (r: Yard)
    ensures Consistent(y) ==> Consistent(r)
    decreases |y.operators|
  {
    if y.operators != [] && YieldsTo(Top(y.operators), precedence) then
      PopOperators(y.(operators := Pop(y.operators), output := y.output + [Top(y.operators)]), precedence)
    else y
  }

  /** Moves operators from the stack to the output until an opening parenthesis is on top. */
  function PopToParenthesis(y: Yard): (r: Yard)
    ensures Consistent(y) ==> Consistent(r)
    decreases |y.operators|
  {
    if y.operators != [] && Top(y.operators).value != "(" then
      PopToParenthesis(y.(operators := Pop(y.operators), output := y.output + [Top(y.operators)]))
    else y
  }

  /** Closing a parenthesis while arguments are being counted rotates the output: the token at
      its front becomes the function. */
  function CloseFunction(y: Yard): (r: Yard)
    requires Consistent(y)
    ensures Consistent(r)
  {
    if y.argCounts == [] then y
    else
      var count := if Top(y.argCounts) == 0 then 1 else Top(y.argCounts);
      y.(output := y.output[1..] + [y.output[0].(arity := count)], argCounts := Pop(y.argCounts))
  }

  function YardStep(y: Yard, token: Token): (r: Result<Yard>)
    requires Consistent(y) && token.kind != End
    ensures r.Success? ==> Consistent(r.value)
  {
    if token.kind == Number || token.kind == Name then
      Success(y.(output := y.output + [token.(whitespace := y.whitespace)], whitespace := ""))
    else if token.kind == Operator then
      if OperatorPrecedence(token.value) == -1 then Failure(InvalidOperator(token.value))
      else
        var popped := PopOperators(y, OperatorPrecedence(token.value));
        Success(popped.(operators := popped.operators + [token]))
    else if token.kind == Parenthesis && token.value == "(" then
      var counts := if y.output != [] && Top(y.output).kind == Name then y.argCounts + [0] else y.argCounts;
      Success(y.(operators := y.operators + [token], argCounts := counts))
    else if token.kind == Parenthesis && token.value == ")" then
      var popped := PopToParenthesis(y);
      if popped.operators == [] then Failure(MismatchedParentheses)
      else Success(CloseFunction(popped.(operators := Pop(popped.operators))))
    else if token.kind == Delimiter then
      if y.argCounts == [] then Failure(UnexpectedDelimiter)
      else Success(y.(argCounts := Pop(y.argCounts) + [Top(y.argCounts) + 1]))
    else if token.kind == Whitespace then
      Success(y.(whitespace := y.whitespace + token.value))
    else Failure(InvalidToken(token.value))
  }

  function YardRun(y: Yard, tokens: seq<Token>): (r: Result<Yard>)
    requires Consistent(y)
    decreases |tokens|
  {
    if tokens == [] || tokens[0].kind == End then Success(y)
    else
      match YardStep(y, tokens[0])
      case Failure(error) => Failure(error)
      case Success(next) => YardRun(next, tokens[1..])
  }

  function Drain(operators: seq<Token>, output: seq<Token>): Result<seq<Token>>
    decreases |operators|
  {
    if operators == [] then Success(output)
    else if Top(operators).kind == Parenthesis then Failure(MismatchedParentheses)
    else Drain(Pop(operators), output + [Top(operators)])
  }

  function RpnOf(tokens: seq<Token>): Result<seq<Token>> {
    match YardRun(EMPTY_YARD, tokens)
    case Failure(error) => Failure(error)
    case Success(y) => Drain(y.operators, y.output)
  }

  method Rpn(tokens: seq<Token>) returns (response: Result<seq<Token>>)
    ensures response == RpnOf(tokens)
  {
    var y := EMPTY_YARD;
    var i := 0;
    while i < |tokens|
      invariant 0 <= i <= |tokens| && Consistent(y)
      invariant YardRun(EMPTY_YARD, tokens) == YardRun(y, tokens[i..])
    {
      var token := tokens[i];
      assert tokens[i..][1..] == tokens[i + 1..];
      ghost var before := y;
      hide PopOperators, PopToParenthesis, OperatorPrecedence;
      if token.kind == Number || token.kind == Name {
        y := y.(output := y.output + [token.(whitespace := y.whitespace)], whitespace := "");
      } else if token.kind == Operator {
        if OperatorPrecedence(token.value) == -1 {
          return Failure(InvalidOperator(token.value));
        }
        y := PopBinding(y, OperatorPrecedence(token.value));
        y := y.(operators := y.operators + [token]);
      } else if token.kind == Parenthesis && token.value == "(" {
        y := y.(operators := y.operators + [token]);
        if y.output != [] && Top(y.output).kind == Name {
          y := y.(argCounts := y.argCounts + [0]);
        }
      } else if token.kind == Parenthesis && token.value == ")" {
        y := PopInner(y);
        if y.operators == [] {
          return Failure(MismatchedParentheses);
        }
        y := y.(operators := Pop(y.operators));
        if y.argCounts != [] {
          var count := Top(y.argCounts);
          if count == 0 {
            count := 1;
          }
          var functionToken := y.output[0].(arity := count);
          y := y.(argCounts := Pop(y.argCounts), output := y.output[1..] + [functionToken]);
        }
      } else if token.kind == Delimiter {
        if y.argCounts == [] {
          return Failure(UnexpectedDelimiter);
        }
        y := y.(argCounts := Pop(y.argCounts) + [Top(y.argCounts) + 1]);
      } else if token.kind == Whitespace {
        y := y.(whitespace := y.whitespace + token.value);
      } else if token.kind == End {
        break;
      } else {
        return Failure(InvalidToken(token.value));
      }
      assert YardStep(before, token) == Success(y);
      i := i + 1;
    }
    while y.operators != []
      invariant RpnOf(tokens) == Drain(y.operators, y.output)
      decreases |y.operators|
    {
      var top := Top(y.operators);
      y := y.(operators := Pop(y.operators));
      if top.kind == Parenthesis {
        return Failure(MismatchedParentheses);
      }
      y := y.(output := y.output + [top]);
    }
    return Success(y.output);
  }

  /** The loop that pops the operators a new one yields to. */
  method PopBinding(y: Yard, precedence: int) returns (r: Yard)
    ensures r == PopOperators(y, precedence)
  {
    r := y;
    while r.operators != []
      invariant PopOperators(r, precedence) == PopOperators(y, precedence)
      decreases |r.operators|
    {
      var top := Top(r.operators);
      if top.kind == Operator &&
         (OperatorPrecedence(top.value) > precedence || OperatorPrecedence(top.value) == precedence) {
        r := r.(operators := Pop(r.operators), output := r.output + [top]);
      } else {
        break;
      }
    }
  }

  /** The loop that pops everything above the innermost opening parenthesis. */
  method PopInner(y: Yard) returns (r: Yard)
    ensures r == PopToParenthesis(y)
    ensures r.operators != [] ==> Top(r.operators).value == "("
  {
    r := y;
    while r.operators != [] && Top(r.operators).value != "("
      invariant PopToParenthesis(r) == PopToParenthesis(y)
      decreases |r.operators|
    {
      r := r.(operators := Pop(r.operators), output := r.output + [Top(r.operators)]);
    }
  }

  // Reverse Polish notation to a tree

  function AstStep(stack: seq<AstNode>, token: Token): Result<seq<AstNode>> {
    if token.kind == Number then
      Success(stack + [AstNode(NumberNode, token.value, [])])
    else if token.kind == Name && token.arity > 0 then
      if |stack| < token.arity then Failure(InsufficientOperands(token.value))
      else
        var k := |stack| - token.arity;
        Success(stack[..k] + [AstNode(FunctionNode, token.value, stack[k..])])
    else if token.kind == Operator then
      if |stack| < 2 then Failure(InsufficientOperands(token.value))
      else
        var k := |stack| - 2;
        Success(stack[..k] + [AstNode(OperatorNode, token.value, stack[k..])])
    else Failure(InvalidToken(token.value))
  }

  function AstRun(stack: seq<AstNode>, queue: seq<Token>): Result<seq<AstNode>>
    decreases |queue|
  {
    if queue == [] then Success(stack)
    else
      match AstStep(stack, queue[0])
      case Failure(error) => Failure(error)
      case Success(next) => AstRun(next, queue[1..])
  }

  function AstOf(queue: seq<Token>): Result<AstNode> {
    match AstRun([], queue)
    case Failure(error) => Failure(error)
    case Success(stack) => if |stack| != 1 then Failure(InvalidRpn) else Success(stack[0])
  }

  method Ast(rpnQueue: seq<Token>) returns (response: Result<AstNode>)
    ensures response == AstOf(rpnQueue)
  {
    var stack: seq<AstNode> := [];
    for i := 0 to |rpnQueue|
      invariant AstRun([], rpnQueue) == AstRun(stack, rpnQueue[i..])
    {
      var token := rpnQueue[i];
      assert rpnQueue[i..][1..] == rpnQueue[i + 1..];
      ghost var before := stack;
      if token.kind == Number {
        stack := stack + [AstNode(NumberNode, token.value, [])];
      } else if token.kind == Name && token.arity > 0 {
        if |stack| < token.arity {
          return Failure(InsufficientOperands(token.value));
        }
        var children: seq<AstNode>;
        stack, children := PopChildren(stack, token.arity);
        stack := stack + [AstNode(FunctionNode, token.value, children)];
      } else if token.kind == Operator {
        if |stack| < 2 {
          return Failure(InsufficientOperands(token.value));
        }
        var right := Top(stack);
        stack := Pop(stack);
        var left := Top(stack);
        stack := Pop(stack);
        assert before[|before| - 2..] == [left, right] && before[..|before| - 2] == stack;
        stack := stack + [AstNode(OperatorNode, token.value, [left, right])];
      } else {
        return Failure(InvalidToken(token.value));
      }
      assert AstStep(before, token) == Success(stack);
      hide AstStep;
    }
    if |stack| != 1 {
      return Failure(InvalidRpn);
    }
    return Success(Top(stack));
  }

  method PopChildren(stack: seq<AstNode>, arity: nat) returns (left: seq<AstNode>, children: seq<AstNode>)
    requires arity <= |stack|
    ensures left == stack[..|stack| - arity] && children == stack[|stack| - arity..]
  {
    left, children := stack, [];
    for i := 0 to arity
      invariant left == stack[..|stack| - i] && children == stack[|stack| - i..]
    {
      children := [Top(left)] + children;
      left := Pop(left);
    }
  }

  function BuildOf(tokens: seq<Token>): Result<AstNode> {
    if tokens == [] then Failure(EmptyTokenStream)
    else
      match RpnOf(tokens)
      case Failure(error) => Failure(error)
      case Success(queue) => AstOf(queue)
  }

  method Build(tokens: seq<Token>) returns (response: Result<AstNode>)
    ensures response == BuildOf(tokens)
  {
    if tokens == [] {
      return Failure(EmptyTokenStream);
    }
    var rpn := Rpn(tokens);
    if rpn.Failure? {
      return Failure(rpn.error);
    }
    response := Ast(rpn.value);
  }
}
