/** Evaluation of expression trees over the real numbers. */
module Evaluating {
  import opened Tokens
  import opened AstBuilding

  datatype Context = Context(variables: map<string, real>, functions: map<string, seq<real> -> real>)

  predicate IsDigitChar(c: char) {
    '0' <= c <= '9'
  }

  predicate AllDigits(s: string) {
    forall i :: 0 <= i < |s| ==> IsDigitChar(s[i])
  }

  /** The value of the digits `s` before a decimal point. */
  function Whole(s: string): real {
    if s == "" then 0.0 else Whole(s[..|s| - 1]) * 10.0 + Digit(s[|s| - 1])
  }

  /** The value of the digits `s` after a decimal point. */
  function Fraction(s: string): real {
    if s == "" then 0.0 else (Digit(s[0]) + Fraction(s[1..])) / 10.0
  }

  function Digit(c: char): real {
    if IsDigitChar(c) then (c as int - '0' as int) as real else 0.0
  }

  /** Index of the decimal point, or the length if there is none. */
  function PointIndex(s: string): (k: nat)
    ensures k <= |s|
  {
    if s == "" || s[0] == '.' then 0 else 1 + PointIndex(s[1..])
  }

  /** The number a numeral stands for; text that is no numeral stands for zero. */
  function NumberValue(s: string): real {
    var k := PointIndex(s);
    var fraction := if k < |s| then s[k + 1..] else "";
    if AllDigits(s[..k]) && AllDigits(fraction) then Whole(s[..k]) + Fraction(fraction) else 0.0
  }

  // What a numeral stands for, digit by digit

  ghost function Tens(n: nat): int {
    if n == 0 then 1 else 10 * Tens(n - 1)
  }

  /** The integer that the digits spell: each digit times the power of ten of its place. */
  ghost function Spelled(s: string): int {
    if s == "" then 0 else (s[0] as int - '0' as int) * Tens(|s| - 1) + Spelled(s[1..])
  }

  lemma Distribute(d: int, p: int, rest: int, q: int)
    ensures (d * p + rest) * q == d * (p * q) + rest * q
  {
  }

  lemma SpelledFirst(s: string)
    requires s != ""
    ensures Spelled(s) == (s[0] as int - '0' as int) * Tens(|s| - 1) + Spelled(s[1..])
  {
  }

  lemma {:induction false} SpelledAppend(s: string, t: string)
    ensures Spelled(s + t) == Spelled(s) * Tens(|t|) + Spelled(t)
  {
    if s == "" {
      assert s + t == t;
    } else {
      assert (s + t)[0] == s[0] && (s + t)[1..] == s[1..] + t;
      SpelledAppend(s[1..], t);
      TensMultiply(|s| - 1, |t|);
      Distribute(s[0] as int - '0' as int, Tens(|s| - 1), Spelled(s[1..]), Tens(|t|));
      SpelledFirst(s);
      SpelledFirst(s + t);
      hide Spelled, Tens;
    }
  }

  lemma {:induction false} TensMultiply(m: nat, n: nat)
    ensures Tens(m + n) == Tens(m) * Tens(n) > 0
  {
    if m > 0 {
      TensMultiply(m - 1, n);
      assert 10 * (Tens(m - 1) * Tens(n)) == 10 * Tens(m - 1) * Tens(n);
    } else if n > 0 {
      TensMultiply(0, n - 1);
    }
  }

  lemma {:induction false} WholeIsSpelled(s: string)
    requires AllDigits(s)
    ensures Whole(s) == Spelled(s) as real
  {
    if s != "" {
      var n := |s| - 1;
      WholeIsSpelled(s[..n]);
      assert s == s[..n] + [s[n]];
      SpelledAppend(s[..n], [s[n]]);
      assert Spelled([s[n]]) == s[n] as int - '0' as int && Tens(1) == 10;
    }
  }

  lemma {:induction false} FractionIsSpelled(s: string)
    requires AllDigits(s)
    ensures Fraction(s) * Tens(|s|) as real == Spelled(s) as real
  {
    if s != "" {
      FractionIsSpelled(s[1..]);
      var d, f, p := Digit(s[0]), Fraction(s[1..]), Tens(|s| - 1) as real;
      assert Tens(|s|) as real == 10.0 * p;
      assert (d + f) / 10.0 * (10.0 * p) == d * p + f * p;
    }
  }

  lemma Shared(w: real, x: int, f: real, p: int, y: int, total: int)
    requires w == x as real && f * p as real == y as real && total == x * p + y
    ensures (w + f) * p as real == total as real
  {
    assert (w + f) * p as real == w * p as real + f * p as real;
    assert x as real * p as real == (x * p) as real;
  }

  lemma PartsByPlace(whole: string, fraction: string)
    requires AllDigits(whole) && AllDigits(fraction)
    ensures (Whole(whole) + Fraction(fraction)) * Tens(|fraction|) as real == Spelled(whole + fraction) as real
  {
    hide Whole, Fraction, Spelled, Tens, AllDigits;
    WholeIsSpelled(whole);
    FractionIsSpelled(fraction);
    SpelledAppend(whole, fraction);
    Shared(Whole(whole), Spelled(whole), Fraction(fraction), Tens(|fraction|), Spelled(fraction),
           Spelled(whole + fraction));
  }

  /** A numeral with n digits after the point stands for the integer that its digits spell without
      the point, divided by the n-th power of ten; other text stands for zero. */
  lemma NumeralByPlace(s: string)
    ensures var k := PointIndex(s);
            var fraction := if k < |s| then s[k + 1..] else "";
            if AllDigits(s[..k]) && AllDigits(fraction)
            then NumberValue(s) * Tens(|fraction|) as real == Spelled(s[..k] + fraction) as real
            else NumberValue(s) == 0.0
  {
    hide Whole, Fraction, Spelled, Tens, AllDigits, PointIndex;
    var k := PointIndex(s);
    var fraction := if k < |s| then s[k + 1..] else "";
    if AllDigits(s[..k]) && AllDigits(fraction) {
      PartsByPlace(s[..k], fraction);
    }
  }

  function Truncated(x: real): int {
    if x >= 0.0 then x.Floor else -((-x).Floor)
  }

  /** The remainder of division rounded toward zero. */
  function Fmod(a: real, b: real): real
    requires b != 0.0
  {
    a - Truncated(a / b) as real * b
  }

  lemma ScaledFraction(f: real, b: real, p: real)
    requires -1.0 < f < 1.0 && p == f * b
    ensures f >= 0.0 && b > 0.0 ==> 0.0 <= p < b
    ensures f >= 0.0 && b < 0.0 ==> b < p <= 0.0
    ensures f <= 0.0 && b > 0.0 ==> -b < p <= 0.0
    ensures f <= 0.0 && b < 0.0 ==> 0.0 <= p < -b
  {
    assert p - b == (f - 1.0) * b;
    assert p + b == (f + 1.0) * b;
    ProductSign(f, b, p);
    ProductSign(f - 1.0, b, p - b);
    ProductSign(f + 1.0, b, p + b);
  }

  lemma ProductSign(x: real, y: real, p: real)
    requires p == x * y
    ensures (x >= 0.0 && y >= 0.0) || (x <= 0.0 && y <= 0.0) ==> p >= 0.0
    ensures (x >= 0.0 && y <= 0.0) || (x <= 0.0 && y >= 0.0) ==> p <= 0.0
    ensures p == 0.0 ==> x == 0.0 || y == 0.0
  {
  }

  lemma QuotientSign(a: real, b: real)
    requires b != 0.0
    ensures a == a / b * b
    ensures a / b >= 0.0 <==> (b > 0.0 && a >= 0.0) || (b < 0.0 && a <= 0.0)
  {
  }

  lemma TruncationIsNear(x: real)
    ensures x >= 0.0 ==> 0.0 <= x - Truncated(x) as real < 1.0
    ensures x <= 0.0 ==> -1.0 < x - Truncated(x) as real <= 0.0
  {
  }

  lemma FmodScales(a: real, b: real, f: real)
    requires b != 0.0 && f == a / b - Truncated(a / b) as real
    ensures Fmod(a, b) == f * b
  {
    hide Truncated;
    var x, t := a / b, Truncated(a / b) as real;
    assert (x - t) * b == x * b - t * b;
  }

  /** The remainder differs from the dividend by a multiple of the divisor, has the sign of the
      dividend and is smaller in size than the divisor. */
  lemma FmodIsRemainder(a: real, b: real) returns (multiple: int)
    requires b != 0.0
    ensures a == multiple as real * b + Fmod(a, b)
    ensures a >= 0.0 ==> Fmod(a, b) >= 0.0
    ensures a <= 0.0 ==> Fmod(a, b) <= 0.0
    ensures b > 0.0 ==> -b < Fmod(a, b) < b
    ensures b < 0.0 ==> b < Fmod(a, b) < -b
  {
    multiple := Truncated(a / b);
    hide Fmod, Truncated;
    QuotientSign(a, b);
    TruncationIsNear(a / b);
    var f := a / b - Truncated(a / b) as real;
    FmodScales(a, b, f);
    ScaledFraction(f, b, Fmod(a, b));
  }

  function ApplyOperator(op: string, left: real, right: real): Result<real> {
    if op == "+" then Success(left + right)
    else if op == "-" then Success(left - right)
    else if op == "*" then Success(left * right)
    else if op == "/" then if right != 0.0 then Success(left / right) else Failure(DivisionByZero)
    else if op == "%" then if right != 0.0 then Success(Fmod(left, right)) else Failure(ModuloByZero)
    else Failure(UnsupportedOperator(op))
  }

  function Evaluate(node: AstNode, context: Context): Result<real>
    decreases node, 1
  {
    match node.kind
    case NumberNode => Success(NumberValue(node.value))
    case OperatorNode =>
      if |node.children| != 2 then Failure(MalformedOperator)
      else
        (match Evaluate(node.children[0], context)
         case Failure(error) => Failure(error)
         case Success(left) =>
           match Evaluate(node.children[1], context)
           case Failure(error) => Failure(error)
           case Success(right) => ApplyOperator(node.value, left, right))
    case VariableNode =>
      if node.value in context.variables then Success(context.variables[node.value])
      else Failure(VariableNotFound(node.value))
    case FunctionNode =>
      if node.value !in context.functions then Failure(FunctionNotFound(node.value))
      else
        match EvaluateAll(node, |node.children|, context)
        case Failure(error) => Failure(error)
        case Success(args) => Success(context.functions[node.value](args))
  }

  /** The values of the first `n` children, or the first failure among them. */
  function EvaluateAll(node: AstNode, n: nat, context: Context): Result<seq<real>>
    requires n <= |node.children|
    decreases node, 0, n
  {
    if n == 0 then Success([])
    else
      match EvaluateAll(node, n - 1, context)
      case Failure(error) => Failure(error)
      case Success(args) =>
        match Evaluate(node.children[n - 1], context)
        case Failure(error) => Failure(error)
        case Success(value) => Success(args + [value])
  }

  lemma {:induction false} FirstFailureStays(node: AstNode, i: nat, n: nat, context: Context)
    requires i <= n <= |node.children| && EvaluateAll(node, i, context).Failure?
    ensures EvaluateAll(node, n, context) == EvaluateAll(node, i, context)
    decreases n
  {
    if i < n {
      FirstFailureStays(node, i, n - 1, context);
    }
  }

  /** The arguments of a function are the values of its children, one by one and in their order; when
      some have none, the first of them decides the error. */
  lemma {:induction false} ArgumentsInOrder(node: AstNode, n: nat, context: Context) returns (first: nat)
    requires n <= |node.children|
    ensures first <= n && forall i :: 0 <= i < first ==> Evaluate(node.children[i], context).Success?
    ensures first < n ==>
      Evaluate(node.children[first], context).Failure? &&
      EvaluateAll(node, n, context) == Failure(Evaluate(node.children[first], context).error)
    ensures first == n ==>
      && EvaluateAll(node, n, context).Success? && |EvaluateAll(node, n, context).value| == n
      && forall i :: 0 <= i < n ==>
           EvaluateAll(node, n, context).value[i] == Evaluate(node.children[i], context).value
  {
    hide Evaluate;
    first := n;
    if n > 0 {
      first := ArgumentsInOrder(node, n - 1, context);
      if first == n - 1 && Evaluate(node.children[n - 1], context).Success? {
        first := n;
      }
    }
  }

  lemma ProductIsApplied(left: real, right: real)
    ensures ApplyOperator("*", left, right) == Success(left * right)
  {
    hide Fmod;
    assert ApplyOperator("*", left, right).Success? && ApplyOperator("*", left, right).value == left * right;
  }

  method Combine(op: string, left: real, right: real) returns (response: Result<real>)
    ensures response == ApplyOperator(op, left, right)
  {
    hide Fmod;
    if op == "+" {
      return Success(left + right);
    }
    if op == "-" {
      return Success(left - right);
    }
    if op == "*" {
      ProductIsApplied(left, right);
      return Success(left * right);
    }
    if op == "/" {
      return if right != 0.0 then Success(left / right) else Failure(DivisionByZero);
    }
    if op == "%" {
      return if right != 0.0 then Success(Fmod(left, right)) else Failure(ModuloByZero);
    }
    return Failure(UnsupportedOperator(op));
  }

  /** Evaluates a node: the operands of an operator from left to right, the arguments of a function
      in order, and nothing after the first failure. */
  method EvaluateNode(node: AstNode, context: Context) returns (response: Result<real>)
    ensures response == Evaluate(node, context)
    decreases node
  {
    hide ApplyOperator, NumberValue;
    match node.kind {
      case NumberNode =>
        return Success(NumberValue(node.value));
      case OperatorNode =>
        if |node.children| != 2 {
          return Failure(MalformedOperator);
        }
        var left := EvaluateNode(node.children[0], context);
        if left.Failure? {
          return left;
        }
        var right := EvaluateNode(node.children[1], context);
        if right.Failure? {
          return right;
        }
        response := Combine(node.value, left.value, right.value);
      case VariableNode =>
        if node.value !in context.variables {
          return Failure(VariableNotFound(node.value));
        }
        return Success(context.variables[node.value]);
      case FunctionNode =>
        if node.value !in context.functions {
          return Failure(FunctionNotFound(node.value));
        }
        var args: seq<real> := [];
        for i := 0 to |node.children|
          invariant EvaluateAll(node, i, context) == Success(args)
        {
          var arg := EvaluateNode(node.children[i], context);
          if arg.Failure? {
            FirstFailureStays(node, i + 1, |node.children|, context);
            return arg;
          }
          args := args + [arg.value];
        }
        return Success(context.functions[node.value](args));
    }
  }

  datatype Root = NoRoot | Root(node: AstNode)

  class CompiledExpression {
    var original: string
    var root: Root

    constructor ()
      ensures original == "" && root == NoRoot
    {
      original, root := "", NoRoot;
    }

    method Compile(original: string, root: Root) returns (response: Result<()>)
      modifies this
      ensures root.NoRoot? ==> response == Failure(NullRoot) && unchanged(this)
      ensures root.Root? ==> response == Success(()) && this.original == original && this.root == root
    {
      if root.NoRoot? {
        return Failure(NullRoot);
      }
      this.original := original;
      this.root := root;
      return Success(());
    }

    method Execute(context: Context) returns (response: Result<real>)
      ensures response == if root.NoRoot? then Failure(EmptyTree) else Evaluate(root.node, context)
    {
      if root.NoRoot? {
        return Failure(EmptyTree);
      }
      response := EvaluateNode(root.node, context);
    }
  }
}
