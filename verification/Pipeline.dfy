/** The whole pipeline, from source text to value. */
module Pipelines {
  import opened Tokens
  import opened Tokenizing
  import opened AstBuilding
  import opened Evaluating
  import opened Printing

  function EvalOf(cc: CharClasses, context: Context, expression: string): Result<real> {
    match Lex(cc, expression, 0, 0)
    case Failure(error) => Failure(error)
    case Success(tokens) =>
      match BuildOf(tokens)
      case Failure(error) => Failure(error)
      case Success(node) => Evaluate(node, context)
  }

  method Compile(cc: CharClasses, expression: string) returns (response: Result<CompiledExpression>)
    ensures match Lex(cc, expression, 0, 0)
            case Failure(error) => response == Failure(error)
            case Success(tokens) =>
              match BuildOf(tokens)
              case Failure(error) => response == Failure(error)
              case Success(node) =>
                response.Success? && response.value.original == expression && response.value.root == Root(node)
  {
    hide Lex, BuildOf;
    var tokens := Tokenize(cc, expression);
    if tokens.Failure? {
      return Failure(tokens.error);
    }
    var ast := Build(tokens.value);
    if ast.Failure? {
      return Failure(ast.error);
    }
    var compiled := new CompiledExpression();
    var compiledResponse := compiled.Compile(expression, Root(ast.value));
    match compiledResponse
    case Failure(error) => return Failure(error);
    case Success(_) => return Success(compiled);
  }

  method Eval(cc: CharClasses, context: Context, expression: string) returns (response: Result<real>)
    ensures response == EvalOf(cc, context, expression)
  {
    hide Lex, BuildOf, Evaluate;
    var compiled := Compile(cc, expression);
    if compiled.Failure? {
      return Failure(compiled.error);
    }
    response := compiled.value.Execute(context);
  }

  // Source text

  /** Digits, spaces and operators are told apart as in ASCII. */
  ghost predicate AgreesWithAscii(cc: CharClasses) {
    && (forall c :: IsDigitChar(c) ==> cc.isDigit(c))
    && (forall c :: cc.isSpace(c) ==> !cc.isDigit(c))
    && (forall c :: c in "+-*/%()." ==> !cc.isSpace(c) && !cc.isDigit(c))
  }

  /** Digits with at most one decimal point, and at least one digit. */
  ghost predicate IsNumeral(text: string) {
    var k := PointIndex(text);
    && |text| > (if k < |text| then 1 else 0)
    && AllDigits(text[..k]) && (k < |text| ==> AllDigits(text[k + 1..]))
  }

  ghost predicate IsSpace(cc: CharClasses, s: string) {
    forall i :: 0 <= i < |s| ==> cc.isSpace(s[i])
  }

  /** The notation can be written as text: its literals are numerals and its spaces are spaces. */
  ghost predicate IsWritable(cc: CharClasses, c: Infix) {
    match c
    case Literal(space, text) => IsSpace(cc, space) && IsNumeral(text)
    case Parens(open, inner, close) => IsSpace(cc, open) && IsSpace(cc, close) && IsWritable(cc, inner)
    case Binary(left, space, _, right) => IsSpace(cc, space) && IsWritable(cc, left) && IsWritable(cc, right)
  }

  function TextOf(c: Infix): string {
    match c
    case Literal(space, text) => space + text
    case Parens(open, inner, close) => open + "(" + TextOf(inner) + close + ")"
    case Binary(left, space, op, right) => TextOf(left) + space + op + TextOf(right)
  }

  function SourceText(c: Infix, trailing: string): string {
    TextOf(c) + trailing
  }

  // Tokenizing source text

  /** `rest` cannot go on with a number that ends before it. */
  ghost predicate EndsNumber(cc: CharClasses, rest: string) {
    rest != "" ==> !cc.isDigit(rest[0]) && rest[0] != '.'
  }

  lemma {:induction false} NumberLengthOf(cc: CharClasses, digits: string, rest: string, seenDot: bool)
    requires AgreesWithAscii(cc) && AllDigits(digits)
    ensures NumberLength(cc, digits + rest, seenDot) == |digits| + NumberLength(cc, rest, seenDot)
  {
    if digits == "" {
      assert digits + rest == rest;
    } else {
      assert (digits + rest)[0] == digits[0] && (digits + rest)[1..] == digits[1..] + rest;
      assert IsDigitChar(digits[0]);
      assert '.' in "+-*/%().";
      NumberLengthOf(cc, digits[1..], rest, seenDot);
    }
  }

  lemma SignIsNoDigit(cc: CharClasses, c: char)
    requires AgreesWithAscii(cc) && c in "+-*/%()."
    ensures !cc.isSpace(c) && !cc.isDigit(c)
  {
  }

  lemma DigitIsNoSpace(cc: CharClasses, c: char)
    requires AgreesWithAscii(cc) && IsDigitChar(c)
    ensures cc.isDigit(c) && !cc.isSpace(c)
  {
  }

  lemma PointedNumberLength(cc: CharClasses, whole: string, fraction: string, rest: string)
    requires AgreesWithAscii(cc) && AllDigits(whole) && AllDigits(fraction) && EndsNumber(cc, rest)
    ensures NumberLength(cc, whole + (['.'] + (fraction + rest)), false) == |whole| + 1 + |fraction|
  {
    hide AgreesWithAscii, AllDigits;
    var tail := ['.'] + (fraction + rest);
    NumberLengthOf(cc, whole, tail, false);
    assert tail[1..] == fraction + rest;
    NumberLengthOf(cc, fraction, rest, true);
  }

  lemma SplitAtPoint(text: string, k: nat, rest: string)
    requires k < |text| && text[k] == '.'
    ensures text + rest == text[..k] + (['.'] + (text[k + 1..] + rest))
  {
    assert text == text[..k] + [text[k]] + text[k + 1..];
  }

  lemma NumeralIsScanned(cc: CharClasses, text: string, rest: string)
    requires AgreesWithAscii(cc) && IsNumeral(text) && EndsNumber(cc, rest)
    ensures StartsNumber(cc, text + rest) && NumberLength(cc, text + rest, false) == |text|
    ensures !cc.isSpace((text + rest)[0])
  {
    hide AgreesWithAscii, NumberLength;
    var k := PointIndex(text);
    SignIsNoDigit(cc, '.');
    assert text != "" && (text + rest)[0] == text[0];
    if k > 0 {
      assert text[..k][0] == text[0];
      DigitIsNoSpace(cc, text[0]);
    }
    if k == |text| {
      assert text[..k] == text;
      NumberLengthOf(cc, text, rest, false);
      NumberStops(cc, rest);
    } else {
      PointIsThere(text);
      var fraction := text[k + 1..];
      SplitAtPoint(text, k, rest);
      PointedNumberLength(cc, text[..k], fraction, rest);
      if k == 0 {
        assert (text + rest)[1] == fraction[0];
        DigitIsNoSpace(cc, fraction[0]);
      }
    }
  }

  lemma NumberStops(cc: CharClasses, rest: string)
    requires EndsNumber(cc, rest)
    ensures NumberLength(cc, rest, false) == 0
  {
  }

  lemma {:induction false} PointIsThere(s: string)
    ensures PointIndex(s) < |s| ==> s[PointIndex(s)] == '.'
  {
    if s != "" && s[0] != '.' {
      PointIsThere(s[1..]);
    }
  }

  lemma ContinuedTwice(a: seq<Token>, b: seq<Token>, r: Result<seq<Token>>)
    ensures Continued(a, Continued(b, r)) == Continued(a + b, r)
  {
    if r.Success? {
      assert a + (b + r.value) == a + b + r.value;
    }
  }

  lemma LexTakes(cc: CharClasses, s: string, at: nat, balance: nat, n: nat, rest: string)
    requires s != "" && Scan(cc, s, at, balance).Success? && Scan(cc, s, at, balance).value.length == n
    requires n <= |s| && s[n..] == rest
    ensures var step := Scan(cc, s, at, balance).value;
            Lex(cc, s, at, balance) == Continued([step.token], Lex(cc, rest, at + n, balance + step.nesting))
  {
    hide Scan;
  }

  lemma {:induction false} SpanOf(s: string, rest: string, f: char -> bool)
    requires forall i :: 0 <= i < |s| ==> f(s[i])
    requires rest != "" ==> !f(rest[0])
    ensures SpanLength(s + rest, f) == |s|
  {
    if s == "" {
      assert s + rest == rest;
    } else {
      assert (s + rest)[1..] == s[1..] + rest;
      SpanOf(s[1..], rest, f);
    }
  }

  lemma LexSpace(cc: CharClasses, space: string, rest: string, at: nat, balance: nat)
    requires IsSpace(cc, space) && (rest != "" ==> !cc.isSpace(rest[0]))
    ensures Lex(cc, space + rest, at, balance) ==
            Continued(SpaceTokens(space), Lex(cc, rest, at + |space|, balance))
  {
    hide Lex;
    if space == "" {
      assert space + rest == rest;
      NothingContinued(Lex(cc, rest, at, balance));
    } else {
      SpanOf(space, rest, cc.isSpace);
      assert (space + rest)[..|space|] == space && (space + rest)[|space|..] == rest;
      assert Scan(cc, space + rest, at, balance) == Success(Step(Plain(Whitespace, space), |space|, 0));
      LexTakes(cc, space + rest, at, balance, |space|, rest);
    }
  }

  lemma NothingContinued(r: Result<seq<Token>>)
    ensures Continued([], r) == r
  {
    if r.Success? {
      assert [] + r.value == r.value;
    }
  }

  lemma LexNumeral(cc: CharClasses, text: string, rest: string, at: nat, balance: nat)
    requires AgreesWithAscii(cc) && IsNumeral(text) && EndsNumber(cc, rest)
    ensures Lex(cc, text + rest, at, balance) ==
            Continued([Plain(Number, text)], Lex(cc, rest, at + |text|, balance))
  {
    hide Lex;
    NumeralIsScanned(cc, text, rest);
    assert (text + rest)[..|text|] == text && (text + rest)[|text|..] == rest;
    assert Scan(cc, text + rest, at, balance) == Success(Step(Plain(Number, text), |text|, 0));
    LexTakes(cc, text + rest, at, balance, |text|, rest);
  }

  /** The token of a single-character operator or parenthesis. */
  function Sign(c: char): Token {
    if c == '(' || c == ')' then Plain(Parenthesis, [c]) else Plain(Operator, [c])
  }

  lemma LexSign(cc: CharClasses, c: char, rest: string, at: nat, balance: nat)
    requires AgreesWithAscii(cc) && c in "+-*/%()" && (c == ')' ==> balance > 0)
    ensures var nesting := if c == '(' then 1 else if c == ')' then -1 else 0;
            Lex(cc, [c] + rest, at, balance) == Continued([Sign(c)], Lex(cc, rest, at + 1, balance + nesting))
  {
    hide Lex;
    var s := [c] + rest;
    assert c in "+-*/%()." && s[0] == c && s[1..] == rest;
    assert Scan(cc, s, at, balance).Success?;
    LexTakes(cc, s, at, balance, 1, rest);
  }

  /** Tokenizing the text of `c` gives the tokens of `c`, and then those of what follows. */
  lemma {:induction false} LexReads(cc: CharClasses, c: Infix, rest: string, at: nat, balance: nat)
    requires AgreesWithAscii(cc) && IsProper(c) && IsWritable(cc, c) && EndsNumber(cc, rest)
    ensures Lex(cc, TextOf(c) + rest, at, balance) ==
            Continued(TokensOf(c), Lex(cc, rest, at + |TextOf(c)|, balance))
    decreases c
  {
    hide Lex, Continued, AgreesWithAscii, EndsNumber, TextOf, TokensOf, IsSpace, Sign, SpaceTokens, IsSum;
    TextRegrouped(c, rest);
    GrammarIsPrecedence(c);
    var r := Lex(cc, rest, at + |TextOf(c)|, balance);
    match c
    case Literal(space, text) =>
      LexReadsLiteral(cc, space, text, rest, at, balance);
    case Parens(open, inner, close) =>
      var r3 := [')'] + rest;
      var r2 := close + r3;
      var r1 := TextOf(inner) + r2;
      var n := |open|;
      var m := n + 1 + |TextOf(inner)|;
      SignIsNoDigit(cc, '(');
      LexSpace(cc, open, ['('] + r1, at, balance);
      LexSign(cc, '(', r1, at + n, balance);
      SpacedSignEndsNumber(cc, close, ')', rest);
      LexReads(cc, inner, r2, at + n + 1, balance + 1);
      SignIsNoDigit(cc, ')');
      LexSpace(cc, close, r3, at + m, balance + 1);
      LexSign(cc, ')', rest, at + m + |close|, balance + 1);
      Joined5(SpaceTokens(open), [Sign('(')], TokensOf(inner), SpaceTokens(close), [Sign(')')], r);
    case Binary(left, space, op, right) =>
      SingleOperator(op);
      var r2 := TextOf(right) + rest;
      var r1 := space + ([op[0]] + r2);
      var n := |TextOf(left)|;
      SpacedSignEndsNumber(cc, space, op[0], r2);
      LexReads(cc, left, r1, at, balance);
      SignIsNoDigit(cc, op[0]);
      LexSpace(cc, space, [op[0]] + r2, at + n, balance);
      LexSign(cc, op[0], r2, at + n + |space|, balance);
      LexReads(cc, right, rest, at + n + |space| + 1, balance);
      Joined4(TokensOf(left), SpaceTokens(space), [Sign(op[0])], TokensOf(right), r);
  }

  /** The text and the tokens of a notation, taken apart from the left. */
  lemma TextRegrouped(c: Infix, rest: string)
    requires IsProper(c)
    ensures match c
            case Literal(space, text) =>
              TextOf(c) + rest == space + text + rest && |TextOf(c)| == |space + text| &&
              TokensOf(c) == SpaceTokens(space) + [Plain(Number, text)]
            case Parens(open, inner, close) =>
              TextOf(c) + rest == open + (['('] + (TextOf(inner) + (close + ([')'] + rest)))) &&
              |TextOf(c)| == |open| + 1 + |TextOf(inner)| + |close| + 1 &&
              TokensOf(c) == SpaceTokens(open) + [Sign('(')] + TokensOf(inner) + SpaceTokens(close) + [Sign(')')]
            case Binary(left, space, op, right) =>
              |op| == 1 && op[0] in "+-*/%" &&
              TextOf(c) + rest == TextOf(left) + (space + ([op[0]] + (TextOf(right) + rest))) &&
              |TextOf(c)| == |TextOf(left)| + |space| + 1 + |TextOf(right)| &&
              TokensOf(c) == TokensOf(left) + SpaceTokens(space) + [Sign(op[0])] + TokensOf(right)
  {
    hide SpaceTokens, OperatorPrecedence, IsSum;
    GrammarIsPrecedence(c);
    match c
    case Literal(_, _) =>
    case Parens(open, inner, close) => Regroup6(open, "(", TextOf(inner), close, ")", rest);
    case Binary(left, space, op, right) =>
      SingleOperator(op);
      Regroup5(TextOf(left), space, op, TextOf(right), rest);
  }

  lemma LexReadsLiteral(cc: CharClasses, space: string, text: string, rest: string, at: nat, balance: nat)
    requires AgreesWithAscii(cc) && IsSpace(cc, space) && IsNumeral(text) && EndsNumber(cc, rest)
    ensures Lex(cc, space + text + rest, at, balance) ==
            Continued(SpaceTokens(space) + [Plain(Number, text)], Lex(cc, rest, at + |space + text|, balance))
  {
    hide Lex, Continued, AgreesWithAscii, EndsNumber, IsNumeral, SpaceTokens;
    NumeralIsScanned(cc, text, rest);
    assert space + text + rest == space + (text + rest);
    LexSpace(cc, space, text + rest, at, balance);
    LexNumeral(cc, text, rest, at + |space|, balance);
    ContinuedTwice(SpaceTokens(space), [Plain(Number, text)], Lex(cc, rest, at + |space| + |text|, balance));
  }

  lemma SingleOperator(op: string)
    requires OperatorPrecedence(op) > 0
    ensures |op| == 1 && op[0] in "+-*/%" && op == [op[0]] && Sign(op[0]) == Plain(Operator, op)
  {
  }

  lemma SpacedSignEndsNumber(cc: CharClasses, space: string, c: char, rest: string)
    requires AgreesWithAscii(cc) && IsSpace(cc, space) && c in "+-*/%()"
    ensures EndsNumber(cc, space + ([c] + rest))
  {
    assert c in "+-*/%()." && '.' in "+-*/%().";
    if space != "" {
      assert (space + ([c] + rest))[0] == space[0];
    } else {
      assert space + ([c] + rest) == [c] + rest;
    }
  }

  lemma Joined4(a: seq<Token>, b: seq<Token>, c: seq<Token>, d: seq<Token>, r: Result<seq<Token>>)
    ensures Continued(a, Continued(b, Continued(c, Continued(d, r)))) == Continued(a + b + c + d, r)
  {
    hide Continued;
    ContinuedTwice(c, d, r);
    ContinuedTwice(b, c + d, r);
    ContinuedTwice(a, b + (c + d), r);
    assert a + (b + (c + d)) == a + b + c + d;
  }

  lemma Joined5(a: seq<Token>, b: seq<Token>, c: seq<Token>, d: seq<Token>, e: seq<Token>, r: Result<seq<Token>>)
    ensures Continued(a, Continued(b, Continued(c, Continued(d, Continued(e, r))))) == Continued(a + b + c + d + e, r)
  {
    hide Continued;
    Joined4(a, b, c, d, Continued(e, r));
    ContinuedTwice(a + b + c + d, e, r);
  }

  lemma SourceTextIsRead(cc: CharClasses, c: Infix, trailing: string)
    requires AgreesWithAscii(cc) && IsProper(c) && IsWritable(cc, c) && IsSpace(cc, trailing)
    ensures Lex(cc, SourceText(c, trailing), 0, 0) == Success(SourceTokens(c, trailing))
  {
    hide Lex;
    SpaceEndsNumber(cc, trailing);
    LexReads(cc, c, trailing, 0, 0);
    assert trailing + "" == trailing;
    LexSpace(cc, trailing, "", |TextOf(c)|, 0);
    EndOfLex(cc, |TextOf(c)| + |trailing|, 0);
    assert TokensOf(c) + (SpaceTokens(trailing) + [Plain(End, "")]) == SourceTokens(c, trailing);
  }

  lemma SpaceEndsNumber(cc: CharClasses, space: string)
    requires AgreesWithAscii(cc) && IsSpace(cc, space)
    ensures EndsNumber(cc, space)
  {
    assert '.' in "+-*/%().";
  }

  // Meaning

  function Arithmetic(op: string, a: real, b: real): real {
    if op == "+" then a + b
    else if op == "-" then a - b
    else if op == "*" then a * b
    else if b == 0.0 then 0.0
    else if op == "/" then a / b
    else Fmod(a, b)
  }

  predicate Divides(op: string) {
    op == "/" || op == "%"
  }

  /** The value of the notation by ordinary arithmetic. The quotient and the remainder by zero
      are given an arbitrary value. */
  function ValueOf(c: Infix): real {
    match c
    case Literal(_, text) => NumberValue(text)
    case Parens(_, inner, _) => ValueOf(inner)
    case Binary(left, _, op, right) => Arithmetic(op, ValueOf(left), ValueOf(right))
  }

  /** No divisor in the notation has the value zero. */
  predicate DividesSafely(c: Infix) {
    match c
    case Literal(_, _) => true
    case Parens(_, inner, _) => DividesSafely(inner)
    case Binary(left, _, op, right) =>
      DividesSafely(left) && DividesSafely(right) && (Divides(op) ==> ValueOf(right) != 0.0)
  }

  /** The operator of the first division by zero, each operator coming after both its operands. */
  function FirstZeroDivision(c: Infix): string {
    match c
    case Literal(_, _) => ""
    case Parens(_, inner, _) => FirstZeroDivision(inner)
    case Binary(left, _, op, right) =>
      if !DividesSafely(left) then FirstZeroDivision(left)
      else if !DividesSafely(right) then FirstZeroDivision(right)
      else op
  }

  /** What the first division by zero is reported as. */
  function FailureOf(c: Infix): Error {
    if FirstZeroDivision(c) == "/" then DivisionByZero else ModuloByZero
  }

  lemma OperatorsAreArithmetic(op: string, a: real, b: real)
    requires OperatorPrecedence(op) > 0
    ensures ApplyOperator(op, a, b) ==
            if op == "/" && b == 0.0 then Failure(DivisionByZero)
            else if op == "%" && b == 0.0 then Failure(ModuloByZero)
            else Success(Arithmetic(op, a, b))
  {
    hide Fmod;
  }

  lemma EvaluateOperator(node: AstNode, context: Context)
    requires node.kind == OperatorNode && |node.children| == 2
    ensures var left, right := Evaluate(node.children[0], context), Evaluate(node.children[1], context);
            Evaluate(node, context) ==
            if left.Failure? then left
            else if right.Failure? then right
            else ApplyOperator(node.value, left.value, right.value)
  {
    hide ApplyOperator;
  }

  lemma {:induction false} EvaluationIsArithmetic(c: Infix, context: Context)
    requires IsProper(c)
    ensures DividesSafely(c) ==> Evaluate(TreeOf(c), context) == Success(ValueOf(c))
    ensures !DividesSafely(c) ==> Evaluate(TreeOf(c), context) == Failure(FailureOf(c))
  {
    hide IsSum;
    GrammarIsPrecedence(c);
    match c
    case Literal(_, _) =>
      hide NumberValue;
    case Parens(_, inner, _) => EvaluationIsArithmetic(inner, context);
    case Binary(left, _, op, right) =>
      hide Evaluate, ApplyOperator, OperatorPrecedence, Arithmetic;
      EvaluationIsArithmetic(left, context);
      EvaluationIsArithmetic(right, context);
      EvaluateOperator(TreeOf(c), context);
      OperatorsAreArithmetic(op, ValueOf(left), ValueOf(right));
  }

  /** The pipeline preserves meaning: evaluating the text of any notation gives its value by
      ordinary arithmetic, and fails exactly when a divisor in it has the value zero, with the
      error of the first such division. */
  lemma EvalIsArithmetic(cc: CharClasses, context: Context, c: Infix, trailing: string)
    requires AgreesWithAscii(cc) && IsProper(c) && IsWritable(cc, c) && IsSpace(cc, trailing)
    ensures EvalOf(cc, context, SourceText(c, trailing)) ==
            if DividesSafely(c) then Success(ValueOf(c)) else Failure(FailureOf(c))
  {
    hide FailureOf, Lex, BuildOf, Evaluate, ValueOf, DividesSafely, AgreesWithAscii, IsProper, IsWritable, SourceTokens,
        SourceText;
    SourceTextIsRead(cc, c, trailing);
    ParserUndoesPrinter(c, trailing);
    EvaluationIsArithmetic(c, context);
  }

  // Every tree has a text

  ghost predicate HasNumerals(node: AstNode)
    requires IsArithmetic(node)
  {
    if node.kind == NumberNode then IsNumeral(node.value)
    else HasNumerals(node.children[0]) && HasNumerals(node.children[1])
  }

  lemma {:induction false} PrintIsWritable(cc: CharClasses, node: AstNode)
    requires IsArithmetic(node) && HasNumerals(node)
    ensures IsWritable(cc, Print(node))
    decreases node
  {
    hide IsNumeral, OperatorPrecedence;
    if node.kind != NumberNode {
      PrintIsWritable(cc, node.children[0]);
      PrintIsWritable(cc, node.children[1]);
    }
  }

  /** Printing a tree with the fewest parentheses and no whitespace, and then tokenizing and
      parsing the text, gives back the tree. */
  lemma {:induction false} PrintedTextParsesBack(cc: CharClasses, node: AstNode)
    requires AgreesWithAscii(cc) && IsArithmetic(node) && KnownOperators(node) && HasNumerals(node)
    ensures Lex(cc, TextOf(Print(node)), 0, 0).Success?
    ensures BuildOf(Lex(cc, TextOf(Print(node)), 0, 0).value) == Success(node)
  {
    hide AgreesWithAscii, Lex, BuildOf, SourceTokens, Print, TextOf;
    PrintIsProper(node);
    PrintIsWritable(cc, node);
    SourceTextIsRead(cc, Print(node), "");
    ParserUndoesPrinter(Print(node), "");
    assert TextOf(Print(node)) + "" == TextOf(Print(node));
  }
}
