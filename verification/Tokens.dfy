/** Tokens of the expression language and the ways its pipeline can fail. */
module Tokens {

  datatype TokenType = Whitespace | Number | Operator | Delimiter | Name | Parenthesis | End | Invalid

  datatype Token = Token(kind: TokenType, value: string, whitespace: string, arity: nat)

  function Plain(kind: TokenType, value: string): Token {
    Token(kind, value, "", 0)
  }

  datatype Error =
    | InvalidCharacter(c: char, column: nat)
    | MismatchedClosing(column: nat)
    | MismatchedParentheses
    | EmptyTokenStream
    | InvalidOperator(op: string)
    | UnexpectedDelimiter
    | InvalidToken(value: string)
    | InsufficientOperands(value: string)
    | InvalidRpn
    | DivisionByZero
    | ModuloByZero
    | UnsupportedOperator(op: string)
    | MalformedOperator
    | VariableNotFound(name: string)
    | FunctionNotFound(name: string)
    | NullRoot
    | EmptyTree

  datatype Result<+T> = Success(value: T) | Failure(error: Error)

  /** The text of the tokens, one after the other. */
  function Text(tokens: seq<Token>): string {
    if tokens == [] then "" else tokens[0].value + Text(tokens[1..])
  }

  lemma Regroup3<T>(a: seq<T>, b: seq<T>, c: seq<T>)
    ensures a + b + c == a + (b + c)
  {
  }

  lemma Regroup5<T>(a: seq<T>, b: seq<T>, c: seq<T>, d: seq<T>, e: seq<T>)
    ensures a + b + c + d + e == a + (b + (c + (d + e)))
  {
    Regroup3(a + b + c, d, e);
    Regroup3(a + b, c, d + e);
    Regroup3(a, b, c + (d + e));
  }

  lemma Regroup6<T>(a: seq<T>, b: seq<T>, c: seq<T>, d: seq<T>, e: seq<T>, f: seq<T>)
    ensures a + b + c + d + e + f == a + (b + (c + (d + (e + f))))
  {
    Regroup3(a + b + c + d, e, f);
    Regroup5(a, b, c, d, e + f);
  }
}
