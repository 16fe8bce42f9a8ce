/** The tokenizer: a scanning loop, the function it computes, and what that function promises. */
module Tokenizing {
  import opened Tokens

  /** How characters are classified. Everything below holds for every classification. */
  datatype CharClasses = CharClasses(isSpace: char -> bool, isDigit: char -> bool,
                                     isLetter: char -> bool, isNumber: char -> bool)

  const OPERATORS: string := "+-*/%^="

  predicate IsNameChar(cc: CharClasses, c: char) {
    cc.isLetter(c) || cc.isNumber(c) || c == '_'
  }

  /** Length of the longest prefix of characters that satisfy `f`. */
  function SpanLength(s: string, f: char -> bool): (n: nat)
    ensures n <= |s|
  {
    if s == "" || !f(s[0]) then 0 else 1 + SpanLength(s[1..], f)
  }

  /** Length of the longest prefix of digits with at most one dot, none if one was seen before. */
  function NumberLength(cc: CharClasses, s: string, seenDot: bool): (n: nat)
    ensures n <= |s|
  {
    if s != "" && (cc.isDigit(s[0]) || (!seenDot && s[0] == '.'))
    then 1 + NumberLength(cc, s[1..], seenDot || s[0] == '.')
    else 0
  }

  predicate StartsNumber(cc: CharClasses, s: string)
    requires s != ""
  {
    cc.isDigit(s[0]) || (s[0] == '.' && |s| > 1 && cc.isDigit(s[1]))
  }

  predicate StartsName(cc: CharClasses, s: string)
    requires s != ""
  {
    cc.isLetter(s[0]) || s[0] == '_'
  }

  function NameChars(cc: CharClasses): char -> bool {
    c => IsNameChar(cc, c)
  }

  /** One token: what it is, how many characters it takes, and what it does to the number of open
      parentheses. */
  datatype Step = Step(token: Token, length: nat, nesting: int)

  /** The token at the front of `s`, which starts at column `at` inside `balance` open parentheses. */
  function Scan(cc: CharClasses, s: string, at: nat, balance: nat): (r: Result<Step>)
    requires s != ""
    ensures r.Success? ==> 1 <= r.value.length <= |s| && r.value.token.value == s[..r.value.length]
    ensures r.Success? ==> balance + r.value.nesting >= 0
  {
    if cc.isSpace(s[0]) then
      var n := SpanLength(s, cc.isSpace);
      Success(Step(Plain(Whitespace, s[..n]), n, 0))
    else if StartsNumber(cc, s) then
      var n := NumberLength(cc, s, false);
      Success(Step(Plain(Number, s[..n]), n, 0))
    else if s[0] in OPERATORS then Success(Step(Plain(Operator, [s[0]]), 1, 0))
    else if s[0] == '(' then Success(Step(Plain(Parenthesis, "("), 1, 1))
    else if s[0] == ')' then
      if balance == 0 then Failure(MismatchedClosing(at)) else Success(Step(Plain(Parenthesis, ")"), 1, -1))
    else if s[0] == ',' then Success(Step(Plain(Delimiter, ","), 1, 0))
    else if StartsName(cc, s) then
      var n := SpanLength(s, NameChars(cc));
      Success(Step(Plain(Name, s[..n]), n, 0))
    else Failure(InvalidCharacter(s[0], at))
  }

  /** The result of putting `tokens` before the tokens of `r`. */
  function Continued(tokens: seq<Token>, r: Result<seq<Token>>): Result<seq<Token>> {
    match r
    case Success(rest) => Success(tokens + rest)
    case Failure(error) => Failure(error)
  }

  /** The tokens of the text `s`, which starts at column `at` inside `balance` open parentheses. */
  function Lex(cc: CharClasses, s: string, at: nat, balance: nat): Result<seq<Token>>
    decreases |s|
  {
    if s == "" then
      if balance != 0 then Failure(MismatchedParentheses) else Success([Plain(End, "")])
    else
      match Scan(cc, s, at, balance)
      case Failure(error) => Failure(error)
      case Success(Step(token, n, nesting)) => Continued([token], Lex(cc, s[n..], at + n, balance + nesting))
  }

  lemma LexGoesOn(cc: CharClasses, source: string, index: nat, balance: nat, tokens: seq<Token>)
    requires index < |source|
    requires Lex(cc, source, 0, 0) == Continued(tokens, Lex(cc, source[index..], index, balance))
    ensures var scanned := Scan(cc, source[index..], index, balance);
            && (scanned.Failure? ==> Lex(cc, source, 0, 0) == Failure(scanned.error))
            && (scanned.Success? ==>
                  var Step(token, n, nesting) := scanned.value;
                  Lex(cc, source, 0, 0) ==
                  Continued(tokens + [token], Lex(cc, source[index + n..], index + n, balance + nesting)))
  {
    hide Scan;
    match Scan(cc, source[index..], index, balance)
    case Failure(_) =>
    case Success(Step(token, n, nesting)) =>
      assert source[index..][n..] == source[index + n..];
      match Lex(cc, source[index + n..], index + n, balance + nesting)
      case Failure(_) =>
      case Success(rest) => assert tokens + ([token] + rest) == tokens + [token] + rest;
  }

  /** The scanning loop for whitespace and names. */
  method ScanWhile(source: string, start: nat, f: char -> bool) returns (index: nat)
    requires start <= |source|
    ensures index == start + SpanLength(source[start..], f) <= |source|
  {
    index := start;
    while index < |source| && f(source[index])
      invariant start <= index <= |source|
      invariant SpanLength(source[start..], f) == index - start + SpanLength(source[index..], f)
    {
      assert source[index..][1..] == source[index + 1..];
      index := index + 1;
    }
  }

  /** The scanning loop for numbers. */
  method ScanNumber(cc: CharClasses, source: string, start: nat) returns (index: nat)
    requires start <= |source|
    ensures index == start + NumberLength(cc, source[start..], false) <= |source|
  {
    index := start;
    var seenDot := false;
    while index < |source| && (cc.isDigit(source[index]) || (!seenDot && source[index] == '.'))
      invariant start <= index <= |source|
      invariant NumberLength(cc, source[start..], false) == index - start + NumberLength(cc, source[index..], seenDot)
    {
      assert source[index..][1..] == source[index + 1..];
      if source[index] == '.' {
        seenDot := true;
      }
      index := index + 1;
    }
  }

  method Tokenize(cc: CharClasses, source: string) returns (response: Result<seq<Token>>)
    ensures response == Lex(cc, source, 0, 0)
  {
    hide SpanLength, NumberLength, Lex, IsNameChar;
    var tokens: seq<Token> := [];
    var length := |source|;
    var index := 0;
    var parenthesesBalance := 0;
    StartOfLex(cc, source);
    while index < length
      invariant index <= length && parenthesesBalance >= 0
      invariant Lex(cc, source, 0, 0) == Continued(tokens, Lex(cc, source[index..], index, parenthesesBalance))
    {
      LexGoesOn(cc, source, index, parenthesesBalance, tokens);
      var current := source[index];
      ghost var scanned := Scan(cc, source[index..], index, parenthesesBalance);
      if cc.isSpace(current) {
        var start := index;
        index := ScanWhile(source, index, cc.isSpace);
        assert source[start..index] == source[start..][..index - start];
        tokens := tokens + [Plain(Whitespace, source[start..index])];
        continue;
      }
      if cc.isDigit(current) || (current == '.' && index + 1 < length && cc.isDigit(source[index + 1])) {
        var start := index;
        index := ScanNumber(cc, source, index);
        assert source[start..index] == source[start..][..index - start];
        tokens := tokens + [Plain(Number, source[start..index])];
        continue;
      }
      if current in OPERATORS {
        tokens := tokens + [Plain(Operator, [current])];
        index := index + 1;
        continue;
      }
      if current == '(' {
        parenthesesBalance := parenthesesBalance + 1;
        tokens := tokens + [Plain(Parenthesis, "(")];
        index := index + 1;
        continue;
      }
      if current == ')' {
        parenthesesBalance := parenthesesBalance - 1;
        if parenthesesBalance < 0 {
          return Failure(MismatchedClosing(index));
        }
        tokens := tokens + [Plain(Parenthesis, ")")];
        index := index + 1;
        continue;
      }
      if current == ',' {
        tokens := tokens + [Plain(Delimiter, ",")];
        index := index + 1;
        continue;
      }
      if cc.isLetter(current) || current == '_' {
        var start := index;
        index := ScanWhile(source, index, NameChars(cc));
        assert source[start..index] == source[start..][..index - start];
        tokens := tokens + [Plain(Name, source[start..index])];
        continue;
      }
      return Failure(InvalidCharacter(current, index));
    }
    assert source[index..] == "";
    EndOfLex(cc, index, parenthesesBalance);
    if parenthesesBalance != 0 {
      return Failure(MismatchedParentheses);
    }
    tokens := tokens + [Plain(End, "")];
    return Success(tokens);
  }

  lemma StartOfLex(cc: CharClasses, source: string)
    ensures Lex(cc, source, 0, 0) == Continued([], Lex(cc, source[0..], 0, 0))
  {
    hide Lex;
    assert source[0..] == source;
    match Lex(cc, source, 0, 0)
    case Failure(_) =>
    case Success(tokens) => assert [] + tokens == tokens;
  }

  lemma EndOfLex(cc: CharClasses, at: nat, balance: nat)
    ensures Lex(cc, "", at, balance) ==
            if balance != 0 then Failure(MismatchedParentheses) else Success([Plain(End, "")])
  {
  }

  // What tokenizing promises

  predicate Opens(t: Token) { t.kind == Parenthesis && t.value == "(" }

  predicate Closes(t: Token) { t.kind == Parenthesis && t.value == ")" }

  /** Inside `depth` open parentheses, the tokens close every parenthesis they find open or open
      themselves, and no other. */
  predicate Balanced(tokens: seq<Token>, depth: nat) {
    if tokens == [] then depth == 0
    else if Opens(tokens[0]) then Balanced(tokens[1..], depth + 1)
    else if Closes(tokens[0]) then depth > 0 && Balanced(tokens[1..], depth - 1)
    else Balanced(tokens[1..], depth)
  }

  predicate Merge(a: Token, b: Token) {
    a.kind == b.kind && (a.kind == Whitespace || a.kind == Name)
  }

  /** No two neighbours could have been one token. */
  predicate Maximal(tokens: seq<Token>) {
    |tokens| < 2 || (!Merge(tokens[0], tokens[1]) && Maximal(tokens[1..]))
  }

  lemma {:induction false} SpanIsLongest(s: string, f: char -> bool)
    ensures SpanLength(s, f) < |s| ==> !f(s[SpanLength(s, f)])
  {
    if s != "" && f(s[0]) {
      SpanIsLongest(s[1..], f);
    }
  }

  /** A whitespace or name token is not followed by another of its kind: it took all of the
      characters that could have started one. */
  lemma StepsDoNotMerge(cc: CharClasses, s: string, at: nat, balance: nat, at': nat, balance': nat)
    requires s != "" && Scan(cc, s, at, balance).Success?
    requires var n := Scan(cc, s, at, balance).value.length;
             n < |s| && Scan(cc, s[n..], at', balance').Success?
    ensures var step := Scan(cc, s, at, balance).value;
            !Merge(step.token, Scan(cc, s[step.length..], at', balance').value.token)
  {
    SpanIsLongest(s, cc.isSpace);
    SpanIsLongest(s, NameChars(cc));
    hide SpanLength, NumberLength;
  }

  predicate HasPoint(s: string) {
    exists i :: 0 <= i < |s| && s[i] == '.'
  }

  /** A number takes all digits there are and one point, if no digit is one: it ends at a character
      that is neither a digit nor a first point. */
  lemma {:induction false} NumberIsLongest(cc: CharClasses, s: string, seenDot: bool)
    ensures var n := NumberLength(cc, s, seenDot);
            && (forall i :: 0 <= i < n ==> cc.isDigit(s[i]) || s[i] == '.')
            && (forall i, j :: 0 <= i < j < n && s[i] == s[j] == '.' ==> cc.isDigit(s[j]))
            && (seenDot ==> forall i :: 0 <= i < n ==> cc.isDigit(s[i]))
            && (n < |s| ==> !cc.isDigit(s[n]) && (s[n] == '.' ==> seenDot || HasPoint(s[..n])))
  {
    if s != "" && (cc.isDigit(s[0]) || (!seenDot && s[0] == '.')) {
      var n := NumberLength(cc, s, seenDot);
      NumberIsLongest(cc, s[1..], seenDot || s[0] == '.');
      assert NumberLength(cc, s[1..], seenDot || s[0] == '.') == n - 1;
      assert s[1..][..n - 1] == s[..n][1..];
      assert HasPoint(s[1..][..n - 1]) ==> HasPoint(s[..n]);
      assert s[0] == s[..n][0];
    }
  }

  /** What may not begin a token: a closing parenthesis where none is open, and a character that is
      neither space, digit, letter, underscore nor one of the signs; a point needs a digit after it. */
  lemma ScanRefusesExactly(cc: CharClasses, s: string, at: nat, balance: nat)
    requires s != ""
    ensures Scan(cc, s, at, balance).Failure? <==>
              && !cc.isSpace(s[0]) && !cc.isDigit(s[0]) && !(s[0] == '.' && |s| > 1 && cc.isDigit(s[1]))
              && (if s[0] == ')' then balance == 0 else s[0] !in "+-*/%^=(," && !cc.isLetter(s[0]) && s[0] != '_')
    ensures Scan(cc, s, at, balance).Failure? ==>
      Scan(cc, s, at, balance).error == if s[0] == ')' then MismatchedClosing(at) else InvalidCharacter(s[0], at)
  {
    hide SpanLength, NumberLength;
  }

  /** The column of an error is that of the character it is about. */
  lemma {:induction false} ErrorsPointAtTheCharacter(cc: CharClasses, s: string, at: nat, balance: nat)
    ensures match Lex(cc, s, at, balance)
            case Failure(InvalidCharacter(c, column)) => at <= column < at + |s| && s[column - at] == c
            case Failure(MismatchedClosing(column)) => at <= column < at + |s| && s[column - at] == ')'
            case Failure(error) => error == MismatchedParentheses
            case Success(_) => true
    decreases |s|
  {
    hide Scan;
    if s != "" {
      ScanRefusesExactly(cc, s, at, balance);
      match Scan(cc, s, at, balance)
      case Failure(_) =>
      case Success(Step(_, n, nesting)) => ErrorsPointAtTheCharacter(cc, s[n..], at + n, balance + nesting);
    }
  }

  /** The tokenizer is lossless: the tokens of a text that it accepts spell that text and end
      with the end token, their parentheses are balanced, and no two neighbours could have been
      one token of whitespace or one name. */
  lemma {:induction false} TokenizingIsLossless(cc: CharClasses, s: string, at: nat, balance: nat)
    requires Lex(cc, s, at, balance).Success?
    ensures var tokens := Lex(cc, s, at, balance).value;
            && Text(tokens) == s
            && tokens != [] && tokens[|tokens| - 1] == Plain(End, "")
            && Balanced(tokens, balance)
            && Maximal(tokens)
    decreases |s|
  {
    hide Scan, Merge, Lex;
    if s == "" {
      EndOfLex(cc, at, balance);
      assert [Plain(End, "")][1..] == [];
    } else {
      LexedFirst(cc, s, at, balance);
      var Step(token, n, nesting) := Scan(cc, s, at, balance).value;
      var rest := s[n..];
      TokenizingIsLossless(cc, rest, at + n, balance + nesting);
      var tokens := Lex(cc, rest, at + n, balance + nesting).value;
      ScannedParenthesis(cc, s, at, balance);
      if rest != "" {
        LexedFirst(cc, rest, at + n, balance + nesting);
        StepsDoNotMerge(cc, s, at, balance, at + n, balance + nesting);
      } else {
        EndOfLex(cc, at + n, balance + nesting);
      }
      TokenPutFirst(token, tokens, balance);
      assert s == s[..n] + rest;
    }
  }

  lemma LexedFirst(cc: CharClasses, s: string, at: nat, balance: nat)
    requires s != "" && Lex(cc, s, at, balance).Success?
    ensures Scan(cc, s, at, balance).Success?
    ensures var Step(token, n, nesting) := Scan(cc, s, at, balance).value;
            && Lex(cc, s[n..], at + n, balance + nesting).Success?
            && Lex(cc, s, at, balance).value == [token] + Lex(cc, s[n..], at + n, balance + nesting).value
  {
    hide Scan;
  }

  lemma TokenPutFirst(token: Token, tokens: seq<Token>, depth: nat)
    requires tokens != [] && (Closes(token) ==> depth > 0)
    requires Balanced(tokens, if Opens(token) then depth + 1 else if Closes(token) then depth - 1 else depth)
    requires Maximal(tokens) && (|tokens| > 1 ==> !Merge(token, tokens[0])) && tokens[|tokens| - 1].kind == End
    ensures Text([token] + tokens) == token.value + Text(tokens)
    ensures Balanced([token] + tokens, depth)
    ensures Maximal([token] + tokens)
  {
    assert ([token] + tokens)[1..] == tokens;
    hide Opens, Closes;
  }

  lemma ScannedParenthesis(cc: CharClasses, s: string, at: nat, balance: nat)
    requires s != "" && Scan(cc, s, at, balance).Success?
    ensures var step := Scan(cc, s, at, balance).value;
            step.nesting == if Opens(step.token) then 1 else if Closes(step.token) then -1 else 0
  {
    hide SpanLength, NumberLength;
  }
}
