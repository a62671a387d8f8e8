/** The diagnostic record and the diagnostic builders of backend/src/parser/syntaxErr.ts.
    Every builder copies the position it is given, fixes the kind, and writes a message
    whose opening words name that kind: `KindOfMessage` reads the kind back from the
    message alone. */
module SyntaxErrors {
  import opened Wrappers

  /** The four diagnostic categories. */
  datatype ErrorType = UNEXPECTED_TOKEN | MISSING_TOKEN | INVALID_STATEMENT | INVALID_EXPRESSION

  /** A diagnostic. The source's optional `type` and `suggestion` fields are `Option`s
      here (`kind` stands for the field `type`); an absent field and one set to
      `undefined` are both `None`. */
  datatype SyntaxError = SyntaxError(
    message: string, line: int, column: int, token: string,
    kind: Option<ErrorType>, suggestion: Option<string>)

  predicate StartsWith(s: string, prefix: string)
  {
    |prefix| <= |s| && s[..|prefix|] == prefix
  }

  predicate EndsWith(s: string, suffix: string)
  {
    |suffix| <= |s| && s[|s| - |suffix|..] == suffix
  }

  /** The text between a message's fixed opening and its closing quote. */
  function Between(s: string, prefix: string, suffix: string): string
    requires |prefix| + |suffix| <= |s|
  {
    s[|prefix|..|s| - |suffix|]
  }

  const UnexpectedOpening: string := "Unexpected token '"
  const ExpectedOpening: string := "Expected '"
  const MissingBraceMessage: string := "Missing closing brace \"}\""
  const MissingSemicolonMessage: string := "Expected \";\" after statement"
  const UnknownStatementOpening: string := "Unknown statement '"
  const InvalidStatementOpening: string := "Invalid statement starting with '"
  const InvalidExpressionOpening: string := "Invalid expression at '"

  /** An independent reading of a message: the category its opening words announce. */
  function KindOfMessage(m: string): Option<ErrorType>
  {
    if StartsWith(m, "Unexpected ") then Some(UNEXPECTED_TOKEN)
    else if StartsWith(m, "Expected ") || StartsWith(m, "Missing ") then Some(MISSING_TOKEN)
    else if StartsWith(m, "Unknown statement ") || StartsWith(m, "Invalid statement ") then Some(INVALID_STATEMENT)
    else if StartsWith(m, "Invalid expression ") then Some(INVALID_EXPRESSION)
    else None
  }

  /** A string that starts with `p` starts with every prefix of `p`. */
  lemma StartsWithPrefix(s: string, p: string, q: string)
    requires StartsWith(s, p) && StartsWith(p, q)
    ensures StartsWith(s, q)
  {
    assert s[..|q|] == s[..|p|][..|q|];
  }

  /** `p + x` starts with `p`. */
  lemma StartsWithConcat(p: string, x: string)
    ensures StartsWith(p + x, p)
  {
    assert (p + x)[..|p|] == p;
  }

  /** `x + q` ends with `q`, and what lies between `p` and `q` in `p + x + q` is `x`. */
  lemma BetweenConcat(p: string, x: string, q: string)
    ensures var m := p + x + q; |p| + |q| <= |m| && EndsWith(m, q) && Between(m, p, q) == x
  {
    var m := p + x + q;
    assert m[|m| - |q|..] == q;
    assert m[|p|..|m| - |q|] == x;
  }

  /** Two strings that differ at some index below both lengths are not prefixes of the
      same string. */
  lemma NotBothPrefixes(s: string, p: string, q: string, i: nat)
    requires i < |p| && i < |q| && p[i] != q[i] && StartsWith(s, p)
    ensures !StartsWith(s, q)
  {
    assert s[i] == p[i];
  }

  function UnexpectedToken(token: string, line: int, column: int, suggestion: Option<string>): (r: SyntaxError)
    ensures r.line == line && r.column == column && r.token == token && r.suggestion == suggestion
    ensures r.kind == Some(UNEXPECTED_TOKEN) && KindOfMessage(r.message) == r.kind
    ensures StartsWith(r.message, UnexpectedOpening) && |UnexpectedOpening| + 1 <= |r.message|
    ensures Between(r.message, UnexpectedOpening, "'") == token && EndsWith(r.message, "'")
  {
    var m := UnexpectedOpening + token + "'";
    BetweenConcat(UnexpectedOpening, token, "'");
    StartsWithConcat(UnexpectedOpening, token + "'");
    assert m == UnexpectedOpening + (token + "'");
    StartsWithPrefix(m, UnexpectedOpening, "Unexpected ");
    SyntaxError(m, line, column, token, Some(UNEXPECTED_TOKEN), suggestion)
  }

  function ExpectedToken(expected: string, found: string, line: int, column: int): (r: SyntaxError)
    ensures r.line == line && r.column == column && r.token == found
    ensures r.kind == Some(MISSING_TOKEN) && KindOfMessage(r.message) == r.kind
    ensures r.suggestion == Some("Insert '" + expected + "'")
    ensures StartsWith(r.message, ExpectedOpening) && EndsWith(r.message, "' but found '" + found + "'")
    ensures |ExpectedOpening| + |"' but found '" + found + "'"| <= |r.message|
    ensures Between(r.message, ExpectedOpening, "' but found '" + found + "'") == expected
  {
    var m := ExpectedOpening + expected + "' but found '" + found + "'";
    assert m == ExpectedOpening + expected + ("' but found '" + found + "'");
    BetweenConcat(ExpectedOpening, expected, "' but found '" + found + "'");
    assert m == ExpectedOpening + (expected + "' but found '" + found + "'");
    StartsWithConcat(ExpectedOpening, expected + "' but found '" + found + "'");
    StartsWithPrefix(m, ExpectedOpening, "Expected ");
    NotBothPrefixes(m, ExpectedOpening, "Unexpected ", 0);
    SyntaxError(m, line, column, found, Some(MISSING_TOKEN), Some("Insert '" + expected + "'"))
  }

  function MissingClosingBrace(line: int, column: int): (r: SyntaxError)
    ensures r.line == line && r.column == column && r.token == "}"
    ensures r.kind == Some(MISSING_TOKEN) && KindOfMessage(r.message) == r.kind
    ensures r.suggestion == Some("Insert \"}\"")
    ensures r.message == "Missing closing brace \"}\""
  {
    assert StartsWith(MissingBraceMessage, "Missing ");
    NotBothPrefixes(MissingBraceMessage, "Missing ", "Unexpected ", 0);
    NotBothPrefixes(MissingBraceMessage, "Missing ", "Expected ", 0);
    SyntaxError(MissingBraceMessage, line, column, "}", Some(MISSING_TOKEN), Some("Insert \"}\""))
  }

  function MissingSemicolon(line: int, column: int, token: string): (r: SyntaxError)
    ensures r.line == line && r.column == column && r.token == token
    ensures r.kind == Some(MISSING_TOKEN) && KindOfMessage(r.message) == r.kind
    ensures r.suggestion == Some("Insert ';'")
    ensures r.message == "Expected \";\" after statement"
  {
    assert StartsWith(MissingSemicolonMessage, "Expected ");
    NotBothPrefixes(MissingSemicolonMessage, "Expected ", "Unexpected ", 0);
    SyntaxError(MissingSemicolonMessage, line, column, token, Some(MISSING_TOKEN), Some("Insert ';'"))
  }

  /** Whether JavaScript treats the optional suggestion as true: present and non-empty. */
  predicate Truthy(suggestion: Option<string>)
  {
    suggestion.Some? && suggestion.value != ""
  }

  function InvalidStatement(token: string, line: int, column: int, suggestion: Option<string>): (r: SyntaxError)
    ensures r.line == line && r.column == column && r.token == token && r.suggestion == suggestion
    ensures r.kind == Some(INVALID_STATEMENT) && KindOfMessage(r.message) == r.kind
    ensures StartsWith(r.message, UnknownStatementOpening) <==> Truthy(suggestion)
    ensures StartsWith(r.message, InvalidStatementOpening) <==> !Truthy(suggestion)
    ensures Truthy(suggestion) ==>
      var q := "'. Did you mean '" + suggestion.value + "'?";
      |UnknownStatementOpening| + |q| <= |r.message| && EndsWith(r.message, q)
      && Between(r.message, UnknownStatementOpening, q) == token
    ensures !Truthy(suggestion) ==>
      |InvalidStatementOpening| + 1 <= |r.message| && EndsWith(r.message, "'")
      && Between(r.message, InvalidStatementOpening, "'") == token
  {
    if Truthy(suggestion) then
      var m := UnknownStatementOpening + token + "'. Did you mean '" + suggestion.value + "'?";
      assert m == UnknownStatementOpening + token + ("'. Did you mean '" + suggestion.value + "'?");
      BetweenConcat(UnknownStatementOpening, token, "'. Did you mean '" + suggestion.value + "'?");
      assert m == UnknownStatementOpening + (token + "'. Did you mean '" + suggestion.value + "'?");
      StartsWithConcat(UnknownStatementOpening, token + "'. Did you mean '" + suggestion.value + "'?");
      StartsWithPrefix(m, UnknownStatementOpening, "Unknown statement ");
      NotBothPrefixes(m, UnknownStatementOpening, "Unexpected ", 2);
      NotBothPrefixes(m, UnknownStatementOpening, "Expected ", 0);
      NotBothPrefixes(m, UnknownStatementOpening, "Missing ", 0);
      NotBothPrefixes(m, UnknownStatementOpening, InvalidStatementOpening, 0);
      SyntaxError(m, line, column, token, Some(INVALID_STATEMENT), suggestion)
    else
      var m := InvalidStatementOpening + token + "'";
      BetweenConcat(InvalidStatementOpening, token, "'");
      assert m == InvalidStatementOpening + (token + "'");
      StartsWithConcat(InvalidStatementOpening, token + "'");
      StartsWithPrefix(m, InvalidStatementOpening, "Invalid statement ");
      NotBothPrefixes(m, InvalidStatementOpening, "Unexpected ", 0);
      NotBothPrefixes(m, InvalidStatementOpening, "Expected ", 0);
      NotBothPrefixes(m, InvalidStatementOpening, "Missing ", 0);
      NotBothPrefixes(m, InvalidStatementOpening, "Unknown statement ", 0);
      NotBothPrefixes(m, InvalidStatementOpening, UnknownStatementOpening, 0);
      SyntaxError(m, line, column, token, Some(INVALID_STATEMENT), suggestion)
  }

  function InvalidExpression(token: string, line: int, column: int): (r: SyntaxError)
    ensures r.line == line && r.column == column && r.token == token && r.suggestion == None
    ensures r.kind == Some(INVALID_EXPRESSION) && KindOfMessage(r.message) == r.kind
    ensures StartsWith(r.message, InvalidExpressionOpening) && |InvalidExpressionOpening| + 1 <= |r.message|
    ensures Between(r.message, InvalidExpressionOpening, "'") == token && EndsWith(r.message, "'")
  {
    var m := InvalidExpressionOpening + token + "'";
    BetweenConcat(InvalidExpressionOpening, token, "'");
    assert m == InvalidExpressionOpening + (token + "'");
    StartsWithConcat(InvalidExpressionOpening, token + "'");
    StartsWithPrefix(m, InvalidExpressionOpening, "Invalid expression ");
    NotBothPrefixes(m, InvalidExpressionOpening, "Unexpected ", 0);
    NotBothPrefixes(m, InvalidExpressionOpening, "Expected ", 0);
    NotBothPrefixes(m, InvalidExpressionOpening, "Missing ", 0);
    NotBothPrefixes(m, InvalidExpressionOpening, "Unknown statement ", 0);
    NotBothPrefixes(m, InvalidExpressionOpening, "Invalid statement ", 8);
    SyntaxError(m, line, column, token, Some(INVALID_EXPRESSION), None)
  }
}
