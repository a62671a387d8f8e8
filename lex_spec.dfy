/** What the lexer of backend/src/lexer/kf_lexer.ts computes, as functions on the unread
    rest of the source. Each scanner is a `Step`: how many characters it consumes and the
    token it emits, if any. `Run` repeats the dispatch of `tokenize` from a cursor to the
    end of the input and adds the EOF token; the `Lexer` class is proved to compute it. */
module LexSpec {
  import opened Wrappers
  import opened CharClass
  import opened CharStreams
  import opened Tokens
  import opened TokenUtils
  import opened Seqs
  import StreamReaders

  /** The error text of a multi-line comment that the input ends inside. */
  const UnterminatedComment: string := "Unterminated multi line comment"

  /** A token's kind and text, before its position is attached. */
  datatype Lexeme = Lexeme(kind: TokenType, text: string)

  /** One scanner run: the characters consumed and the token emitted, if any. */
  datatype Step = Step(consumed: nat, emitted: Option<Lexeme>)

  /** The kinds no scanner emits: the end marker, which only `addEOFToken` adds, and the
      kinds declared for layout, noise words and the quote, which nothing produces. */
  predicate NeverScanned(k: TokenType)
  {
    k == EOF || k == Whitespace || k == NewLine || k == N_Noiseword || k == D_DoubleQuote
  }

  /** The test of the single-line comment loop: anything but a newline. */
  predicate NotNewline(c: string)
  {
    c != "\n"
  }

  /** `readWord`: the maximal run of letters, digits and `_` at the start of the rest, with
      the keyword table's entry for it as its kind, or Identifier. */
  function WordStep(rest: string): (st: Step)
    requires rest != [] && IsLetter([rest[0]])
    ensures 1 <= st.consumed <= |rest| && st.emitted.Some?
    ensures st.emitted.value.text == rest[..st.consumed]
    ensures forall i :: 0 <= i < st.consumed ==> IsAlphaNumeric([rest[i]])
    ensures st.consumed == |rest| || !IsAlphaNumeric([rest[st.consumed]])
    ensures st.emitted.value.kind == KeywordOrIdentifier(st.emitted.value.text, KEYWORDS)
    ensures !NeverScanned(st.emitted.value.kind)
  {
    var w := TakeWhile(rest, IsAlphaNumeric);
    WordRun(rest);
    WordKindScanned(w);
    Step(|w|, Some(Lexeme(KeywordOrIdentifier(w, KEYWORDS), w)))
  }

  /** A letter starts a word: a maximal run of at least one letter, digit or `_`. */
  lemma WordRun(rest: string)
    requires rest != [] && IsLetter([rest[0]])
    ensures var w := TakeWhile(rest, IsAlphaNumeric);
      1 <= |w| <= |rest| && w == rest[..|w|]
      && (forall i :: 0 <= i < |w| ==> IsAlphaNumeric([rest[i]]))
      && (|w| == |rest| || !IsAlphaNumeric([rest[|w|]]))
  {
    var w := TakeWhile(rest, IsAlphaNumeric);
    assert IsAlphaNumeric([rest[0]]);
    forall i | 0 <= i < |w| ensures IsAlphaNumeric([rest[i]]) {
      assert rest[i] == w[i];
    }
  }

  /** `readWord` as the source writes it passes the word to the lookup of
      backend/src/utils/utils.ts, which also finds the names inherited from
      `Object.prototype`. The kind `WordStep` emits is what that lookup answers exactly
      when the word is reserved or not one of those names. */
  lemma WordStepAsWritten(rest: string)
    requires rest != [] && IsLetter([rest[0]])
    ensures var e := WordStep(rest).emitted.value;
      KeywordOrIdentifierAsWritten(e.text, KEYWORDS) == Kind(e.kind)
      <==> (e.text !in ObjectPrototypeMembers || e.text in KEYWORDS)
    ensures var e := WordStep(rest).emitted.value; e.text != [] && IsLetter([e.text[0]])
  {
    var e := WordStep(rest).emitted.value;
    if e.text !in ObjectPrototypeMembers || e.text in KEYWORDS {
      AsWrittenAgreesOffPrototype(e.text, KEYWORDS);
    }
  }

  /** On `toString x` the model's first token is the Identifier `toString`, where the
      lookup as written answers the inherited `toString` function. */
  lemma WordStepOnInheritedName()
    ensures WordStep("toString x") == Step(8, Some(Lexeme(Identifier, "toString")))
    ensures KeywordOrIdentifierAsWritten("toString", KEYWORDS) != Kind(Identifier)
  {
    ReadsToString();
    InheritedMemberIsNotAKind();
  }

  /** The word run of `toString x` is `toString`. */
  lemma ReadsToString()
    ensures TakeWhile("toString x", IsAlphaNumeric) == "toString"
  {
    var rest := "toString x";
    assert !IsAlphaNumeric([rest[8]]);
    forall i | 0 <= i < 8 ensures IsAlphaNumeric([rest[i]]) {
    }
    TakeWhileUnique(rest, IsAlphaNumeric, 8);
    assert rest[..8] == "toString";
  }

  /** A word's kind is one the scanner produces. */
  lemma WordKindScanned(w: string)
    ensures !NeverScanned(KeywordOrIdentifier(w, KEYWORDS))
  {
    if w in KEYWORDS {
      KeywordKinds();
      var k := KEYWORDS[w];
      assert k !in {Identifier, NumberLiteral, TextLiteral, BooleanLiteral, N_Noiseword,
                    SingleLineComment, MultiLineComment, NewLine, Whitespace, EOF, Error};
    }
  }

  /** `scanNumber`: a digit run, extended by `.` and a second digit run only when the `.` is
      directly followed by a digit. */
  function NumberStep(rest: string): (st: Step)
    requires rest != [] && IsDigit([rest[0]])
    ensures 1 <= st.consumed <= |rest| && st.emitted.Some?
    ensures st.emitted.value == Lexeme(NumberLiteral, rest[..st.consumed])
  {
    var d := TakeWhile(rest, IsDigit);
    if CharAt(rest, |d|) == '.' && IsDigit([CharAt(rest, |d| + 1)]) then
      var f := TakeWhile(rest[|d| + 1..], IsDigit);
      assert rest[..|d| + 1 + |f|] == d + "." + f;
      Step(|d| + 1 + |f|, Some(Lexeme(NumberLiteral, d + "." + f)))
    else
      Step(|d|, Some(Lexeme(NumberLiteral, d)))
  }

  /** `scanString`: the opening quote, the raw text up to the next `"`, and that closing quote;
      without one, the rest of the input and an Error token carrying the reader's message. */
  function StringStep(rest: string): (st: Step)
    requires rest != [] && rest[0] == '"'
    ensures 1 <= st.consumed <= |rest| && st.emitted.Some?
    ensures st.emitted.value.kind == TextLiteral || st.emitted.value == Lexeme(Error, StreamReaders.UnterminatedString)
  {
    var body := TakeWhile(rest[1..], StreamReaders.NotQuote);
    if 1 + |body| < |rest| then Step(|body| + 2, Some(Lexeme(TextLiteral, body)))
    else Step(|rest|, Some(Lexeme(Error, StreamReaders.UnterminatedString)))
  }

  /** The first `j >= from` where `s` holds two consecutive tildes. */
  function FirstTildePair(s: string, from: nat): (r: Option<nat>)
    ensures r.Some? ==> from <= r.value && r.value + 1 < |s| && s[r.value] == '~' && s[r.value + 1] == '~'
    ensures r.Some? ==> forall k :: from <= k < r.value ==> !(s[k] == '~' && s[k + 1] == '~')
    ensures r.None? ==> forall k :: from <= k && k + 1 < |s| ==> !(s[k] == '~' && s[k + 1] == '~')
    decreases |s| - from
  {
    if from + 1 >= |s| then None
    else if s[from] == '~' && s[from + 1] == '~' then Some(from)
    else FirstTildePair(s, from + 1)
  }

  /** `scanComment`. After `~~`, a single-line comment runs up to (not including) the next
      newline. After a lone `~`, the depth counter of the source closes the comment at the
      first `~~` that follows the opener; if there is none the rest of the input is consumed
      and an Error token is emitted. */
  function CommentStep(rest: string): (st: Step)
    requires rest != [] && rest[0] == '~'
    ensures 1 <= st.consumed <= |rest| && st.emitted.Some?
    ensures st.emitted.value.kind in {SingleLineComment, MultiLineComment, Error}
  {
    if CharAt(rest, 1) == '~' then
      var text := TakeWhile(rest[2..], NotNewline);
      Step(2 + |text|, Some(Lexeme(SingleLineComment, "~~" + text)))
    else
      match FirstTildePair(rest, 1)
      case Some(j) => Step(j + 2, Some(Lexeme(MultiLineComment, rest[..j + 2])))
      case None => Step(|rest|, Some(Lexeme(Error, UnterminatedComment)))
  }

  /** `scanOperator`: `==`, `!=`, `<=`, `>=`, `&&` and `||` when the second character
      follows, otherwise the one-character operator; a lone `&` or `|` is an Error. */
  function OperatorStep(rest: string): (st: Step)
    requires rest != []
    ensures 1 <= st.consumed <= 2 && st.consumed <= |rest| && st.emitted.Some?
    ensures !NeverScanned(st.emitted.value.kind)
  {
    var next := CharAt(rest, 1);
    match rest[0]
    case '=' => if next == '=' then Step(2, Some(Lexeme(OP_EqualTo, "=="))) else Step(1, Some(Lexeme(OP_Assign, "=")))
    case '!' => if next == '=' then Step(2, Some(Lexeme(OP_NotEqual, "!="))) else Step(1, Some(Lexeme(OP_Logical_Not, "!")))
    case '<' => if next == '=' then Step(2, Some(Lexeme(OP_Less_Equal, "<="))) else Step(1, Some(Lexeme(OP_Less_Than, "<")))
    case '>' => if next == '=' then Step(2, Some(Lexeme(OP_Greater_Equal, ">="))) else Step(1, Some(Lexeme(OP_Greater_Than, ">")))
    case '&' => if next == '&' then Step(2, Some(Lexeme(OP_Logical_And, "&&"))) else Step(1, Some(Lexeme(Error, "&")))
    case '|' => if next == '|' then Step(2, Some(Lexeme(OP_Logical_Or, "||"))) else Step(1, Some(Lexeme(Error, "|")))
    case '+' => Step(1, Some(Lexeme(OP_Plus, "+")))
    case '-' => Step(1, Some(Lexeme(OP_Minus, "-")))
    case '*' => Step(1, Some(Lexeme(OP_Asterisk, "*")))
    case '/' => Step(1, Some(Lexeme(OP_Slash, "/")))
    case '%' => Step(1, Some(Lexeme(OP_Modulo, "%")))
    case '^' => Step(1, Some(Lexeme(OP_Caret, "^")))
    case _ => Step(1, Some(Lexeme(Error, [rest[0]])))
  }

  /** `scanDelimiter`: one character, one token. */
  function DelimiterStep(rest: string): (st: Step)
    requires rest != []
    ensures st.consumed == 1 && st.emitted.Some? && st.emitted.value.text == [rest[0]]
    ensures !NeverScanned(st.emitted.value.kind)
  {
    var kind := match rest[0]
      case '(' => D_LParen
      case ')' => D_RParen
      case '{' => D_LBrace
      case '}' => D_RBrace
      case '[' => D_LBracket
      case ']' => D_RBracket
      case ':' => D_Colon
      case ';' => D_Semicolon
      case ',' => D_Comma
      case '.' => D_Dot
      case _ => Error;
    Step(1, Some(Lexeme(kind, [rest[0]])))
  }

  /** One turn of the `tokenize` loop: whitespace is skipped one character at a time, the
      first character picks the scanner, and a character no scanner takes becomes an Error
      token of its own. Every turn consumes at least one character. */
  function NextStep(rest: string): (st: Step)
    requires rest != []
    ensures 1 <= st.consumed <= |rest|
    ensures st.emitted.Some? ==> !NeverScanned(st.emitted.value.kind)
  {
    var ch := rest[0];
    if IsWhitespace([ch]) then Step(1, None)
    else if IsLetter([ch]) then WordStep(rest)
    else if IsDigit([ch]) then NumberStep(rest)
    else if ch == '"' then StringStep(rest)
    else if ch == '~' then CommentStep(rest)
    else if IsOperatorChar([ch]) then OperatorStep(rest)
    else if IsDelimiterChar([ch]) then DelimiterStep(rest)
    else Step(1, Some(Lexeme(Error, [ch])))
  }

  /** The two outcomes of `scanNumber`, in terms of the runs the method reads. */
  lemma NumberStepWhole(rest: string, d: string)
    requires rest != [] && IsDigit([rest[0]]) && d == TakeWhile(rest, IsDigit)
    requires !(CharAt(rest, |d|) == '.' && IsDigit([CharAt(rest, |d| + 1)]))
    ensures NumberStep(rest) == Step(|d|, Some(Lexeme(NumberLiteral, d)))
  {
  }

  lemma NumberStepFraction(rest: string, d: string, f: string)
    requires rest != [] && IsDigit([rest[0]]) && d == TakeWhile(rest, IsDigit)
    requires CharAt(rest, |d|) == '.' && IsDigit([CharAt(rest, |d| + 1)])
    requires f == TakeWhile(rest[|d| + 1..], IsDigit)
    ensures |d| + 1 + |f| <= |rest| && rest[..|d| + 1 + |f|] == d + "." + f
    ensures NumberStep(rest) == Step(|d| + 1 + |f|, Some(Lexeme(NumberLiteral, d + "." + f)))
  {
    FractionPrefix(rest, d, f);
  }

  /** The digits, the dot and the fraction digits are the first characters of `rest`. */
  lemma FractionPrefix(rest: string, d: string, f: string)
    requires |d| < |rest| && d == rest[..|d|] && rest[|d|] == '.'
    requires f == TakeWhile(rest[|d| + 1..], IsDigit)
    ensures |d| + 1 + |f| <= |rest| && rest[..|d| + 1 + |f|] == d + "." + f
  {
    PrefixConcat(rest, d, ".");
    assert f == rest[|d| + 1..][..|f|];
    PrefixConcat(rest, d + ".", f);
  }

  /** The two outcomes of `scanString`, in terms of what `readString` reads after the quote. */
  lemma StringStepClosed(rest: string, value: string)
    requires rest != [] && rest[0] == '"' && '"' in rest[1..]
    requires value == TakeWhile(rest[1..], StreamReaders.NotQuote)
    ensures |value| + 2 <= |rest| && rest[..|value| + 2] == [rest[0]] + (value + "\"")
    ensures StringStep(rest) == Step(|value| + 2, Some(Lexeme(TextLiteral, value)))
  {
    var k :| 0 <= k < |rest[1..]| && rest[1..][k] == '"';
    assert forall i :: 0 <= i < |value| ==> rest[1..][i] == value[i] && value[i] != '"';
    assert |value| <= k;
    assert rest[1..][|value|] == '"';
    PrefixConcat(rest, [rest[0]], value);
    PrefixConcat(rest, [rest[0]] + value, [rest[|value| + 1]]);
    assert [rest[0]] + value + [rest[|value| + 1]] == [rest[0]] + (value + "\"");
  }

  lemma StringStepUnterminated(rest: string)
    requires rest != [] && rest[0] == '"' && '"' !in rest[1..]
    ensures StringStep(rest) == Step(|rest|, Some(Lexeme(Error, StreamReaders.UnterminatedString)))
  {
  }

  /** The three outcomes of `scanComment`. */
  lemma CommentStepSingleLine(rest: string, text: string)
    requires |rest| >= 2 && rest[0] == '~' && rest[1] == '~'
    requires text == TakeWhile(rest[2..], NotNewline)
    ensures 2 + |text| <= |rest| && rest[..2 + |text|] == "~~" + text
    ensures CommentStep(rest) == Step(2 + |text|, Some(Lexeme(SingleLineComment, "~~" + text)))
  {
    PrefixConcat(rest, rest[..2], text);
    assert rest[..2] == "~~";
  }

  lemma CommentStepClosed(rest: string, j: nat)
    requires rest != [] && rest[0] == '~' && CharAt(rest, 1) != '~'
    requires 1 <= j && j + 1 < |rest| && rest[j] == '~' && rest[j + 1] == '~'
    requires forall k :: 1 <= k < j ==> !(rest[k] == '~' && rest[k + 1] == '~')
    ensures CommentStep(rest) == Step(j + 2, Some(Lexeme(MultiLineComment, rest[..j + 2])))
  {
    assert FirstTildePair(rest, 1) == Some(j);
  }

  lemma CommentStepUnterminated(rest: string)
    requires rest != [] && rest[0] == '~' && CharAt(rest, 1) != '~'
    requires forall k :: 1 <= k && k + 1 < |rest| ==> !(rest[k] == '~' && rest[k + 1] == '~')
    ensures CommentStep(rest) == Step(|rest|, Some(Lexeme(Error, UnterminatedComment)))
  {
    assert FirstTildePair(rest, 1) == None;
  }

  /** No `~~` pair starts at a position `k` with `1 <= k` and `k + 1 < n`. */
  ghost predicate NoPairBelow(rest: string, n: nat)
    requires n <= |rest|
  {
    forall k :: 1 <= k && k + 1 < n ==> !(rest[k] == '~' && rest[k + 1] == '~')
  }

  /** The source's depth counter once the first `n` characters of a multi-line comment are
      read: 1 right after a `~` that is not the opener, 2 when the next character is a `~`,
      1 otherwise. */
  ghost function CommentDepth(rest: string, n: nat): int
    requires 1 <= n <= |rest|
  {
    if 2 <= n && rest[n - 1] == '~' then 1 else if CharAt(rest, n) == '~' then 2 else 1
  }

  /** One turn of the multi-line loop: reading a `~` at depth 1 closes a pair, otherwise the
      counter and the "no pair yet" fact move on to `n + 1`. */
  lemma CommentDepthStep(rest: string, n: nat)
    requires 1 <= n < |rest| && NoPairBelow(rest, n)
    ensures rest[n] == '~' && CommentDepth(rest, n) == 1 ==> 2 <= n && rest[n - 1] == '~'
    ensures rest[n] == '~' && CommentDepth(rest, n) != 1 ==>
      CommentDepth(rest, n) == 2 && CommentDepth(rest, n + 1) == 1 && NoPairBelow(rest, n + 1)
    ensures rest[n] != '~' ==>
      CommentDepth(rest, n) == 1 && NoPairBelow(rest, n + 1)
      && CommentDepth(rest, n + 1) == (if CharAt(rest, n + 1) == '~' then 2 else 1)
  {
  }

  /** Every character of `s` is an ASCII digit. */
  predicate AllDigits(s: string)
  {
    forall i :: 0 <= i < |s| ==> IsDigit([s[i]])
  }

  /** The shape of a number literal: a digit run, optionally followed by `.` and a second
      digit run. */
  predicate IsNumeral(t: string)
  {
    (t != [] && AllDigits(t))
    || exists k :: 0 < k < |t| - 1 && t[k] == '.' && AllDigits(t[..k]) && AllDigits(t[k + 1..])
  }

  /** A number is a numeral read as far as it goes: the next character is not a digit, and
      a numeral without a fraction stops only where no `.` followed by a digit comes next. */
  lemma NumberStepReadsNumeral(rest: string)
    requires rest != [] && IsDigit([rest[0]])
    ensures IsNumeral(NumberStep(rest).emitted.value.text)
    ensures NumberStep(rest).consumed == |rest| || !IsDigit([rest[NumberStep(rest).consumed]])
    ensures '.' !in NumberStep(rest).emitted.value.text ==>
      !(CharAt(rest, NumberStep(rest).consumed) == '.' && IsDigit([CharAt(rest, NumberStep(rest).consumed + 1)]))
  {
    var d := TakeWhile(rest, IsDigit);
    var t := NumberStep(rest).emitted.value.text;
    if CharAt(rest, |d|) == '.' && IsDigit([CharAt(rest, |d| + 1)]) {
      var f := TakeWhile(rest[|d| + 1..], IsDigit);
      assert t == d + "." + f;
      assert t[..|d|] == d && t[|d| + 1..] == f;
      assert '.' in t;
    } else {
      assert t == d;
      assert forall k :: 0 <= k < |t| ==> t[k] != '.';
    }
  }

  /** A string literal is read up to the next `"`: there is one exactly when a TextLiteral
      is emitted, whose text is everything between the quotes. Without one, the whole rest is
      consumed and the Error token carries the reader's message. */
  lemma StringStepReadsLiteral(rest: string)
    requires rest != [] && rest[0] == '"'
    ensures StringStep(rest).emitted.value.kind == TextLiteral <==> '"' in rest[1..]
    ensures StringStep(rest).emitted.value.kind == TextLiteral ==>
      var n := StringStep(rest).consumed;
      2 <= n && rest[n - 1] == '"' && StringStep(rest).emitted.value.text == rest[1..n - 1]
      && '"' !in StringStep(rest).emitted.value.text
    ensures StringStep(rest).emitted.value.kind == Error ==>
      StringStep(rest).consumed == |rest| && StringStep(rest).emitted.value.text == StreamReaders.UnterminatedString
  {
    var body := TakeWhile(rest[1..], StreamReaders.NotQuote);
    assert forall i :: 0 <= i < |body| ==> body[i] != '"';
    if 1 + |body| < |rest| {
      assert rest[1..][|body|] == '"';
    } else {
      assert body == rest[1..];
    }
  }

  /** `~~` starts a comment that runs up to, and not including, the next newline. */
  lemma SingleLineCommentReadsLine(rest: string)
    requires |rest| >= 2 && rest[0] == '~' && rest[1] == '~'
    ensures CommentStep(rest).emitted.value.kind == SingleLineComment
    ensures CommentStep(rest).emitted.value.text == rest[..CommentStep(rest).consumed]
    ensures '\n' !in CommentStep(rest).emitted.value.text
    ensures CommentStep(rest).consumed == |rest| || rest[CommentStep(rest).consumed] == '\n'
  {
    var text := TakeWhile(rest[2..], NotNewline);
    assert "~~" + text == rest[..2 + |text|];
    assert forall i :: 0 <= i < |text| ==> text[i] != '\n';
  }

  /** After a lone `~`, the comment is the text up to and including the first `~~` that
      follows the opener; there is a MultiLineComment exactly when such a pair exists, and
      otherwise the whole rest is consumed and an Error token is emitted. */
  lemma MultiLineCommentClosesAtFirstPair(rest: string)
    requires rest != [] && rest[0] == '~' && CharAt(rest, 1) != '~'
    ensures CommentStep(rest).emitted.value.kind == MultiLineComment <==>
      exists k :: 1 <= k && k + 1 < |rest| && rest[k] == '~' && rest[k + 1] == '~'
    ensures CommentStep(rest).emitted.value.kind == MultiLineComment ==>
      var n := CommentStep(rest).consumed;
      4 <= n && CommentStep(rest).emitted.value.text == rest[..n] && rest[n - 2] == '~' && rest[n - 1] == '~'
      && forall k :: 1 <= k && k + 2 < n ==> !(rest[k] == '~' && rest[k + 1] == '~')
    ensures CommentStep(rest).emitted.value.kind == Error ==>
      CommentStep(rest).consumed == |rest| && CommentStep(rest).emitted.value.text == UnterminatedComment
  {
    match FirstTildePair(rest, 1)
    case Some(j) =>
      assert j != 1;
    case None =>
  }

  /** `a` and `b` spell one of the two-character operators `==`, `!=`, `<=`, `>=`, `&&`, `||`. */
  predicate IsTwoCharOperator(a: char, b: char)
  {
    (a in "=!<>" && b == '=') || (a == '&' && b == '&') || (a == '|' && b == '|')
  }

  /** Operators are read with maximal munch: two characters exactly when they spell a
      two-character operator, one otherwise; the text is what was consumed. */
  lemma OperatorStepMaximalMunch(rest: string)
    requires rest != [] && IsOperatorChar([rest[0]])
    ensures OperatorStep(rest).consumed == 2 <==> IsTwoCharOperator(rest[0], CharAt(rest, 1))
    ensures OperatorStep(rest).emitted.value.text == rest[..OperatorStep(rest).consumed]
  {
    var st := OperatorStep(rest);
    if st.consumed == 2 {
      assert rest[..2] == [rest[0], rest[1]];
      assert st.emitted.value.text == [rest[0], rest[1]];
    } else {
      assert rest[..1] == [rest[0]];
      assert st.emitted.value.text == [rest[0]];
    }
  }

  /** The token is an Error exactly for a lone `&` or `|`. */
  lemma OperatorStepErrors(rest: string)
    requires rest != [] && IsOperatorChar([rest[0]])
    ensures OperatorStep(rest).emitted.value.kind == Error <==>
      (rest[0] == '&' || rest[0] == '|') && CharAt(rest, 1) != rest[0]
  {
  }

  /** A delimiter character gets its own kind; only a character outside the delimiter set
      would be an Error. */
  lemma DelimiterStepKinds(rest: string)
    requires rest != []
    ensures DelimiterStep(rest).emitted.value.kind == Error <==> !IsDelimiterChar([rest[0]])
  {
  }

  /** The enum comment at backend/src/types/Tokens.ts:82 (`~ comment block ~`) and the
      highlighter's pattern `~[^~]*~` at frontend/src/utils/syntaxHighlighter.tsx:20 both
      close a block at a single `~`. The scanner does not: a lone interior `~` raises the
      depth and the next character lowers it again, so only `~~` closes a comment and
      `~ a ~` is unterminated. */
  lemma LoneTildeDoesNotClose()
    ensures CommentStep("~ a ~") == Step(5, Some(Lexeme(Error, UnterminatedComment)))
    ensures CommentStep("~ a ~~ b") == Step(6, Some(Lexeme(MultiLineComment, "~ a ~~")))
  {
    assert FirstTildePair("~ a ~", 1) == None;
    assert FirstTildePair("~ a ~~ b", 1) == Some(4);
    assert "~ a ~~ b"[..6] == "~ a ~~";
  }

  /** Which scanner `NextStep` runs, by the class of the first character. */
  lemma NextStepCases(rest: string)
    requires rest != []
    ensures IsWhitespace([rest[0]]) ==> NextStep(rest) == Step(1, None)
    ensures IsLetter([rest[0]]) ==> NextStep(rest) == WordStep(rest)
    ensures IsDigit([rest[0]]) ==> NextStep(rest) == NumberStep(rest)
    ensures rest[0] == '"' ==> NextStep(rest) == StringStep(rest)
    ensures rest[0] == '~' ==> NextStep(rest) == CommentStep(rest)
    ensures IsOperatorChar([rest[0]]) ==> NextStep(rest) == OperatorStep(rest)
    ensures IsDelimiterChar([rest[0]]) ==> NextStep(rest) == DelimiterStep(rest)
    ensures !IsWhitespace([rest[0]]) && !IsLetter([rest[0]]) && !IsDigit([rest[0]]) && rest[0] != '"'
            && rest[0] != '~' && !IsOperatorChar([rest[0]]) && !IsDelimiterChar([rest[0]])
            ==> NextStep(rest) == Step(1, Some(Lexeme(Error, [rest[0]])))
  {
    DispatchClassesDisjoint(rest[0]);
  }

  /** The token a step emits, placed at the cursor where the step began. */
  function Emitted(st: Step, c: Cursor): seq<Token>
  {
    if st.emitted.Some? then [MakeToken(st.emitted.value.kind, st.emitted.value.text, c.line, c.column)]
    else []
  }

  /** A dispatch the `tokenize` loop can run: on every non-empty rest it is defined, it
      consumes at least one and at most all of the remaining characters, and it never emits
      a kind no scanner emits. */
  ghost predicate WellBehaved(step: string --> Step)
  {
    forall r :: r != [] ==>
      step.requires(r) && 1 <= step(r).consumed <= |r|
      && (step(r).emitted.Some? ==> !NeverScanned(step(r).emitted.value.kind))
  }

  /** The `tokenize` loop for a given dispatch, from cursor `c`: each turn runs `step` on the
      unread rest and emits its token at the turn's starting position; at the end of the
      input the EOF token is added at the final position. */
  function Run(src: string, c: Cursor, step: string --> Step): (ts: seq<Token>)
    requires WellBehaved(step)
    ensures |ts| >= 1
    decreases |src| - c.index
  {
    if c.index >= |src| then [MakeToken(EOF, "", c.line, c.column)]
    else
      var rest := src[c.index..];
      var st := step(rest);
      Emitted(st, c) + Run(src, MoveOver(c, rest[..st.consumed]), step)
  }

  /** The tokens of a whole source text, read from its start. */
  function Tokenize(src: string): seq<Token>
  {
    Run(src, Cursor(0, 1, 1), NextStep)
  }

  /** One turn of the loop: at a cursor inside the input, the output after `prefix` is the
      token of one step followed by the output from where that step stopped. */
  lemma RunStep(src: string, c: Cursor, step: string --> Step, prefix: seq<Token>)
    requires WellBehaved(step) && c.index < |src|
    ensures prefix + Run(src, c, step)
         == (prefix + Emitted(step(src[c.index..]), c))
            + Run(src, MoveOver(c, src[c.index..][..step(src[c.index..]).consumed]), step)
  {
  }

  /** The cursor reached after one step and then the rest of the input is the cursor
      reached after the whole rest of the input. */
  lemma EndCursorStep(src: string, c: Cursor, n: nat)
    requires c.index + n <= |src|
    ensures var c' := MoveOver(c, src[c.index..][..n]);
      MoveOver(c', Rest(src, c'.index)) == MoveOver(c, Rest(src, c.index))
  {
    var rest := src[c.index..];
    var c' := MoveOver(c, rest[..n]);
    assert Rest(src, c'.index) == rest[n..];
    assert rest[..n] + rest[n..] == rest;
    MoveOverAppend(c, rest[..n], rest[n..]);
  }

  /** The last element of `a + b`, for a non-empty `b`, is the last element of `b`. */
  lemma LastOfAppend(a: seq<Token>, b: seq<Token>)
    requires b != []
    ensures (a + b)[|a + b| - 1] == b[|b| - 1]
  {
  }

  /** The last token of the loop's output is the EOF token, with an empty lexeme, placed at
      the position the cursor reaches after reading the whole rest of the input. */
  lemma {:induction false} RunLast(src: string, c: Cursor, step: string --> Step)
    requires WellBehaved(step)
    ensures Run(src, c, step)[|Run(src, c, step)| - 1]
         == Token(EOF, "", MoveOver(c, Rest(src, c.index)).line, MoveOver(c, Rest(src, c.index)).column)
    decreases |src| - c.index
  {
    if c.index < |src| {
      var rest := src[c.index..];
      var st := step(rest);
      var c' := MoveOver(c, rest[..st.consumed]);
      RunLast(src, c', step);
      EndCursorStep(src, c, st.consumed);
      LastOfAppend(Emitted(st, c), Run(src, c', step));
    } else {
      assert Rest(src, c.index) == [];
    }
  }

  /** Every element of `a + b` but the last satisfies `ok` when every element of `a` and
      every element of `b` but its last do. */
  lemma AllButLastOfAppend(a: seq<Token>, b: seq<Token>, ok: Token -> bool)
    requires b != []
    requires forall i :: 0 <= i < |a| ==> ok(a[i])
    requires forall i :: 0 <= i < |b| - 1 ==> ok(b[i])
    ensures forall i :: 0 <= i < |a + b| - 1 ==> ok((a + b)[i])
  {
    forall i | 0 <= i < |a + b| - 1
      ensures ok((a + b)[i])
    {
      if i >= |a| {
        assert (a + b)[i] == b[i - |a|];
      }
    }
  }

  /** A token a scanner can emit. */
  predicate Scannable(t: Token)
  {
    !NeverScanned(t.kind)
  }

  /** No token before the last has a kind no scanner emits; in particular none is EOF. */
  lemma {:induction false} RunKinds(src: string, c: Cursor, step: string --> Step)
    requires WellBehaved(step)
    ensures forall i :: 0 <= i < |Run(src, c, step)| - 1 ==> !NeverScanned(Run(src, c, step)[i].kind)
    decreases |src| - c.index
  {
    if c.index < |src| {
      var rest := src[c.index..];
      var st := step(rest);
      var c' := MoveOver(c, rest[..st.consumed]);
      RunKinds(src, c', step);
      var tail := Run(src, c', step);
      var head := Emitted(st, c);
      assert forall i :: 0 <= i < |head| ==> Scannable(head[i]);
      assert forall i :: 0 <= i < |tail| - 1 ==> Scannable(tail[i]);
      AllButLastOfAppend(head, tail, Scannable);
      assert Run(src, c, step) == head + tail;
    }
  }

  /** The lexer's output ends with exactly one EOF token, with an empty lexeme, placed at the
      position after the whole input; no other token is EOF, Whitespace, NewLine,
      N_Noiseword or D_DoubleQuote. */
  lemma LexShape(src: string, c: Cursor)
    ensures Run(src, c, NextStep)[|Run(src, c, NextStep)| - 1]
         == Token(EOF, "", MoveOver(c, Rest(src, c.index)).line, MoveOver(c, Rest(src, c.index)).column)
    ensures forall i :: 0 <= i < |Run(src, c, NextStep)| - 1 ==> !NeverScanned(Run(src, c, NextStep)[i].kind)
  {
    NextStepWellBehaved();
    RunLast(src, c, NextStep);
    RunKinds(src, c, NextStep);
  }

  /** The whole-source form of `LexShape`: the last token is EOF and no other is. */
  lemma TokenizeShape(src: string)
    ensures var ts := Tokenize(src);
      ts != [] && ts[|ts| - 1].kind == EOF && forall i :: 0 <= i < |ts| - 1 ==> Scannable(ts[i])
  {
    LexShape(src, Cursor(0, 1, 1));
  }

  /** The lexer's dispatch is one the loop can run. */
  lemma NextStepWellBehaved()
    ensures WellBehaved(NextStep)
  {
    forall r | r != []
      ensures 1 <= NextStep(r).consumed <= |r|
      ensures NextStep(r).emitted.Some? ==> !NeverScanned(NextStep(r).emitted.value.kind)
    {
    }
  }

  /** Hence `removeWhitespace` and `removeNoiseWords` leave the lexer's output unchanged. */
  lemma LayoutFiltersAreNoOps(src: string)
    ensures RemoveWhitespace(Tokenize(src)) == Tokenize(src)
    ensures RemoveNoiseWords(Tokenize(src)) == Tokenize(src)
  {
    TokenizeShape(src);
    LayoutFree(Tokenize(src));
  }

  /** A token list shaped like the lexer's output has no Whitespace and no N_Noiseword
      token, so it passes both filters unchanged. */
  lemma LayoutFree(ts: seq<Token>)
    requires ts != [] && ts[|ts| - 1].kind == EOF && forall i :: 0 <= i < |ts| - 1 ==> Scannable(ts[i])
    ensures RemoveWhitespace(ts) == ts && RemoveNoiseWords(ts) == ts
  {
    forall i | 0 <= i < |ts|
      ensures NotWhitespace(ts[i]) && NotNoiseWord(ts[i])
    {
      if i < |ts| - 1 {
        assert Scannable(ts[i]);
      }
    }
    FilterKeepsAll(ts, NotWhitespace);
    FilterKeepsAll(ts, NotNoiseWord);
  }

  /** Removing the comments from the lexer's output keeps its final EOF token. */
  lemma RemoveCommentsKeepsEOF(src: string)
    ensures var r := RemoveComments(Tokenize(src));
      |r| >= 1 && r[|r| - 1] == Tokenize(src)[|Tokenize(src)| - 1] && r[|r| - 1].kind == EOF
  {
    TokenizeShape(src);
    ShapedKeepsEOF(Tokenize(src));
  }

  /** The same for any list whose last token is EOF. */
  lemma ShapedKeepsEOF(ts: seq<Token>)
    requires ts != [] && ts[|ts| - 1].kind == EOF
    ensures var r := RemoveComments(ts); |r| >= 1 && r[|r| - 1] == ts[|ts| - 1]
  {
    FilterKeepsLast(ts, NotComment);
  }

  /** A filter that keeps the last element of a list ends with it. */
  lemma FilterKeepsLast(ts: seq<Token>, keep: Token -> bool)
    requires ts != [] && keep(ts[|ts| - 1])
    ensures var r := Filter(ts, keep); r != [] && r[|r| - 1] == ts[|ts| - 1]
  {
    var n := |ts| - 1;
    assert ts == ts[..n] + [ts[n]];
    FilterAppend(ts[..n], [ts[n]], keep);
    assert Filter([ts[n]], keep) == [ts[n]] by {
      assert [ts[n]][1..] == [];
    }
  }
}
