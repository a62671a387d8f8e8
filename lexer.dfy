/** The lexer class of backend/src/lexer/kf_lexer.ts: it owns a `CharStream` and a growing
    token list. Every scanner method consumes exactly what the matching `LexSpec` step
    consumes and appends the token that step emits (`Took`), so `Tokenize` appends exactly
    `LexSpec.Run` of the unread input. */
module KfLexer {
  import opened Wrappers
  import opened CharClass
  import opened CharStreams
  import opened Tokens
  import opened TokenUtils
  import opened StreamReaders
  import opened LexSpec

  class Lexer {
    const stream: CharStream
    var tokens: seq<Token>

    ghost predicate Valid()
      reads this, stream
    {
      stream.Valid()
    }

    /** The unread rest of the source. */
    function Unread(): string
      reads this, stream
    {
      Rest(stream.src, stream.index)
    }

    /** Starting from cursor `c` over the unread text `rest`, with `before` as the token
        list, exactly the step `st` was taken: its characters are consumed and its token,
        if any, is appended at `c`. */
    ghost predicate Took(c: Cursor, rest: string, before: seq<Token>, st: Step)
      reads this, stream
    {
      st.consumed <= |rest| && tokens == before + Emitted(st, c)
      && stream.Cur() == MoveOver(c, rest[..st.consumed])
    }

    constructor (stream: CharStream)
      requires stream.Valid()
      ensures this.stream == stream && tokens == [] && Valid()
    {
      this.stream := stream;
      tokens := [];
    }

    /** Runs the dispatch loop to the end of the input, then adds the EOF token, and returns
        the whole token list. */
    method Tokenize() returns (ts: seq<Token>)
      requires Valid()
      modifies this, stream
      ensures Valid() && stream.IsEOF()
      ensures ts == tokens == old(tokens) + Run(stream.src, old(stream.Cur()), NextStep)
    {
      ghost var c0 := stream.Cur();
      NextStepWellBehaved();
      while !stream.IsEOF()
        invariant Valid()
        invariant tokens + Run(stream.src, stream.Cur(), NextStep) == old(tokens) + Run(stream.src, c0, NextStep)
        decreases |stream.src| - stream.index
      {
        ghost var c, rest, before := stream.Cur(), Unread(), tokens;
        ScanToken();
        assert rest == stream.src[c.index..];
        RunStep(stream.src, c, NextStep, before);
      }
      AddEOFToken();
      ts := tokens;
    }

    /** One turn of the `tokenize` loop: the current character picks the scanner; whitespace
        is skipped, and a character no scanner takes becomes an Error token of its own. */
    method ScanToken()
      requires Valid() && !stream.IsEOF()
      modifies this, stream
      ensures Valid() && Took(old(stream.Cur()), old(Unread()), old(tokens), NextStep(old(Unread())))
    {
      ghost var c, rest := stream.Cur(), Unread();
      var ch := stream.Peek();
      NextStepCases(rest);
      if IsWhitespace([ch]) {
        var _ := stream.Advance();
        MoveOverFirst(c, rest);
      } else if IsLetter([ch]) {
        ReadWord();
      } else if IsDigit([ch]) {
        ScanNumber();
      } else if ch == '"' {
        ScanString();
      } else if ch == '~' {
        ScanComment();
      } else if IsOperatorChar([ch]) {
        ScanOperator();
      } else if IsDelimiterChar([ch]) {
        ScanDelimiter();
      } else {
        AddErrorToken([ch]);
        var _ := stream.Advance();
        MoveOverFirst(c, rest);
      }
    }

    /** `readWord`: the maximal alphanumeric run, classified by the keyword table. */
    method ReadWord()
      requires Valid() && !stream.IsEOF() && IsLetter([stream.Peek()])
      modifies this, stream
      ensures Valid() && Took(old(stream.Cur()), old(Unread()), old(tokens), WordStep(old(Unread())))
    {
      var startLine, startColumn := stream.GetLine(), stream.GetColumn();
      var word := ReadIdentifier(stream);
      var kind := KeywordOrIdentifier(word, KEYWORDS);
      tokens := tokens + [MakeToken(kind, word, startLine, startColumn)];
    }

    /** `scanNumber`: a digit run, then `.` and a second digit run when a digit follows the
        `.`. */
    method ScanNumber()
      requires Valid() && !stream.IsEOF() && IsDigit([stream.Peek()])
      modifies this, stream
      ensures Valid() && Took(old(stream.Cur()), old(Unread()), old(tokens), NumberStep(old(Unread())))
    {
      ghost var c0, rest := stream.Cur(), Unread();
      var startLine, startColumn := stream.GetLine(), stream.GetColumn();
      var value := ReadNumber(stream);
      assert CharAt(rest, |value|) == stream.Peek() && CharAt(rest, |value| + 1) == stream.PeekNext();
      if stream.Peek() == '.' && IsDigit([stream.PeekNext()]) {
        ghost var digits := value;
        var dot := stream.Advance();
        assert dot == '.' && Unread() == rest[|digits| + 1..];
        var fraction := ReadNumber(stream);
        NumberStepFraction(rest, digits, fraction);
        MoveOverAround(c0, digits, dot, fraction);
        value := value + [dot] + fraction;
      } else {
        NumberStepWhole(rest, value);
      }
      ghost var st := NumberStep(rest);
      assert st == Step(|value|, Some(Lexeme(NumberLiteral, value)));
      assert stream.Cur() == MoveOver(c0, rest[..st.consumed]);
      tokens := tokens + [MakeToken(NumberLiteral, value, startLine, startColumn)];
      assert tokens == old(tokens) + Emitted(st, c0);
    }

    /** `addEOFToken`: the EOF token, with an empty lexeme, at the current position. */
    method AddEOFToken()
      requires Valid()
      modifies this
      ensures tokens == old(tokens) + [Token(EOF, "", stream.line, stream.column)]
    {
      tokens := tokens + [MakeToken(EOF, "", stream.GetLine(), stream.GetColumn())];
    }

    /** `addErrorToken`: an Error token carrying `ch` at the current position. */
    method AddErrorToken(ch: string)
      requires Valid()
      modifies this
      ensures tokens == old(tokens) + [Token(Error, ch, stream.line, stream.column)]
    {
      tokens := tokens + [MakeToken(Error, ch, stream.GetLine(), stream.GetColumn())];
    }

    /** `scanString`: the opening quote, then `readString`; its result becomes a TextLiteral
        and its failure an Error token carrying the failure's message, both placed at the
        opening quote. */
    method ScanString()
      requires Valid() && !stream.IsEOF() && stream.Peek() == '"'
      modifies this, stream
      ensures Valid() && Took(old(stream.Cur()), old(Unread()), old(tokens), StringStep(old(Unread())))
    {
      ghost var c0, rest := stream.Cur(), Unread();
      var startLine, startColumn := stream.GetLine(), stream.GetColumn();
      var quote := stream.Advance();
      assert Unread() == rest[1..];
      var r := ReadString(stream);
      match r {
        case Ok(value) =>
          StringStepClosed(rest, value);
          MoveOverCons(c0, quote, value + "\"");
          tokens := tokens + [MakeToken(TextLiteral, value, startLine, startColumn)];
        case Err(message) =>
          StringStepUnterminated(rest);
          MoveOverCons(c0, quote, rest[1..]);
          assert [quote] + rest[1..] == rest[..|rest|];
          tokens := tokens + [MakeToken(Error, message, startLine, startColumn)];
      }
    }

    /** `scanComment`: after `~~`, the rest of the line; after a lone `~`, the depth-counting
        loop of `ScanBlockComment`. */
    method ScanComment()
      requires Valid() && !stream.IsEOF() && stream.Peek() == '~'
      modifies this, stream
      ensures Valid() && Took(old(stream.Cur()), old(Unread()), old(tokens), CommentStep(old(Unread())))
    {
      ghost var c0, rest, t0 := stream.Cur(), Unread(), tokens;
      var startLine, startColumn := stream.GetLine(), stream.GetColumn();
      var opener := stream.Advance();
      assert CharAt(rest, 1) == stream.Peek();
      if stream.Peek() == '~' {
        var second := stream.Advance();
        assert Unread() == rest[2..];
        var text := ReadWhile(stream, NotNewline);
        CommentStepSingleLine(rest, text);
        MoveOverCons(c0, opener, [second]);
        MoveOverAppend(c0, [opener, second], text);
        assert [opener] + [second] == [opener, second] && [opener, second] + text == "~~" + text;
        tokens := tokens + [MakeToken(SingleLineComment, "~~" + text, startLine, startColumn)];
      } else {
        MoveOverFirst(c0, rest);
        ScanBlockComment(c0, rest, startLine, startColumn);
      }
    }

    /** The multi-line branch of `scanComment`, entered after the opening `~` of `rest`: the
        depth counter closes the comment at the first `~~` after the opener, and the end of
        the input yields an Error token. */
    method ScanBlockComment(ghost c0: Cursor, ghost rest: string, startLine: nat, startColumn: nat)
      requires Valid() && rest != [] && rest[0] == '~' && CharAt(rest, 1) != '~'
      requires startLine == c0.line && startColumn == c0.column
      requires c0.index + 1 == stream.index && rest == Rest(stream.src, c0.index)
      requires stream.Cur() == MoveOver(c0, rest[..1])
      modifies this, stream
      ensures Valid() && Took(c0, rest, old(tokens), CommentStep(rest))
    {
      var value := "~";
      var depth := 1;
      assert value == rest[..1];
      while !stream.IsEOF()
        invariant Valid() && tokens == old(tokens)
        invariant 1 <= |value| <= |rest| && stream.index == c0.index + |value|
        invariant value == rest[..|value|] && stream.Cur() == MoveOver(c0, value)
        invariant depth == CommentDepth(rest, |value|) && NoPairBelow(rest, |value|)
        decreases |stream.src| - stream.index
      {
        var ch := stream.Peek();
        ghost var n := |value|;
        assert ch == rest[n];
        assert rest[..n + 1] == value + [ch];
        MoveOverSnoc(c0, value, ch);
        CommentDepthStep(rest, n);
        if ch == '~' {
          var c := stream.Advance();
          value := value + [c];
          depth := depth - 1;
          if depth == 0 {
            CommentStepClosed(rest, n - 1);
            tokens := tokens + [MakeToken(MultiLineComment, value, startLine, startColumn)];
            assert Took(c0, rest, old(tokens), CommentStep(rest));
            return;
          }
        } else {
          var c := stream.Advance();
          value := value + [c];
          assert CharAt(rest, n + 1) == stream.Peek();
          if stream.Peek() == '~' {
            depth := depth + 1;
          }
        }
      }
      assert value == rest[..|rest|];
      CommentStepUnterminated(rest);
      tokens := tokens + [MakeToken(Error, "Unterminated multi line comment", startLine, startColumn)];
    }

    /** `scanOperator`: the first character, extended by a matching second one for `==`,
        `!=`, `<=`, `>=`, `&&` and `||`. */
    method ScanOperator()
      requires Valid() && !stream.IsEOF()
      modifies this, stream
      ensures Valid() && Took(old(stream.Cur()), old(Unread()), old(tokens), OperatorStep(old(Unread())))
    {
      ghost var c0, rest := stream.Cur(), Unread();
      var startLine, startColumn := stream.GetLine(), stream.GetColumn();
      var ch := stream.Advance();
      MoveOverFirst(c0, rest);
      assert CharAt(rest, 1) == stream.Peek();
      var kind: TokenType;
      var lexeme := [ch];
      var second: char;
      var matched := false;
      match ch {
        case '=' =>
          second := '=';
          matched := stream.Match(second);
          if matched { kind, lexeme := OP_EqualTo, "=="; } else { kind := OP_Assign; }
        case '!' =>
          second := '=';
          matched := stream.Match(second);
          if matched { kind, lexeme := OP_NotEqual, "!="; } else { kind := OP_Logical_Not; }
        case '<' =>
          second := '=';
          matched := stream.Match(second);
          if matched { kind, lexeme := OP_Less_Equal, "<="; } else { kind := OP_Less_Than; }
        case '>' =>
          second := '=';
          matched := stream.Match(second);
          if matched { kind, lexeme := OP_Greater_Equal, ">="; } else { kind := OP_Greater_Than; }
        case '&' =>
          second := '&';
          matched := stream.Match(second);
          if matched { kind, lexeme := OP_Logical_And, "&&"; } else { kind, lexeme := Error, [ch]; }
        case '|' =>
          second := '|';
          matched := stream.Match(second);
          if matched { kind, lexeme := OP_Logical_Or, "||"; } else { kind, lexeme := Error, [ch]; }
        case '+' => kind := OP_Plus;
        case '-' => kind := OP_Minus;
        case '*' => kind := OP_Asterisk;
        case '/' => kind := OP_Slash;
        case '%' => kind := OP_Modulo;
        case '^' => kind := OP_Caret;
        case _ => kind := Error;
      }
      if matched {
        MoveOverSnoc(c0, rest[..1], second);
        assert rest[..2] == rest[..1] + [second];
      }
      tokens := tokens + [MakeToken(kind, lexeme, startLine, startColumn)];
    }

    /** `scanDelimiter`: one character, one token. */
    method ScanDelimiter()
      requires Valid() && !stream.IsEOF()
      modifies this, stream
      ensures Valid() && Took(old(stream.Cur()), old(Unread()), old(tokens), DelimiterStep(old(Unread())))
    {
      ghost var c0, rest := stream.Cur(), Unread();
      var startLine, startColumn := stream.GetLine(), stream.GetColumn();
      var ch := stream.Advance();
      MoveOverFirst(c0, rest);
      var kind := match ch
        case '(' => D_LParen
        case ')' => D_RParen
        case '{' => D_LBrace
        case '}' => D_RBrace
        case '[' => D_LBracket
        case ']' => D_RBracket
        case ':' => D_Colon
        case ';' => D_Semicolon
        case ',' => D_Comma
        case '.' => D_Dot
        case _ => Error;
      tokens := tokens + [MakeToken(kind, [ch], startLine, startColumn)];
    }
  }
}
