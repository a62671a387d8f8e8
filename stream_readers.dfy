/** The readers of backend/src/utils/helpers.ts: loops that consume a maximal run from the
    cursor and return the characters they consumed. */
module StreamReaders {
  import opened Wrappers
  import opened CharClass
  import opened CharStreams

  /** The message `readString` throws. */
  const UnterminatedString: string := "Unterminated string literal"

  /** The test `readString` loops on: anything but a double quote. */
  predicate NotQuote(c: string)
  {
    c != "\""
  }

  /** Consumes and returns the maximal run of characters satisfying `cond`. */
  method ReadWhile(stream: CharStream, cond: string -> bool) returns (result: string)
    requires stream.Valid()
    modifies stream
    ensures stream.Valid()
    ensures result == TakeWhile(Rest(stream.src, old(stream.index)), cond)
    ensures stream.Cur() == MoveOver(old(stream.Cur()), result)
    ensures stream.IsEOF() || !cond([stream.Peek()])
  {
    ghost var c0 := stream.Cur();
    ghost var rest := Rest(stream.src, stream.index);
    result := "";
    while !stream.IsEOF() && cond([stream.Peek()])
      invariant stream.Valid()
      invariant stream.index == c0.index + |result|
      invariant |result| <= |rest| && result == rest[..|result|]
      invariant |result| > 0 ==> c0.index < |stream.src|
      invariant forall i :: 0 <= i < |result| ==> cond([result[i]])
      invariant stream.Cur() == MoveOver(c0, result)
      decreases |stream.src| - stream.index
    {
      assert rest[|result|] == stream.src[stream.index];
      var ch := stream.Advance();
      assert (result + [ch])[..|result|] == result;
      result := result + [ch];
    }
    assert stream.index < |stream.src| ==> rest[|result|] == stream.src[stream.index];
    TakeWhileUnique(rest, cond, |result|);
  }

  /** The maximal run of letters, digits and `_`. */
  method ReadIdentifier(stream: CharStream) returns (result: string)
    requires stream.Valid()
    modifies stream
    ensures stream.Valid()
    ensures result == TakeWhile(Rest(stream.src, old(stream.index)), IsAlphaNumeric)
    ensures stream.Cur() == MoveOver(old(stream.Cur()), result)
    ensures forall i :: 0 <= i < |result| ==> IsAlphaNumeric([result[i]])
    ensures stream.IsEOF() || !IsAlphaNumeric([stream.Peek()])
  {
    result := ReadWhile(stream, IsAlphaNumeric);
  }

  /** The maximal run of ASCII digits. */
  method ReadNumber(stream: CharStream) returns (result: string)
    requires stream.Valid()
    modifies stream
    ensures stream.Valid()
    ensures result == TakeWhile(Rest(stream.src, old(stream.index)), IsDigit)
    ensures stream.Cur() == MoveOver(old(stream.Cur()), result)
    ensures forall i :: 0 <= i < |result| ==> '0' <= result[i] <= '9'
    ensures stream.IsEOF() || !IsDigit([stream.Peek()])
  {
    result := ReadWhile(stream, IsDigit);
  }

  /** Reads the body of a string literal whose opening quote is already consumed: the text
      up to the next `"`, taken verbatim (no escape is interpreted), and then the closing
      quote. Without a closing quote it consumes the rest of the input and fails with
      "Unterminated string literal". */
  method ReadString(stream: CharStream) returns (r: Result<string, string>)
    requires stream.Valid()
    modifies stream
    ensures stream.Valid()
    ensures r.Ok? <==> '"' in Rest(stream.src, old(stream.index))
    ensures r.Ok? ==> r.value == TakeWhile(Rest(stream.src, old(stream.index)), NotQuote)
                      && '"' !in r.value
                      && stream.Cur() == MoveOver(old(stream.Cur()), r.value + "\"")
    ensures r.Err? ==> r.error == UnterminatedString
                       && stream.Cur() == MoveOver(old(stream.Cur()), Rest(stream.src, old(stream.index)))
  {
    ghost var c0 := stream.Cur();
    ghost var rest := Rest(stream.src, stream.index);
    var value := "";
    while !stream.IsEOF() && stream.Peek() != '"'
      invariant stream.Valid()
      invariant stream.index == c0.index + |value|
      invariant |value| <= |rest| && value == rest[..|value|]
      invariant |value| > 0 ==> c0.index < |stream.src|
      invariant forall i :: 0 <= i < |value| ==> value[i] != '"'
      invariant stream.Cur() == MoveOver(c0, value)
      decreases |stream.src| - stream.index
    {
      assert rest[|value|] == stream.src[stream.index];
      var ch := stream.Advance();
      assert (value + [ch])[..|value|] == value;
      value := value + [ch];
    }
    assert stream.index < |stream.src| ==> rest[|value|] == stream.src[stream.index];
    TakeWhileUnique(rest, NotQuote, |value|);
    if stream.IsEOF() {
      assert value == rest;
      return Err(UnterminatedString);
    }
    assert rest[|value|] == '"';
    var _ := stream.Advance();
    MoveOverAppend(c0, value, "\"");
    return Ok(value);
  }
}
