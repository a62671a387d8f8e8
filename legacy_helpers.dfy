/** The older helper file backend/src/helpers.ts. Its classifiers are the same expressions
    as those of `CharClass` (its `isWhitespace` tests `c.length === 0` where the newer one
    tests `!c`, which agree on every string), and its `CharStream` is the same class as
    `CharStreams.CharStream` except for `skipWhitespace`, which has no end-of-input guard.
    What differs is modelled here: the token factory and the comment filter over the older
    token kinds, and the unguarded whitespace loop. */
module LegacyHelpers {
  import opened CharClass
  import opened CharStreams
  import opened LegacyTokens
  import opened Seqs

  /** The older token record with the four given fields. */
  function MakeToken(kind: TokenType, lexeme: string, line: int, column: int): (t: Token)
    ensures t.kind == kind && t.lexeme == lexeme && t.line == line && t.column == column
  {
    Token(kind, lexeme, line, column)
  }

  predicate IsComment(t: Token)
  {
    t.kind == SingleLineComment || t.kind == MultiLineComment
  }

  predicate NotComment(t: Token)
  {
    !IsComment(t)
  }

  /** The tokens that are not comments, in order. */
  function RemoveComments(tokens: seq<Token>): (r: seq<Token>)
    ensures forall i :: 0 <= i < |r| ==> !IsComment(r[i])
  {
    Filter(tokens, NotComment)
  }

  /** The older `removeComments` drops exactly the comments, keeps every other token as often
      as it occurs and in its order, and removing twice is removing once. */
  lemma RemoveCommentsKeepsTheRest(tokens: seq<Token>)
    ensures forall t :: multiset(RemoveComments(tokens))[t] == if IsComment(t) then 0 else multiset(tokens)[t]
    ensures IsSubsequence(RemoveComments(tokens), tokens)
    ensures RemoveComments(RemoveComments(tokens)) == RemoveComments(tokens)
  {
    FilterCounts(tokens, NotComment);
    FilterIsSubsequence(tokens, NotComment);
    FilterIdempotent(tokens, NotComment);
  }

  /** A whitespace character is never the sentinel, so `peek()` returning whitespace means
      the cursor is inside the input. */
  lemma WhitespaceIsInside(src: string, i: nat)
    requires IsWhitespace([CharAt(src, i)])
    ensures i < |src|
  {
    SentinelIsUnclassified();
  }

  /** The older `skipWhitespace`: `while (isWhitespace(this.peek())) this.advance();`. It
      still stops at the end of the input, because the sentinel `peek()` returns there is
      not whitespace, and it consumes exactly what the guarded loop consumes. */
  method SkipWhitespaceUnguarded(stream: CharStream)
    requires stream.Valid()
    modifies stream
    ensures stream.Valid()
    ensures stream.Cur() == MoveOver(old(stream.Cur()), TakeWhile(Rest(stream.src, old(stream.index)), IsWhitespace))
    ensures !IsWhitespace([stream.Peek()])
  {
    ghost var c0 := stream.Cur();
    ghost var rest := Rest(stream.src, stream.index);
    ghost var skipped: string := [];
    while IsWhitespace([stream.Peek()])
      invariant stream.Valid()
      invariant stream.index == c0.index + |skipped|
      invariant |skipped| <= |rest| && skipped == rest[..|skipped|]
      invariant |skipped| > 0 ==> c0.index < |stream.src|
      invariant forall i :: 0 <= i < |skipped| ==> IsWhitespace([skipped[i]])
      invariant stream.Cur() == MoveOver(c0, skipped)
      decreases |stream.src| - stream.index
    {
      WhitespaceIsInside(stream.src, stream.index);
      assert rest[|skipped|] == stream.src[stream.index];
      var ch := stream.Advance();
      assert (skipped + [ch])[..|skipped|] == skipped;
      skipped := skipped + [ch];
    }
    assert stream.index < |stream.src| ==> rest[|skipped|] == stream.src[stream.index];
    TakeWhileUnique(rest, IsWhitespace, |skipped|);
  }
}
