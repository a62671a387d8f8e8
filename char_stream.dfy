/** The source cursor of backend/src/utils/charStream.ts: a forward-only reader over the
    source text keeping the offset, the 1-based line and the 1-based column.
    Its behaviour is stated through the `Cursor` value it holds, the bookkeeping `Move`
    does for one consumed character, and `TakeWhile`, the maximal run a loop reads. */
module CharStreams {
  import opened CharClass

  /** What `peek`, `peekNext` and `advance` return past the end of the source. */
  const Sentinel: char := '\0'

  /** A position in the source: offset, line and column. */
  datatype Cursor = Cursor(index: nat, line: nat, column: nat)

  /** `src[i] ?? "\0"` */
  function CharAt(src: string, i: nat): char
  {
    if i < |src| then src[i] else Sentinel
  }

  /** The part of `src` not yet read from offset `i`; empty once `i` is at or past the end. */
  function Rest(src: string, i: nat): string
  {
    if i <= |src| then src[i..] else []
  }

  /** The bookkeeping `advance` does for the character `ch` it consumed: the offset grows by
      one; a newline starts the next line at column 1, anything else moves one column right. */
  function Move(c: Cursor, ch: char): (d: Cursor)
    ensures d.index == c.index + 1
    ensures ch == '\n' <==> d.line == c.line + 1
    ensures ch != '\n' <==> d.line == c.line
    ensures d.column == 1 || d.column == c.column + 1
  {
    if ch == '\n' then Cursor(c.index + 1, c.line + 1, 1)
    else Cursor(c.index + 1, c.line, c.column + 1)
  }

  /** The cursor after consuming the characters of `s` one by one. */
  function MoveOver(c: Cursor, s: string): (d: Cursor)
    ensures d.index == c.index + |s|
    ensures c.line <= d.line
    ensures c.column >= 1 ==> d.column >= 1
    decreases |s|
  {
    if s == [] then c else Move(MoveOver(c, s[..|s| - 1]), s[|s| - 1])
  }

  /** Consuming `a` and then `b` is consuming `a + b`. */
  lemma {:induction false} MoveOverAppend(c: Cursor, a: string, b: string)
    ensures MoveOver(MoveOver(c, a), b) == MoveOver(c, a + b)
    decreases |b|
  {
    if b == [] {
      assert a + b == a;
    } else {
      var b' := b[..|b| - 1];
      MoveOverAppend(c, a, b');
      assert (a + b)[..|a + b| - 1] == a + b';
    }
  }

  /** Consuming `s` and then `ch` is consuming `s + [ch]`. */
  lemma MoveOverSnoc(c: Cursor, s: string, ch: char)
    ensures MoveOver(c, s + [ch]) == Move(MoveOver(c, s), ch)
  {
    assert (s + [ch])[..|s|] == s;
  }

  /** Consuming `a`, then `ch`, then `b` is consuming `a + [ch] + b`. */
  lemma MoveOverAround(c: Cursor, a: string, ch: char, b: string)
    ensures MoveOver(Move(MoveOver(c, a), ch), b) == MoveOver(c, a + [ch] + b)
  {
    MoveOverSnoc(c, a, ch);
    MoveOverAppend(c, a + [ch], b);
  }

  /** Consuming the first character of `s` is one `Move`. */
  lemma MoveOverFirst(c: Cursor, s: string)
    requires s != []
    ensures MoveOver(c, s[..1]) == Move(c, s[0])
  {
    assert s[..1][..0] == [];
  }

  /** Consuming `ch` and then `s` is consuming `[ch] + s`. */
  lemma MoveOverCons(c: Cursor, ch: char, s: string)
    ensures MoveOver(Move(c, ch), s) == MoveOver(c, [ch] + s)
  {
    assert [ch][..0] == [];
    MoveOverAppend(c, [ch], s);
  }

  /** The line grows by exactly the number of newlines consumed. */
  lemma {:induction false} MoveOverLine(c: Cursor, s: string)
    ensures MoveOver(c, s).line == c.line + multiset(s)['\n']
    decreases |s|
  {
    if s != [] {
      var s' := s[..|s| - 1];
      MoveOverLine(c, s');
      assert s == s' + [s[|s| - 1]];
      assert multiset(s) == multiset(s') + multiset{s[|s| - 1]};
    }
  }

  /** Without a newline, the column grows by the number of characters consumed. */
  lemma {:induction false} MoveOverColumnNoNewline(c: Cursor, s: string)
    requires '\n' !in s
    ensures MoveOver(c, s).column == c.column + |s|
    decreases |s|
  {
    if s != [] {
      var s' := s[..|s| - 1];
      assert s[|s| - 1] in s;
      assert forall x :: x in s' ==> x in s;
      MoveOverColumnNoNewline(c, s');
    }
  }

  /** After a newline followed by `tail` (which holds no newline), the column is one more
      than the length of `tail`, whatever the column was before. */
  lemma MoveOverColumnAfterNewline(c: Cursor, head: string, tail: string)
    requires '\n' !in tail
    ensures MoveOver(c, head + "\n" + tail).column == |tail| + 1
  {
    MoveOverAppend(c, head + "\n", tail);
    var mid := MoveOver(c, head + "\n");
    assert (head + "\n")[..|head + "\n"| - 1] == head;
    assert mid.column == 1;
    MoveOverColumnNoNewline(mid, tail);
  }

  /** A prefix of `s` followed by a prefix of what comes after it is again a prefix of `s`. */
  lemma PrefixConcat(s: string, a: string, b: string)
    requires |a| + |b| <= |s| && a == s[..|a|] && b == s[|a|..][..|b|]
    ensures s[..|a| + |b|] == a + b
  {
    forall i | 0 <= i < |a| + |b|
      ensures s[..|a| + |b|][i] == (a + b)[i]
    {
      if i >= |a| {
        assert b[i - |a|] == s[|a|..][i - |a|];
      }
    }
  }

  /** The longest prefix of `s` whose characters all satisfy `cond` (each given to `cond`
      as a one-character string, as the source's loops do with `peek()`). */
  function TakeWhile(s: string, cond: string -> bool): (r: string)
    ensures |r| <= |s| && r == s[..|r|]
    ensures forall i :: 0 <= i < |r| ==> cond([r[i]])
    ensures |r| == |s| || !cond([s[|r|]])
    decreases |s|
  {
    if s == [] || !cond([s[0]]) then [] else [s[0]] + TakeWhile(s[1..], cond)
  }

  /** A prefix whose characters satisfy `cond` and that cannot be extended is the one
      `TakeWhile` returns: the maximal run is unique. */
  lemma TakeWhileUnique(s: string, cond: string -> bool, n: nat)
    requires n <= |s|
    requires forall i :: 0 <= i < n ==> cond([s[i]])
    requires n == |s| || !cond([s[n]])
    ensures TakeWhile(s, cond) == s[..n]
  {
  }

  class CharStream {
    const src: string
    var index: nat
    var line: nat
    var column: nat

    /** Lines and columns are 1-based. */
    ghost predicate Valid()
      reads this
    {
      line >= 1 && column >= 1
    }

    /** The position as a value. */
    function Cur(): Cursor
      reads this
    {
      Cursor(index, line, column)
    }

    constructor (src: string)
      ensures this.src == src && Cur() == Cursor(0, 1, 1) && Valid()
    {
      this.src := src;
      index, line, column := 0, 1, 1;
    }

    /** The current character, or the sentinel at the end; reads only. */
    function Peek(): (ch: char)
      reads this
      ensures index < |src| ==> ch == src[index]
      ensures index >= |src| ==> ch == Sentinel
    {
      CharAt(src, index)
    }

    /** The character after the current one, or the sentinel; reads only. */
    function PeekNext(): (ch: char)
      reads this
      ensures index + 1 < |src| ==> ch == src[index + 1]
      ensures index + 1 >= |src| ==> ch == Sentinel
    {
      CharAt(src, index + 1)
    }

    function IsEOF(): (eof: bool)
      reads this
      ensures eof <==> index >= |src|
      ensures !eof ==> Peek() == src[index]
    {
      index >= |src|
    }

    function GetLine(): (l: nat)
      reads this
      requires Valid()
      ensures l >= 1 && l == line
    {
      line
    }

    function GetColumn(): (c: nat)
      reads this
      requires Valid()
      ensures c >= 1 && c == column
    {
      column
    }

    /** Consumes one character. The offset always grows by one, even past the end, where
        the sentinel is returned (and, not being a newline, moves the column). */
    method Advance() returns (ch: char)
      requires Valid()
      modifies this
      ensures Valid()
      ensures ch == CharAt(src, old(index))
      ensures index == old(index) + 1
      ensures Cur() == Move(old(Cur()), ch)
    {
      ch := CharAt(src, index);
      index := index + 1;
      if ch == '\n' {
        line := line + 1;
        column := 1;
      } else {
        column := column + 1;
      }
    }

    /** Consumes the current character if and only if it is `expected`. */
    method Match(expected: char) returns (matched: bool)
      requires Valid()
      modifies this
      ensures Valid()
      ensures matched <==> old(Peek()) == expected
      ensures matched ==> Cur() == Move(old(Cur()), expected)
      ensures !matched ==> Cur() == old(Cur())
    {
      if Peek() == expected {
        var _ := Advance();
        return true;
      }
      return false;
    }

    /** Consumes the maximal run of whitespace; stops at the end of the input. */
    method SkipWhitespace()
      requires Valid()
      modifies this
      ensures Valid()
      ensures Cur() == MoveOver(old(Cur()), TakeWhile(Rest(src, old(index)), IsWhitespace))
      ensures IsEOF() || !IsWhitespace([Peek()])
    {
      ghost var c0 := Cur();
      ghost var rest := Rest(src, index);
      ghost var skipped: string := [];
      while !IsEOF() && IsWhitespace([Peek()])
        invariant Valid()
        invariant index == c0.index + |skipped|
        invariant |skipped| <= |rest| && skipped == rest[..|skipped|]
        invariant |skipped| > 0 ==> c0.index < |src|
        invariant forall i :: 0 <= i < |skipped| ==> IsWhitespace([skipped[i]])
        invariant Cur() == MoveOver(c0, skipped)
        decreases |src| - index
      {
        assert rest[|skipped|] == src[index];
        var ch := Advance();
        assert (skipped + [ch])[..|skipped|] == skipped;
        skipped := skipped + [ch];
      }
      assert index < |src| ==> rest[|skipped|] == src[index];
      TakeWhileUnique(rest, IsWhitespace, |skipped|);
    }
  }
}
