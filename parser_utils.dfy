/** The token cursor of backend/src/utils/parserUtils.ts, the base the parser is built on:
    a position `current` in a token list that holds an EOF token, an append-only list of
    diagnostics, and panic-mode recovery. `current` never passes the first EOF token, so
    `peek` is always defined. */
module ParserUtils {
  import opened Wrappers
  import opened Tokens
  import opened Seqs
  import opened TokenUtils
  import opened SyntaxErrors
  import LexSpec

  /** Some token of `ts` is EOF. */
  predicate HasEof(ts: seq<Token>)
  {
    exists i :: 0 <= i < |ts| && ts[i].kind == EOF
  }

  /** The index of the first EOF token at or after `from`. */
  function FirstEofFrom(ts: seq<Token>, from: nat): (e: nat)
    requires exists i :: from <= i < |ts| && ts[i].kind == EOF
    ensures from <= e < |ts| && ts[e].kind == EOF
    ensures forall i :: from <= i < e ==> ts[i].kind != EOF
    decreases |ts| - from
  {
    if ts[from].kind == EOF then from else FirstEofFrom(ts, from + 1)
  }

  /** The index of the first EOF token: where the cursor stops for good. */
  function FirstEof(ts: seq<Token>): (e: nat)
    requires HasEof(ts)
    ensures e < |ts| && ts[e].kind == EOF
    ensures forall i :: 0 <= i < e ==> ts[i].kind != EOF
  {
    FirstEofFrom(ts, 0)
  }

  /** The kinds `synchronize` stops in front of: tokens that start a statement. */
  predicate IsSyncKind(k: TokenType)
  {
    k == K_Scene || k == K_Character || k == K_When || k == K_Rem
  }

  /** Whether the loop of `synchronize`, having reached `p`, stops there: at EOF, just after
      a `;`, or in front of a statement keyword. */
  predicate Stops(ts: seq<Token>, p: nat)
    requires 1 <= p < |ts|
  {
    ts[p].kind == EOF || ts[p - 1].kind == D_Semicolon || IsSyncKind(ts[p].kind)
  }

  /** Position by position, whether the loop of `synchronize` stops there. */
  function StopMask(ts: seq<Token>): (m: seq<bool>)
    ensures |m| == |ts|
    ensures forall p :: 1 <= p < |ts| ==> (m[p] <==> Stops(ts, p))
  {
    seq(|ts|, p requires 0 <= p < |ts| => 1 <= p && Stops(ts, p))
  }

  /** The first position from `p` on that `m` marks, given that `e` is marked. */
  function FirstMarked(m: seq<bool>, e: nat, p: nat): nat
    requires e < |m| && m[e] && p <= e
    decreases e - p
  {
    if m[p] then p else FirstMarked(m, e, p + 1)
  }

  /** `FirstMarked` finds a marked position no later than `e` and passes only unmarked ones. */
  lemma {:induction false} FirstMarkedSpec(m: seq<bool>, e: nat, p: nat)
    requires e < |m| && m[e] && p <= e
    ensures p <= FirstMarked(m, e, p) <= e && m[FirstMarked(m, e, p)]
    ensures forall q :: p <= q < FirstMarked(m, e, p) ==> !m[q]
    decreases e - p
  {
    if !m[p] {
      FirstMarkedSpec(m, e, p + 1);
    }
  }

  /** Where the loop of `synchronize` stops when it has reached `p` (at least one token was
      consumed, so `p >= 1`) in a list with an EOF token at `e`: the first stopping point
      from `p` on. */
  function SyncFrom(ts: seq<Token>, e: nat, p: nat): (r: nat)
    requires e < |ts| && ts[e].kind == EOF && 1 <= p <= e
  {
    assert StopMask(ts)[e];
    FirstMarked(StopMask(ts), e, p)
  }

  /** Where `synchronize` leaves the cursor that was at `c`: it first consumes one token
      (unless at EOF) and then runs its loop. */
  function SyncTarget(ts: seq<Token>, c: nat): nat
    requires HasEof(ts) && c <= FirstEof(ts)
  {
    if ts[c].kind == EOF then c else SyncFrom(ts, FirstEof(ts), c + 1)
  }

  /** `synchronize` moves strictly forward unless the cursor is at EOF, never passes EOF,
      and stops at the first point after its first step that is EOF, follows a `;`, or
      holds `scene`, `character`, `when` or `rem`; every token it passes is none of these. */
  lemma SyncTargetSpec(ts: seq<Token>, c: nat)
    requires HasEof(ts) && c <= FirstEof(ts)
    ensures ts[c].kind == EOF ==> SyncTarget(ts, c) == c
    ensures ts[c].kind != EOF ==> c < SyncTarget(ts, c) <= FirstEof(ts)
    ensures var r := SyncTarget(ts, c);
      ts[c].kind != EOF ==> (r == FirstEof(ts) || ts[r - 1].kind == D_Semicolon || IsSyncKind(ts[r].kind))
    ensures forall q :: c < q < SyncTarget(ts, c) ==> ts[q].kind != EOF && !IsSyncKind(ts[q].kind)
    ensures forall q :: c <= q < SyncTarget(ts, c) - 1 ==> ts[q].kind != D_Semicolon
  {
    if ts[c].kind != EOF {
      SyncFromSpec(ts, FirstEof(ts), c + 1);
    }
  }

  /** `SyncFromStops`, read token by token, for a loop that starts at `p` in front of the
      first EOF `e`. */
  lemma SyncFromSpec(ts: seq<Token>, e: nat, p: nat)
    requires e < |ts| && ts[e].kind == EOF && 1 <= p <= e
    requires forall i :: 0 <= i < e ==> ts[i].kind != EOF
    ensures var r := SyncFrom(ts, e, p);
      p <= r <= e && (r == e || ts[r - 1].kind == D_Semicolon || IsSyncKind(ts[r].kind))
    ensures var r := SyncFrom(ts, e, p);
      forall q :: p <= q < r ==> ts[q].kind != EOF && !IsSyncKind(ts[q].kind)
    ensures var r := SyncFrom(ts, e, p);
      forall q :: p - 1 <= q < r - 1 ==> ts[q].kind != D_Semicolon
  {
    var m := StopMask(ts);
    var r := SyncFrom(ts, e, p);
    FirstMarkedSpec(m, e, p);
    assert m[r];
    assert forall q :: p <= q < r ==> !m[q];
    PassedTokens(ts, p, r);
  }

  /** The positions the loop passes, read token by token. */
  lemma PassedTokens(ts: seq<Token>, p: nat, r: nat)
    requires 1 <= p <= r < |ts|
    requires forall q :: p <= q < r ==> !Stops(ts, q)
    ensures forall q :: p <= q < r ==> ts[q].kind != EOF && !IsSyncKind(ts[q].kind)
    ensures forall q :: p - 1 <= q < r - 1 ==> ts[q].kind != D_Semicolon
  {
    forall q | p <= q < r ensures ts[q].kind != EOF && !IsSyncKind(ts[q].kind) {
      assert !Stops(ts, q);
    }
    forall q | p - 1 <= q < r - 1 ensures ts[q].kind != D_Semicolon {
      assert !Stops(ts, q + 1);
    }
  }

  /** A closing brace is not a stopping point: recovery inside `x } y ; z` runs past the
      `}` and stops after the `;`. */
  lemma SyncSkipsClosingBrace()
    ensures var ts := [Token(Identifier, "x", 1, 1), Token(D_RBrace, "}", 1, 3),
                       Token(Identifier, "y", 1, 5), Token(D_Semicolon, ";", 1, 6),
                       Token(Identifier, "z", 1, 8), Token(EOF, "", 1, 9)];
      HasEof(ts) && FirstEof(ts) == 5 && SyncTarget(ts, 0) == 4
  {
    var ts := [Token(Identifier, "x", 1, 1), Token(D_RBrace, "}", 1, 3),
               Token(Identifier, "y", 1, 5), Token(D_Semicolon, ";", 1, 6),
               Token(Identifier, "z", 1, 8), Token(EOF, "", 1, 9)];
    assert ts[5].kind == EOF;
    assert FirstEof(ts) == 5;
    assert SyncFrom(ts, 5, 4) == 4;
    assert SyncFrom(ts, 5, 3) == 4;
    assert SyncFrom(ts, 5, 2) == 4;
  }

  /** The lexer's output, with or without its comments, is a token list a cursor can be
      built on: its only EOF token is the last one. */
  lemma LexerOutputIsCursorReady(src: string)
    ensures var ts := LexSpec.Tokenize(src);
      HasEof(ts) && FirstEof(ts) == |ts| - 1
    ensures var ts := RemoveComments(LexSpec.Tokenize(src));
      HasEof(ts) && FirstEof(ts) == |ts| - 1
  {
    LexSpec.TokenizeShape(src);
    ShapedIsCursorReady(LexSpec.Tokenize(src));
  }

  /** The same for any list shaped like the lexer's output. */
  lemma ShapedIsCursorReady(ts: seq<Token>)
    requires ts != [] && ts[|ts| - 1].kind == EOF
    requires forall i :: 0 <= i < |ts| - 1 ==> LexSpec.Scannable(ts[i])
    ensures HasEof(ts) && FirstEof(ts) == |ts| - 1
    ensures var fs := RemoveComments(ts); HasEof(fs) && FirstEof(fs) == |fs| - 1
  {
    assert forall j :: 0 <= j < |ts| - 1 ==> ts[j].kind != EOF by {
      forall j | 0 <= j < |ts| - 1 ensures ts[j].kind != EOF {
        assert LexSpec.Scannable(ts[j]);
      }
    }
    SoleEofIsFirst(ts);
    FilterKeepsLastOnly(ts, NotComment);
    SoleEofIsFirst(RemoveComments(ts));
  }

  /** In a list whose only EOF token is its last, that token is the first EOF. */
  lemma SoleEofIsFirst(ts: seq<Token>)
    requires ts != [] && ts[|ts| - 1].kind == EOF
    requires forall j :: 0 <= j < |ts| - 1 ==> ts[j].kind != EOF
    ensures HasEof(ts) && FirstEof(ts) == |ts| - 1
  {
    assert ts[|ts| - 1].kind == EOF;
  }

  /** Filtering a list whose only EOF token is its last, and keeping that token, gives
      again a list whose only EOF token is its last. */
  lemma {:induction false} FilterKeepsLastOnly(ts: seq<Token>, keep: Token -> bool)
    requires ts != [] && ts[|ts| - 1].kind == EOF && keep(ts[|ts| - 1])
    requires forall j :: 0 <= j < |ts| - 1 ==> ts[j].kind != EOF
    ensures var fs := Filter(ts, keep);
      fs != [] && fs[|fs| - 1].kind == EOF && forall j :: 0 <= j < |fs| - 1 ==> fs[j].kind != EOF
    decreases |ts|
  {
    if |ts| > 1 {
      FilterKeepsLastOnly(ts[1..], keep);
      var rest := Filter(ts[1..], keep);
      assert Filter(ts, keep) == (if keep(ts[0]) then [ts[0]] else []) + rest;
    } else {
      assert Filter(ts[1..], keep) == [];
    }
  }

  class Parser {
    const tokens: seq<Token>
    var current: nat
    var errors: seq<SyntaxError>

    /** The token list holds an EOF token and the cursor has not passed the first one. */
    ghost predicate Valid()
      reads this
    {
      HasEof(tokens) && current <= FirstEof(tokens)
    }

    constructor (tokens: seq<Token>)
      requires HasEof(tokens)
      ensures this.tokens == tokens && current == 0 && errors == [] && Valid()
    {
      this.tokens := tokens;
      current := 0;
      errors := [];
    }

    /** The token under the cursor. */
    function Peek(): (t: Token)
      reads this
      requires Valid()
      ensures current < |tokens| && t == tokens[current]
    {
      tokens[current]
    }

    /** The token before the cursor; `undefined` in the source when the cursor is at 0. */
    function Previous(): (t: Option<Token>)
      reads this
      requires Valid()
      ensures current == 0 <==> t.None?
      ensures current > 0 ==> t == Some(tokens[current - 1])
    {
      if current == 0 then None else Some(tokens[current - 1])
    }

    /** The cursor is on the first EOF token, where it stays. */
    function IsAtEnd(): (b: bool)
      reads this
      requires Valid()
      ensures b <==> Peek().kind == EOF
      ensures b <==> current == FirstEof(tokens)
    {
      tokens[current].kind == EOF
    }

    /** Whether the current token has kind `kind`; false at EOF whatever the kind, so
        `check(EOF)` never holds. */
    function Check(kind: TokenType): (b: bool)
      reads this
      requires Valid()
      ensures b <==> current < FirstEof(tokens) && tokens[current].kind == kind
      ensures kind == EOF ==> !b
    {
      if IsAtEnd() then false else Peek().kind == kind
    }

    /** Moves past the current token unless it is EOF, and returns the token before the
        new position. */
    method Advance() returns (t: Option<Token>)
      requires Valid()
      modifies this`current
      ensures Valid()
      ensures current == if old(IsAtEnd()) then old(current) else old(current) + 1
      ensures t == Previous()
      ensures !old(IsAtEnd()) ==> t == Some(old(Peek()))
    {
      if !IsAtEnd() {
        current := current + 1;
      }
      t := Previous();
    }

    /** Consumes one token when its kind is one of `kinds`, trying them in order. */
    method Match(kinds: seq<TokenType>) returns (matched: bool)
      requires Valid()
      modifies this`current
      ensures Valid()
      ensures matched <==> !old(IsAtEnd()) && old(Peek()).kind in kinds
      ensures current == if matched then old(current) + 1 else old(current)
      ensures EOF in kinds && old(IsAtEnd()) ==> !matched
    {
      for i := 0 to |kinds|
        invariant Valid() && current == old(current)
        invariant forall j :: 0 <= j < i ==> !Check(kinds[j])
      {
        if Check(kinds[i]) {
          var _ := Advance();
          return true;
        }
      }
      return false;
    }

    /** Records a diagnostic at `token`, with no category and no suggestion. */
    method Error(token: Token, message: string)
      modifies this`errors
      ensures errors == old(errors) + [SyntaxError(message, token.line, token.column, token.lexeme, None, None)]
    {
      errors := errors + [SyntaxError(message, token.line, token.column, token.lexeme, None, None)];
    }

    /** Consumes a token of kind `kind` and returns it; otherwise records one diagnostic at
        the current token, leaves the cursor where it is, and fails with `message` (the
        source throws it). */
    method Consume(kind: TokenType, message: string) returns (r: Result<Token, string>)
      requires Valid()
      modifies this`current, this`errors
      ensures Valid()
      ensures r.Ok? <==> old(Check(kind))
      ensures r.Ok? ==> r.value == old(Peek()) && r.value.kind == kind
                        && current == old(current) + 1 && errors == old(errors)
      ensures r.Err? ==> r.error == message && current == old(current)
                         && errors == old(errors) + [SyntaxError(message, old(Peek()).line,
                              old(Peek()).column, old(Peek()).lexeme, None, None)]
    {
      if Check(kind) {
        var t := Advance();
        return Ok(t.value);
      }
      Error(Peek(), message);
      return Err(message);
    }

    /** Panic-mode recovery: skip tokens until just after a `;`, just before a statement
        keyword, or EOF. */
    method Synchronize()
      requires Valid()
      modifies this`current
      ensures Valid()
      ensures current == SyncTarget(tokens, old(current))
    {
      ghost var e := FirstEof(tokens);
      ghost var m := StopMask(tokens);
      var _ := Advance();
      while !IsAtEnd()
        invariant Valid() && current <= e
        invariant old(IsAtEnd()) ==> current == old(current)
        invariant !old(IsAtEnd()) ==>
          (1 <= current && SyncTarget(tokens, old(current)) == FirstMarked(m, e, current))
        decreases e - current
      {
        assert 1 <= current && tokens[current].kind != EOF;
        if Previous().value.kind == D_Semicolon {
          assert m[current];
          return;
        }
        if IsSyncKind(Peek().kind) {
          assert m[current];
          return;
        }
        assert !m[current];
        var _ := Advance();
      }
    }
  }
}
