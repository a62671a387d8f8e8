/** The token record, the token kinds and the keyword table of backend/src/types/Tokens.ts. */
module Tokens {
  import opened Wrappers

  /** The token kinds, in the order of the source's enum. */
  datatype TokenType =
    // basic
    | Identifier | NumberLiteral | TextLiteral | BooleanLiteral
    // keywords
    | K_Scene | K_Start | K_Story | K_Character | K_Transition | K_Thru | K_When | K_Do
    | K_End | K_Input | K_Rem | K_Perceives | K_Masking | K_Says | K_Log | K_Choose
    | K_Default | K_DB | K_Where
    // reserved type names
    | R_Text | R_Boolean | R_Number
    // noise words
    | N_To | N_Is | N_Then | N_Noiseword
    // operators
    | OP_Plus | OP_Minus | OP_Asterisk | OP_Slash | OP_Modulo | OP_Caret | OP_Assign
    | OP_EqualTo | OP_NotEqual | OP_Less_Than | OP_Less_Equal | OP_Greater_Than
    | OP_Greater_Equal | OP_Logical_And | OP_Logical_Or | OP_Logical_Not
    // delimiters
    | D_LParen | D_RParen | D_LBrace | D_RBrace | D_LBracket | D_RBracket | D_Colon
    | D_Semicolon | D_Comma | D_Dot | D_DoubleQuote
    // comments, layout, end of input, lexical error
    | SingleLineComment | MultiLineComment | NewLine | Whitespace | EOF | Error

  /** A token: its kind, the text it stands for, and the 1-based line and column of its
      first character (the source's field `type` is called `kind` here). */
  datatype Token = Token(kind: TokenType, lexeme: string, line: int, column: int)

  predicate IsKeywordKind(k: TokenType)
  {
    k in {K_Scene, K_Start, K_Story, K_Character, K_Transition, K_Thru, K_When, K_Do,
          K_End, K_Input, K_Rem, K_Perceives, K_Masking, K_Says, K_Log, K_Choose,
          K_Default, K_DB, K_Where}
  }

  predicate IsReservedKind(k: TokenType)
  {
    k == R_Text || k == R_Boolean || k == R_Number
  }

  predicate IsNoiseKind(k: TokenType)
  {
    k == N_To || k == N_Is || k == N_Then || k == N_Noiseword
  }

  /** The reserved words and the kinds the lexer gives them. */
  const KEYWORDS: map<string, TokenType> := map[
    "scene" := K_Scene,
    "story" := K_Story,
    "start" := K_Start,
    "character" := K_Character,
    "transition" := K_Transition,
    "thru" := K_Thru,
    "when" := K_When,
    "do" := K_Do,
    "end" := K_End,
    "input" := K_Input,
    "says" := K_Says,
    "log" := K_Log,
    "db" := K_DB,
    "rem" := K_Rem,
    "where" := K_Where,
    "perceives" := K_Perceives,
    "masking" := K_Masking,
    "choose" := K_Choose,
    "default" := K_Default,
    "text" := R_Text,
    "boolean" := R_Boolean,
    "number" := R_Number,
    "to" := N_To,
    "is" := N_Is,
    "then" := N_Then
  ]

  /** The spelling of a reserved-word kind, as the enum's comments give it; None for every
      kind that no word is reserved for. */
  function Spelling(k: TokenType): Option<string>
  {
    match k
    case K_Scene => Some("scene")
    case K_Start => Some("start")
    case K_Story => Some("story")
    case K_Character => Some("character")
    case K_Transition => Some("transition")
    case K_Thru => Some("thru")
    case K_When => Some("when")
    case K_Do => Some("do")
    case K_End => Some("end")
    case K_Input => Some("input")
    case K_Rem => Some("rem")
    case K_Perceives => Some("perceives")
    case K_Masking => Some("masking")
    case K_Says => Some("says")
    case K_Log => Some("log")
    case K_Choose => Some("choose")
    case K_Default => Some("default")
    case K_DB => Some("db")
    case K_Where => Some("where")
    case R_Text => Some("text")
    case R_Boolean => Some("boolean")
    case R_Number => Some("number")
    case N_To => Some("to")
    case N_Is => Some("is")
    case N_Then => Some("then")
    case _ => None
  }

  /* The facts about the table are checked for five kinds, or for the words of one length,
     at a time: one case analysis over all 25 entries is too costly for the solver. */

  /** The kinds that have a spelling, in enum order, five at a time. */
  const KindGroupOne: set<TokenType> := {K_Scene, K_Start, K_Story, K_Character, K_Transition}
  const KindGroupTwo: set<TokenType> := {K_Thru, K_When, K_Do, K_End, K_Input}
  const KindGroupThree: set<TokenType> := {K_Rem, K_Perceives, K_Masking, K_Says, K_Log}
  const KindGroupFour: set<TokenType> := {K_Choose, K_Default, K_DB, K_Where, R_Text}
  const KindGroupFive: set<TokenType> := {R_Boolean, R_Number, N_To, N_Is, N_Then}

  const SpelledKinds: set<TokenType> :=
    {K_Scene, K_Start, K_Story, K_Character, K_Transition, K_Thru, K_When, K_Do, K_End,
     K_Input, K_Rem, K_Perceives, K_Masking, K_Says, K_Log, K_Choose, K_Default, K_DB,
     K_Where, R_Text, R_Boolean, R_Number, N_To, N_Is, N_Then}

  lemma SpelledKindsInGroups()
    ensures SpelledKinds == KindGroupOne + KindGroupTwo + KindGroupThree + KindGroupFour + KindGroupFive
  {
  }

  lemma SpelledKindsAreSpelled()
    ensures forall k :: Spelling(k).Some? <==> k in SpelledKinds
  {
  }

  lemma KindGroupSizes()
    ensures |KindGroupOne| == |KindGroupTwo| == |KindGroupThree| == |KindGroupFour| == |KindGroupFive| == 5
  {
  }

  lemma KindGroupOneDisjoint()
    ensures KindGroupOne !! KindGroupTwo && KindGroupOne !! KindGroupThree
    ensures KindGroupOne !! KindGroupFour && KindGroupOne !! KindGroupFive
  {
  }

  lemma KindGroupTwoDisjoint()
    ensures KindGroupTwo !! KindGroupThree && KindGroupTwo !! KindGroupFour && KindGroupTwo !! KindGroupFive
  {
  }

  lemma KindGroupsThreeToFiveDisjoint()
    ensures KindGroupThree !! KindGroupFour && KindGroupThree !! KindGroupFive && KindGroupFour !! KindGroupFive
  {
  }

  /** 25 kinds have a spelling. */
  lemma SpelledKindsCount()
    ensures |SpelledKinds| == 25
  {
    SpelledKindsInGroups();
    KindGroupSizes();
    KindGroupOneDisjoint();
    KindGroupTwoDisjoint();
    KindGroupsThreeToFiveDisjoint();
    assert |KindGroupOne + KindGroupTwo| == 10;
    assert |KindGroupOne + KindGroupTwo + KindGroupThree| == 15;
    assert |KindGroupOne + KindGroupTwo + KindGroupThree + KindGroupFour| == 20;
  }

  /** The table's key set, written out. */
  lemma KeywordKeys()
    ensures KEYWORDS.Keys == {
      "scene", "story", "start", "character", "transition", "thru", "when", "do", "end",
      "input", "says", "log", "db", "rem", "where", "perceives", "masking", "choose",
      "default", "text", "boolean", "number", "to", "is", "then"}
  {
  }

  lemma KeywordLengths()
    ensures forall w :: w in KEYWORDS ==> 2 <= |w| <= 10 && |w| != 8
  {
    KeywordKeys();
  }

  /** One entry of the table: `Spelling` undoes it. */
  lemma KeywordEntry(w: string)
    requires w in KEYWORDS
    ensures Spelling(KEYWORDS[w]) == Some(w)
  {
    KeywordLengths();
    if |w| == 2 && w[0] == 'd' { KeywordEntryTwoD(w); }
    else if |w| == 2 && w[0] != 'd' { KeywordEntryTwoOther(w); }
    else if |w| == 3 { KeywordEntryThree(w); }
    else if |w| == 4 && w[0] == 't' { KeywordEntryFourT(w); }
    else if |w| == 4 && w[0] != 't' { KeywordEntryFourOther(w); }
    else if |w| == 5 && w[0] == 's' { KeywordEntryFiveS(w); }
    else if |w| == 5 && w[0] != 's' { KeywordEntryFiveOther(w); }
    else if |w| == 6 { KeywordEntrySix(w); }
    else if |w| == 7 { KeywordEntrySeven(w); }
    else { KeywordEntryNineOrTen(w); }
  }

  lemma KeywordEntryTwoD(w: string)
    requires w in KEYWORDS && |w| == 2 && w[0] == 'd'
    ensures Spelling(KEYWORDS[w]) == Some(w)
  {
    if w == "do" { assert KEYWORDS["do"] == K_Do; }
    else if w == "db" { assert KEYWORDS["db"] == K_DB; }
    else { assert false; }
  }

  lemma KeywordEntryTwoOther(w: string)
    requires w in KEYWORDS && |w| == 2 && w[0] != 'd'
    ensures Spelling(KEYWORDS[w]) == Some(w)
  {
    if w == "to" { assert KEYWORDS["to"] == N_To; }
    else if w == "is" { assert KEYWORDS["is"] == N_Is; }
    else { assert false; }
  }

  lemma KeywordEntryThree(w: string)
    requires w in KEYWORDS && |w| == 3
    ensures Spelling(KEYWORDS[w]) == Some(w)
  {
    if w == "end" { assert KEYWORDS["end"] == K_End; }
    else if w == "log" { assert KEYWORDS["log"] == K_Log; }
    else if w == "rem" { assert KEYWORDS["rem"] == K_Rem; }
    else { assert false; }
  }

  lemma KeywordEntryFourT(w: string)
    requires w in KEYWORDS && |w| == 4 && w[0] == 't'
    ensures Spelling(KEYWORDS[w]) == Some(w)
  {
    if w == "thru" { assert KEYWORDS["thru"] == K_Thru; }
    else if w == "text" { assert KEYWORDS["text"] == R_Text; }
    else if w == "then" { assert KEYWORDS["then"] == N_Then; }
    else { assert false; }
  }

  lemma KeywordEntryFourOther(w: string)
    requires w in KEYWORDS && |w| == 4 && w[0] != 't'
    ensures Spelling(KEYWORDS[w]) == Some(w)
  {
    if w == "when" { assert KEYWORDS["when"] == K_When; }
    else if w == "says" { assert KEYWORDS["says"] == K_Says; }
    else { assert false; }
  }

  lemma KeywordEntryFiveS(w: string)
    requires w in KEYWORDS && |w| == 5 && w[0] == 's'
    ensures Spelling(KEYWORDS[w]) == Some(w)
  {
    if w == "scene" { assert KEYWORDS["scene"] == K_Scene; }
    else if w == "story" { assert KEYWORDS["story"] == K_Story; }
    else if w == "start" { assert KEYWORDS["start"] == K_Start; }
    else { assert false; }
  }

  lemma KeywordEntryFiveOther(w: string)
    requires w in KEYWORDS && |w| == 5 && w[0] != 's'
    ensures Spelling(KEYWORDS[w]) == Some(w)
  {
    if w == "input" { assert KEYWORDS["input"] == K_Input; }
    else if w == "where" { assert KEYWORDS["where"] == K_Where; }
    else { assert false; }
  }

  lemma KeywordEntrySix(w: string)
    requires w in KEYWORDS && |w| == 6
    ensures Spelling(KEYWORDS[w]) == Some(w)
  {
    if w == "choose" { assert KEYWORDS["choose"] == K_Choose; }
    else if w == "number" { assert KEYWORDS["number"] == R_Number; }
    else { assert false; }
  }

  lemma KeywordEntrySeven(w: string)
    requires w in KEYWORDS && |w| == 7
    ensures Spelling(KEYWORDS[w]) == Some(w)
  {
    if w == "masking" { assert KEYWORDS["masking"] == K_Masking; }
    else if w == "default" { assert KEYWORDS["default"] == K_Default; }
    else if w == "boolean" { assert KEYWORDS["boolean"] == R_Boolean; }
    else { assert false; }
  }

  lemma KeywordEntryNineOrTen(w: string)
    requires w in KEYWORDS && 9 <= |w| <= 10
    ensures Spelling(KEYWORDS[w]) == Some(w)
  {
    if w == "character" { assert KEYWORDS["character"] == K_Character; }
    else if w == "transition" { assert KEYWORDS["transition"] == K_Transition; }
    else if w == "perceives" { assert KEYWORDS["perceives"] == K_Perceives; }
    else { assert false; }
  }

  /** One spelled kind: its spelling is a key of the table that maps back to it. */
  lemma KindEntry(k: TokenType)
    requires Spelling(k).Some?
    ensures Spelling(k).value in KEYWORDS && KEYWORDS[Spelling(k).value] == k
  {
    match k
    case K_Scene | K_Start | K_Story | K_Character | K_Transition => KindEntryGroupOne(k);
    case K_Thru | K_When | K_Do | K_End | K_Input => KindEntryGroupTwo(k);
    case K_Rem | K_Perceives | K_Masking | K_Says | K_Log => KindEntryGroupThree(k);
    case K_Choose | K_Default | K_DB | K_Where | R_Text => KindEntryGroupFour(k);
    case R_Boolean | R_Number | N_To | N_Is | N_Then => KindEntryGroupFive(k);
    case _ => assert false;
  }


  lemma KindEntryGroupOne(k: TokenType)
    requires k in {K_Scene, K_Start, K_Story, K_Character, K_Transition}
    ensures Spelling(k).Some? && Spelling(k).value in KEYWORDS && KEYWORDS[Spelling(k).value] == k
  {
    if k == K_Scene { assert KEYWORDS["scene"] == K_Scene; }
    else if k == K_Start { assert KEYWORDS["start"] == K_Start; }
    else if k == K_Story { assert KEYWORDS["story"] == K_Story; }
    else if k == K_Character { assert KEYWORDS["character"] == K_Character; }
    else { assert KEYWORDS["transition"] == K_Transition; }
  }

  lemma KindEntryGroupTwo(k: TokenType)
    requires k in {K_Thru, K_When, K_Do, K_End, K_Input}
    ensures Spelling(k).Some? && Spelling(k).value in KEYWORDS && KEYWORDS[Spelling(k).value] == k
  {
    if k == K_Thru { assert KEYWORDS["thru"] == K_Thru; }
    else if k == K_When { assert KEYWORDS["when"] == K_When; }
    else if k == K_Do { assert KEYWORDS["do"] == K_Do; }
    else if k == K_End { assert KEYWORDS["end"] == K_End; }
    else { assert KEYWORDS["input"] == K_Input; }
  }

  lemma KindEntryGroupThree(k: TokenType)
    requires k in {K_Rem, K_Perceives, K_Masking, K_Says, K_Log}
    ensures Spelling(k).Some? && Spelling(k).value in KEYWORDS && KEYWORDS[Spelling(k).value] == k
  {
    if k == K_Rem { assert KEYWORDS["rem"] == K_Rem; }
    else if k == K_Perceives { assert KEYWORDS["perceives"] == K_Perceives; }
    else if k == K_Masking { assert KEYWORDS["masking"] == K_Masking; }
    else if k == K_Says { assert KEYWORDS["says"] == K_Says; }
    else { assert KEYWORDS["log"] == K_Log; }
  }

  lemma KindEntryGroupFour(k: TokenType)
    requires k in {K_Choose, K_Default, K_DB, K_Where, R_Text}
    ensures Spelling(k).Some? && Spelling(k).value in KEYWORDS && KEYWORDS[Spelling(k).value] == k
  {
    if k == K_Choose { assert KEYWORDS["choose"] == K_Choose; }
    else if k == K_Default { assert KEYWORDS["default"] == K_Default; }
    else if k == K_DB { assert KEYWORDS["db"] == K_DB; }
    else if k == K_Where { assert KEYWORDS["where"] == K_Where; }
    else { assert KEYWORDS["text"] == R_Text; }
  }

  lemma KindEntryGroupFive(k: TokenType)
    requires k in {R_Boolean, R_Number, N_To, N_Is, N_Then}
    ensures Spelling(k).Some? && Spelling(k).value in KEYWORDS && KEYWORDS[Spelling(k).value] == k
  {
    if k == R_Boolean { assert KEYWORDS["boolean"] == R_Boolean; }
    else if k == R_Number { assert KEYWORDS["number"] == R_Number; }
    else if k == N_To { assert KEYWORDS["to"] == N_To; }
    else if k == N_Is { assert KEYWORDS["is"] == N_Is; }
    else { assert KEYWORDS["then"] == N_Then; }
  }

  /** A non-empty run of lower-case ASCII letters. */
  predicate LowerCaseWord(s: string)
  {
    |s| > 0 && forall c :: c in s ==> 'a' <= c <= 'z'
  }

  /** Every spelling is a non-empty run of lower-case ASCII letters. */
  lemma SpellingLowerCase(k: TokenType)
    requires Spelling(k).Some?
    ensures LowerCaseWord(Spelling(k).value)
  {
    match k
    case K_Scene | K_Start | K_Story | K_Character | K_Transition => SpellingLowerCaseOne(k);
    case K_Thru | K_When | K_Do | K_End | K_Input => SpellingLowerCaseTwo(k);
    case K_Rem | K_Perceives | K_Masking | K_Says | K_Log => SpellingLowerCaseThree(k);
    case K_Choose | K_Default | K_DB | K_Where | R_Text => SpellingLowerCaseFour(k);
    case R_Boolean | R_Number | N_To | N_Is | N_Then => SpellingLowerCaseFive(k);
    case _ => assert false;
  }

  lemma SpellingLowerCaseOne(k: TokenType)
    requires k in {K_Scene, K_Start, K_Story, K_Character, K_Transition}
    ensures Spelling(k).Some? && LowerCaseWord(Spelling(k).value)
  {
  }

  lemma SpellingLowerCaseTwo(k: TokenType)
    requires k in {K_Thru, K_When, K_Do, K_End, K_Input}
    ensures Spelling(k).Some? && LowerCaseWord(Spelling(k).value)
  {
  }

  lemma SpellingLowerCaseThree(k: TokenType)
    requires k in {K_Rem, K_Perceives, K_Masking, K_Says, K_Log}
    ensures Spelling(k).Some? && LowerCaseWord(Spelling(k).value)
  {
  }

  lemma SpellingLowerCaseFour(k: TokenType)
    requires k in {K_Choose, K_Default, K_DB, K_Where, R_Text}
    ensures Spelling(k).Some? && LowerCaseWord(Spelling(k).value)
  {
  }

  lemma SpellingLowerCaseFive(k: TokenType)
    requires k in {R_Boolean, R_Number, N_To, N_Is, N_Then}
    ensures Spelling(k).Some? && LowerCaseWord(Spelling(k).value)
  {
  }


  /** The table and `Spelling` are inverse to each other, in both directions. */
  lemma KeywordsRoundTrip()
    ensures forall w :: w in KEYWORDS ==> Spelling(KEYWORDS[w]) == Some(w)
    ensures forall k :: Spelling(k).Some? ==>
      Spelling(k).value in KEYWORDS && KEYWORDS[Spelling(k).value] == k
  {
    forall w | w in KEYWORDS
      ensures Spelling(KEYWORDS[w]) == Some(w)
    {
      KeywordEntry(w);
    }
    forall k | Spelling(k).Some?
      ensures Spelling(k).value in KEYWORDS && KEYWORDS[Spelling(k).value] == k
    {
      KindEntry(k);
    }
  }

  /** No two reserved words share a kind. */
  lemma KeywordsInjective()
    ensures forall a, b :: a in KEYWORDS && b in KEYWORDS && KEYWORDS[a] == KEYWORDS[b] ==> a == b
  {
    KeywordsRoundTrip();
  }

  /** A map that sends no two keys to the same value has as many values as keys. */
  lemma {:induction false} InjectiveMapCard<K, V>(m: map<K, V>)
    requires forall a, b :: a in m && b in m && m[a] == m[b] ==> a == b
    ensures |m.Values| == |m.Keys|
    decreases |m|
  {
    if m != map[] {
      var k :| k in m;
      var m' := m - {k};
      InjectiveMapCard(m');
      assert m.Keys == m'.Keys + {k};
      assert m.Values == m'.Values + {m[k]} by {
        forall v | v in m.Values
          ensures v in m'.Values || v == m[k]
        {
          var a :| a in m && m[a] == v;
          if a != k {
            assert a in m' && m'[a] == v;
          }
        }
      }
      assert m[k] !in m'.Values;
    }
  }

  /** The table has 25 entries: one for each kind that has a spelling. */
  lemma KeywordCount()
    ensures |KEYWORDS| == 25
  {
    KeywordsInjective();
    InjectiveMapCard(KEYWORDS);
    KeywordImage();
    SpelledKindsCount();
  }

  /** The table's kinds are exactly the kinds that have a spelling. */
  lemma KeywordImage()
    ensures KEYWORDS.Values == SpelledKinds
  {
    SpelledKindsAreSpelled();
    forall w | w in KEYWORDS
      ensures KEYWORDS[w] in SpelledKinds
    {
      KeywordEntry(w);
    }
    forall k | k in SpelledKinds
      ensures k in KEYWORDS.Values
    {
      KindEntry(k);
    }
  }

  /** Every reserved word maps to a keyword, reserved-type or noise-word kind: never to
      Identifier, a literal, an operator, a delimiter, a comment, EOF or Error; and the
      general N_Noiseword kind is never produced from the table. */
  lemma KeywordKinds()
    ensures forall w :: w in KEYWORDS ==>
      IsKeywordKind(KEYWORDS[w]) || IsReservedKind(KEYWORDS[w]) || IsNoiseKind(KEYWORDS[w])
    ensures forall w :: w in KEYWORDS ==>
      KEYWORDS[w] !in {Identifier, NumberLiteral, TextLiteral, BooleanLiteral, N_Noiseword,
                       SingleLineComment, MultiLineComment, NewLine, Whitespace, EOF, Error}
  {
    KeywordImage();
    forall w | w in KEYWORDS
      ensures IsKeywordKind(KEYWORDS[w]) || IsReservedKind(KEYWORDS[w]) || IsNoiseKind(KEYWORDS[w])
      ensures KEYWORDS[w] !in {Identifier, NumberLiteral, TextLiteral, BooleanLiteral, N_Noiseword,
                               SingleLineComment, MultiLineComment, NewLine, Whitespace, EOF, Error}
    {
      assert KEYWORDS[w] in KEYWORDS.Values;
      SpelledKindClass(KEYWORDS[w]);
    }
  }

  lemma SpelledKindClass(k: TokenType)
    requires k in SpelledKinds
    ensures IsKeywordKind(k) || IsReservedKind(k) || IsNoiseKind(k)
    ensures k !in {Identifier, NumberLiteral, TextLiteral, BooleanLiteral, N_Noiseword,
                   SingleLineComment, MultiLineComment, NewLine, Whitespace, EOF, Error}
  {
  }


  /** The reserved type names and the noise words map to their own kinds. */
  lemma ReservedAndNoiseEntries()
    ensures KEYWORDS["text"] == R_Text && KEYWORDS["boolean"] == R_Boolean && KEYWORDS["number"] == R_Number
    ensures KEYWORDS["to"] == N_To && KEYWORDS["is"] == N_Is && KEYWORDS["then"] == N_Then
  {
  }

  /** `true` and `false` are not reserved: the word scanner makes them identifiers. */
  lemma BooleanWordsNotKeywords()
    ensures "true" !in KEYWORDS && "false" !in KEYWORDS
  {
  }

  /** Every reserved word is a non-empty run of lower-case ASCII letters, so the word
      scanner reads each of them as one word. */
  lemma KeywordSpellings()
    ensures forall w :: w in KEYWORDS ==> |w| > 0 && forall c :: c in w ==> 'a' <= c <= 'z'
  {
    forall w | w in KEYWORDS
      ensures |w| > 0 && forall c :: c in w ==> 'a' <= c <= 'z'
    {
      KeywordEntry(w);
      SpellingLowerCase(KEYWORDS[w]);
    }
  }
}
