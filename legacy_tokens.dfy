/** The older token kinds and keyword table of backend/src/Tokens.ts: no Error, Whitespace or
    general noise-word kind, a SingleQuote delimiter, other operator names, and no `db` or
    `where` in the table. */
module LegacyTokens {
  import opened Wrappers
  import Tokens

  /** The token kinds, in the order of the source's enum. */
  datatype TokenType =
    // basic
    | Identifier | NumberLiteral | TextLiteral | BooleanLiteral
    // keywords
    | Scene | Start | Story | Character | Transition | Thru | When | Do | End | Input | Rem
    | Perceives | Masking | Says | Log | Choose | Default
    // reserved data types
    | Text | Boolean | Number
    // noise words
    | To | Is | Then
    // operators
    | Plus | Minus | Star | Slash | Percent | Caret | EqualEqual | NotEqual | Less | LessEqual
    | Greater | GreaterEqual | AndAnd | OrOr | Not
    // delimiters
    | LParen | RParen | LBrace | RBrace | LBracket | RBracket | Colon | Semicolon | Comma | Dot
    | DoubleQuote | SingleQuote
    // comments, layout, end of input
    | SingleLineComment | MultiLineComment | NewLine | EOF

  /** A token of the older kinds (the source's field `type` is called `kind` here). */
  datatype Token = Token(kind: TokenType, lexeme: string, line: int, column: int)

  /** The reserved words and their kinds. */
  const KEYWORDS: map<string, TokenType> := map[
    "scene" := Scene,
    "story" := Story,
    "start" := Start,
    "character" := Character,
    "transition" := Transition,
    "thru" := Thru,
    "when" := When,
    "do" := Do,
    "end" := End,
    "input" := Input,
    "says" := Says,
    "log" := Log,
    "rem" := Rem,
    "perceives" := Perceives,
    "masking" := Masking,
    "choose" := Choose,
    "default" := Default,
    "text" := Text,
    "boolean" := Boolean,
    "number" := Number,
    "to" := To,
    "is" := Is,
    "then" := Then
  ]

  /** The word reserved for a kind, if any. */
  function Spelling(k: TokenType): Option<string>
  {
    match k
    case Scene => Some("scene")
    case Start => Some("start")
    case Story => Some("story")
    case Character => Some("character")
    case Transition => Some("transition")
    case Thru => Some("thru")
    case When => Some("when")
    case Do => Some("do")
    case End => Some("end")
    case Input => Some("input")
    case Rem => Some("rem")
    case Perceives => Some("perceives")
    case Masking => Some("masking")
    case Says => Some("says")
    case Log => Some("log")
    case Choose => Some("choose")
    case Default => Some("default")
    case Text => Some("text")
    case Boolean => Some("boolean")
    case Number => Some("number")
    case To => Some("to")
    case Is => Some("is")
    case Then => Some("then")
    case _ => None
  }

  /** The table's key set, written out. */
  lemma KeywordKeys()
    ensures KEYWORDS.Keys == {
      "scene", "story", "start", "character", "transition", "thru", "when", "do", "end",
      "input", "says", "log", "rem", "perceives", "masking", "choose", "default", "text",
      "boolean", "number", "to", "is", "then"}
  {
  }

  lemma KeywordLengths()
    ensures forall w :: w in KEYWORDS ==> 2 <= |w| <= 10 && |w| != 8
  {
    KeywordKeys();
  }

  /* As for the current table, the entries are checked a few words at a time. */

  /** One entry of the table: `Spelling` undoes it. */
  lemma KeywordEntry(w: string)
    requires w in KEYWORDS
    ensures Spelling(KEYWORDS[w]) == Some(w)
  {
    KeywordLengths();
    if |w| == 2 { KeywordEntryTwo(w); }
    else if |w| == 3 { KeywordEntryThree(w); }
    else if |w| == 4 && w[0] == 't' { KeywordEntryFourT(w); }
    else if |w| == 4 && w[0] != 't' { KeywordEntryFourOther(w); }
    else if |w| == 5 && w[0] == 's' { KeywordEntryFiveS(w); }
    else if |w| == 5 && w[0] != 's' { KeywordEntryFiveOther(w); }
    else if |w| == 6 { KeywordEntrySix(w); }
    else if |w| == 7 { KeywordEntrySeven(w); }
    else { KeywordEntryNineOrTen(w); }
  }

  lemma KeywordEntryTwo(w: string)
    requires w in KEYWORDS && |w| == 2
    ensures Spelling(KEYWORDS[w]) == Some(w)
  {
    if w == "do" { assert KEYWORDS["do"] == Do; }
    else if w == "to" { assert KEYWORDS["to"] == To; }
    else if w == "is" { assert KEYWORDS["is"] == Is; }
    else { assert false; }
  }

  lemma KeywordEntryThree(w: string)
    requires w in KEYWORDS && |w| == 3
    ensures Spelling(KEYWORDS[w]) == Some(w)
  {
    if w == "end" { assert KEYWORDS["end"] == End; }
    else if w == "log" { assert KEYWORDS["log"] == Log; }
    else if w == "rem" { assert KEYWORDS["rem"] == Rem; }
    else { assert false; }
  }

  lemma KeywordEntryFourT(w: string)
    requires w in KEYWORDS && |w| == 4 && w[0] == 't'
    ensures Spelling(KEYWORDS[w]) == Some(w)
  {
    if w == "thru" { assert KEYWORDS["thru"] == Thru; }
    else if w == "text" { assert KEYWORDS["text"] == Text; }
    else if w == "then" { assert KEYWORDS["then"] == Then; }
    else { assert false; }
  }

  lemma KeywordEntryFourOther(w: string)
    requires w in KEYWORDS && |w| == 4 && w[0] != 't'
    ensures Spelling(KEYWORDS[w]) == Some(w)
  {
    if w == "when" { assert KEYWORDS["when"] == When; }
    else if w == "says" { assert KEYWORDS["says"] == Says; }
    else { assert false; }
  }

  lemma KeywordEntryFiveS(w: string)
    requires w in KEYWORDS && |w| == 5 && w[0] == 's'
    ensures Spelling(KEYWORDS[w]) == Some(w)
  {
    if w == "scene" { assert KEYWORDS["scene"] == Scene; }
    else if w == "story" { assert KEYWORDS["story"] == Story; }
    else if w == "start" { assert KEYWORDS["start"] == Start; }
    else { assert false; }
  }

  lemma KeywordEntryFiveOther(w: string)
    requires w in KEYWORDS && |w| == 5 && w[0] != 's'
    ensures Spelling(KEYWORDS[w]) == Some(w)
  {
    if w == "input" { assert KEYWORDS["input"] == Input; }
    else { assert false; }
  }

  lemma KeywordEntrySix(w: string)
    requires w in KEYWORDS && |w| == 6
    ensures Spelling(KEYWORDS[w]) == Some(w)
  {
    if w == "choose" { assert KEYWORDS["choose"] == Choose; }
    else if w == "number" { assert KEYWORDS["number"] == Number; }
    else { assert false; }
  }

  lemma KeywordEntrySeven(w: string)
    requires w in KEYWORDS && |w| == 7
    ensures Spelling(KEYWORDS[w]) == Some(w)
  {
    if w == "masking" { assert KEYWORDS["masking"] == Masking; }
    else if w == "default" { assert KEYWORDS["default"] == Default; }
    else if w == "boolean" { assert KEYWORDS["boolean"] == Boolean; }
    else { assert false; }
  }

  lemma KeywordEntryNineOrTen(w: string)
    requires w in KEYWORDS && 9 <= |w| <= 10
    ensures Spelling(KEYWORDS[w]) == Some(w)
  {
    if w == "character" { assert KEYWORDS["character"] == Character; }
    else if w == "transition" { assert KEYWORDS["transition"] == Transition; }
    else if w == "perceives" { assert KEYWORDS["perceives"] == Perceives; }
    else { assert false; }
  }

  /** No two reserved words share a kind. */
  lemma KeywordsDistinct()
    ensures forall a, b :: a in KEYWORDS && b in KEYWORDS && KEYWORDS[a] == KEYWORDS[b] ==> a == b
  {
    forall a, b | a in KEYWORDS && b in KEYWORDS && KEYWORDS[a] == KEYWORDS[b]
      ensures a == b
    {
      KeywordEntry(a);
      KeywordEntry(b);
    }
  }

  /** No reserved word maps to Identifier, a literal kind or EOF. */
  lemma KeywordKinds()
    ensures forall w :: w in KEYWORDS ==>
      KEYWORDS[w] !in {Identifier, NumberLiteral, TextLiteral, BooleanLiteral, EOF}
  {
    forall w | w in KEYWORDS
      ensures Spelling(KEYWORDS[w]).Some?
    {
      KeywordEntry(w);
    }
  }

  /** The reserved data types and the noise words map to their own kinds. */
  lemma ReservedAndNoiseEntries()
    ensures KEYWORDS["text"] == Text && KEYWORDS["boolean"] == Boolean && KEYWORDS["number"] == Number
    ensures KEYWORDS["to"] == To && KEYWORDS["is"] == Is && KEYWORDS["then"] == Then
  {
  }

  /** `db` and `where` are not reserved in this table, while the current one has them. */
  lemma NoDatabaseWords()
    ensures "db" !in KEYWORDS && "where" !in KEYWORDS
    ensures "db" in Tokens.KEYWORDS && "where" in Tokens.KEYWORDS
  {
  }
}
