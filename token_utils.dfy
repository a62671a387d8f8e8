/** The token factory, the keyword lookup and the token-list post-processing of
    backend/src/utils/utils.ts. */
module TokenUtils {
  import opened Tokens
  import opened Seqs

  /** The token record with the four given fields. */
  function MakeToken(kind: TokenType, lexeme: string, line: int, column: int): (t: Token)
    ensures t.kind == kind && t.lexeme == lexeme && t.line == line && t.column == column
  {
    Token(kind, lexeme, line, column)
  }

  /** The kind a word gets from a keyword table: its entry when it has one, Identifier
      otherwise. The table is an own-key lookup here; see `KeywordOrIdentifierAsWritten`
      for what the source's object lookup does beyond that. */
  function KeywordOrIdentifier(lexeme: string, keywords: map<string, TokenType>): (k: TokenType)
    ensures lexeme in keywords ==> k == keywords[lexeme]
    ensures lexeme !in keywords ==> k == Identifier
  {
    if lexeme in keywords then keywords[lexeme] else Identifier
  }

  /** With the reserved-word table, a word is an Identifier exactly when it is not a reserved
      word; a reserved word gets a keyword, reserved-type or noise-word kind. */
  lemma KeywordOrIdentifierClassifies(w: string)
    ensures KeywordOrIdentifier(w, KEYWORDS) == Identifier <==> w !in KEYWORDS
    ensures w in KEYWORDS ==> var k := KeywordOrIdentifier(w, KEYWORDS);
      IsKeywordKind(k) || IsReservedKind(k) || IsNoiseKind(k)
  {
    KeywordKinds();
  }

  /** `true` and `false` are words like any other: the lookup makes them identifiers, not
      boolean literals. */
  lemma BooleanWordsAreIdentifiers()
    ensures KeywordOrIdentifier("true", KEYWORDS) == Identifier
    ensures KeywordOrIdentifier("false", KEYWORDS) == Identifier
  {
    BooleanWordsNotKeywords();
  }

  /** What reading a property of a plain JavaScript object literal can give: the own entry,
      or a member every object inherits from `Object.prototype`. */
  datatype PropertyValue = Kind(kind: TokenType) | InheritedMember(name: string)

  /** The names every plain object answers through `Object.prototype`. */
  const ObjectPrototypeMembers: set<string> :=
    {"constructor", "hasOwnProperty", "isPrototypeOf", "propertyIsEnumerable",
     "toLocaleString", "toString", "valueOf", "__proto__", "__defineGetter__",
     "__defineSetter__", "__lookupGetter__", "__lookupSetter__"}

  /** `keywords[lexeme] ?? TokenType.Identifier` as the source writes it: the table is an
      object literal, so an inherited member is found too, and as it is neither `null` nor
      `undefined` the `??` returns it. */
  function KeywordOrIdentifierAsWritten(lexeme: string, keywords: map<string, TokenType>): (v: PropertyValue)
    ensures lexeme in keywords ==> v == Kind(keywords[lexeme])
    ensures lexeme !in keywords ==> (v.InheritedMember? <==> lexeme in ObjectPrototypeMembers)
    ensures v.Kind? ==> v.kind == KeywordOrIdentifier(lexeme, keywords)
  {
    if lexeme in keywords then Kind(keywords[lexeme])
    else if lexeme in ObjectPrototypeMembers then InheritedMember(lexeme)
    else Kind(Identifier)
  }

  /** The discrepancy: `toString` is a word the scanner reads (it starts with a letter and is
      all letters), it is not reserved, yet the lookup as written answers an inherited
      function instead of Identifier. */
  lemma InheritedMemberIsNotAKind()
    ensures "toString" !in KEYWORDS
    ensures KeywordOrIdentifierAsWritten("toString", KEYWORDS) == InheritedMember("toString")
    ensures KeywordOrIdentifier("toString", KEYWORDS) == Identifier
  {
    assert "toString" in ObjectPrototypeMembers;
  }

  /** Off the inherited names, the lookup as written and the corrected one agree. */
  lemma AsWrittenAgreesOffPrototype(w: string, keywords: map<string, TokenType>)
    requires w !in ObjectPrototypeMembers || w in keywords
    ensures KeywordOrIdentifierAsWritten(w, keywords) == Kind(KeywordOrIdentifier(w, keywords))
  {
  }

  predicate IsComment(t: Token)
  {
    t.kind == SingleLineComment || t.kind == MultiLineComment
  }

  predicate NotComment(t: Token)
  {
    !IsComment(t)
  }

  predicate NotWhitespace(t: Token)
  {
    t.kind != Whitespace
  }

  predicate NotNoiseWord(t: Token)
  {
    t.kind != N_Noiseword
  }

  predicate IsError(t: Token)
  {
    t.kind == Error
  }

  /** The tokens that are not comments, in order. */
  function RemoveComments(tokens: seq<Token>): (r: seq<Token>)
    ensures forall i :: 0 <= i < |r| ==> !IsComment(r[i])
  {
    Filter(tokens, NotComment)
  }

  /** The tokens that are not Whitespace, in order. */
  function RemoveWhitespace(tokens: seq<Token>): (r: seq<Token>)
    ensures forall i :: 0 <= i < |r| ==> r[i].kind != Whitespace
  {
    Filter(tokens, NotWhitespace)
  }

  /** The tokens that are not N_Noiseword, in order. */
  function RemoveNoiseWords(tokens: seq<Token>): (r: seq<Token>)
    ensures forall i :: 0 <= i < |r| ==> r[i].kind != N_Noiseword
  {
    Filter(tokens, NotNoiseWord)
  }

  /** The tokens of kind `kind`, in order. */
  function GetTokensByType(tokens: seq<Token>, kind: TokenType): (r: seq<Token>)
    ensures forall i :: 0 <= i < |r| ==> r[i].kind == kind
  {
    Filter(tokens, (t: Token) => t.kind == kind)
  }

  /** Whether some token is an Error token. */
  function HasErrors(tokens: seq<Token>): (b: bool)
    ensures b <==> exists i :: 0 <= i < |tokens| && tokens[i].kind == Error
  {
    Any(tokens, IsError)
  }

  /** The Error tokens, in order. */
  function GetErrors(tokens: seq<Token>): (r: seq<Token>)
    ensures forall i :: 0 <= i < |r| ==> r[i].kind == Error
  {
    Filter(tokens, IsError)
  }

  /** `removeComments` drops exactly the comments: every other token is kept, as often as it
      occurs, and in its order. */
  lemma RemoveCommentsKeepsTheRest(tokens: seq<Token>)
    ensures forall t :: multiset(RemoveComments(tokens))[t] == if IsComment(t) then 0 else multiset(tokens)[t]
    ensures IsSubsequence(RemoveComments(tokens), tokens)
  {
    FilterCounts(tokens, NotComment);
    FilterIsSubsequence(tokens, NotComment);
  }

  lemma RemoveCommentsIdempotent(tokens: seq<Token>)
    ensures RemoveComments(RemoveComments(tokens)) == RemoveComments(tokens)
  {
    FilterIdempotent(tokens, NotComment);
  }

  /** `removeWhitespace` drops exactly the Whitespace tokens and keeps the order of the rest. */
  lemma RemoveWhitespaceKeepsTheRest(tokens: seq<Token>)
    ensures forall t :: multiset(RemoveWhitespace(tokens))[t] == if t.kind == Whitespace then 0 else multiset(tokens)[t]
    ensures IsSubsequence(RemoveWhitespace(tokens), tokens)
  {
    FilterCounts(tokens, NotWhitespace);
    FilterIsSubsequence(tokens, NotWhitespace);
  }

  /** `removeNoiseWords` drops exactly the N_Noiseword tokens and keeps the order of the rest. */
  lemma RemoveNoiseWordsKeepsTheRest(tokens: seq<Token>)
    ensures forall t :: multiset(RemoveNoiseWords(tokens))[t] == if t.kind == N_Noiseword then 0 else multiset(tokens)[t]
    ensures IsSubsequence(RemoveNoiseWords(tokens), tokens)
  {
    FilterCounts(tokens, NotNoiseWord);
    FilterIsSubsequence(tokens, NotNoiseWord);
  }

  /** The filters can run in any order. */
  lemma RemoversCommute(tokens: seq<Token>)
    ensures RemoveWhitespace(RemoveComments(tokens)) == RemoveComments(RemoveWhitespace(tokens))
    ensures RemoveNoiseWords(RemoveComments(tokens)) == RemoveComments(RemoveNoiseWords(tokens))
  {
    FilterCommutes(tokens, NotComment, NotWhitespace);
    FilterCommutes(tokens, NotComment, NotNoiseWord);
  }

  /** `getTokensByType` keeps every token of the kind, as often as it occurs, in order. */
  lemma GetTokensByTypeKeepsAll(tokens: seq<Token>, kind: TokenType)
    ensures forall t :: multiset(GetTokensByType(tokens, kind))[t] == if t.kind == kind then multiset(tokens)[t] else 0
    ensures IsSubsequence(GetTokensByType(tokens, kind), tokens)
  {
    FilterCounts(tokens, (t: Token) => t.kind == kind);
    FilterIsSubsequence(tokens, (t: Token) => t.kind == kind);
  }

  /** `hasErrors` and `getErrors` agree: there is an error exactly when the error list is
      non-empty; and the error list holds every Error token. */
  lemma HasErrorsIffGetErrors(tokens: seq<Token>)
    ensures HasErrors(tokens) <==> GetErrors(tokens) != []
    ensures forall t :: multiset(GetErrors(tokens))[t] == if t.kind == Error then multiset(tokens)[t] else 0
  {
    FilterCounts(tokens, IsError);
    if HasErrors(tokens) {
      var i :| 0 <= i < |tokens| && tokens[i].kind == Error;
      assert tokens[i] in multiset(tokens);
      assert tokens[i] in multiset(GetErrors(tokens));
    }
  }
}
