/** The character classifiers of backend/src/utils/helpers.ts, together with the two
    classifiers the lexer imports from it (`isOperatorChar`, `isDelimiterChar`), which are
    defined here as exactly the characters their scanners' switches handle.
    Like the source, every classifier takes a string; the lexer applies them to the
    one-character string the cursor returns. */
module CharClass {

  /** `/^[A-Za-z]$/.test(c)`: exactly one ASCII letter. */
  predicate IsLetter(c: string)
  {
    |c| == 1 && (('A' <= c[0] <= 'Z') || ('a' <= c[0] <= 'z'))
  }

  /** `/^[0-9]$/.test(c)`: exactly one ASCII digit. */
  predicate IsDigit(c: string)
  {
    |c| == 1 && '0' <= c[0] <= '9'
  }

  predicate IsAlphaNumeric(c: string)
  {
    IsLetter(c) || IsDigit(c) || c == "_"
  }

  /** False on the empty string; otherwise looks only at the first character (the source
      reads its first UTF-16 code unit, which is the same for every character the tests
      accept): space (32) or one of 9..13 (tab, line feed, vertical tab, form feed,
      carriage return). */
  predicate IsWhitespace(c: string)
  {
    |c| > 0 && (c[0] as int == 32 || 9 <= c[0] as int <= 13)
  }

  /** The characters `scanOperator` switches on. */
  predicate IsOperatorChar(c: string)
  {
    |c| == 1 && c[0] in "=!<>&|+-*/%^"
  }

  /** The characters `scanDelimiter` switches on. */
  predicate IsDelimiterChar(c: string)
  {
    |c| == 1 && c[0] in "(){}[]:;,."
  }

  /** The lexer's dispatch tests whitespace, letter, digit, `"`, `~`, operator and
      delimiter in that order; no character passes two of these tests, so the order
      does not change which scanner runs. */
  lemma DispatchClassesDisjoint(ch: char)
    ensures IsWhitespace([ch]) ==> !IsLetter([ch]) && !IsDigit([ch]) && ch != '"' && ch != '~'
                                   && !IsOperatorChar([ch]) && !IsDelimiterChar([ch])
    ensures IsLetter([ch]) ==> !IsDigit([ch]) && ch != '"' && ch != '~'
                               && !IsOperatorChar([ch]) && !IsDelimiterChar([ch])
    ensures IsDigit([ch]) ==> ch != '"' && ch != '~' && !IsOperatorChar([ch]) && !IsDelimiterChar([ch])
    ensures ch == '"' || ch == '~' ==> !IsOperatorChar([ch]) && !IsDelimiterChar([ch])
    ensures IsOperatorChar([ch]) ==> !IsDelimiterChar([ch])
  {
  }

  /** The word characters are letters, digits and `_`; the sentinel `"\0"` is none of
      the classes, so reading past the end never extends a run. */
  lemma SentinelIsUnclassified()
    ensures !IsWhitespace("\0") && !IsAlphaNumeric("\0") && !IsDigit("\0")
    ensures !IsOperatorChar("\0") && !IsDelimiterChar("\0")
    ensures !IsWhitespace("")
  {
  }
}
