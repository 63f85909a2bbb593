/**
 * The redirection operators that take a file operand, from
 * src/modes/posix/enums/io-file-operators.ts, and the membership test on a
 * token's type.
 */
module IoFileOperators {
  import opened Tokens

  /**
   * What `isOperator(undefined)` throws: the loop reads `tk.type` of a
   * token that is not there.
   */
  const UndefinedToken: PhaseError := TypeError("Cannot read properties of undefined (reading 'type')")

  /** `ioFileOperators`, in the order the source lists them. */
  const IoFileOperatorTypes: seq<string> :=
    ["LESS", "DLESS", "DGREAT", "LESSAND", "GREATAND", "GREAT", "LESSGREAT", "CLOBBER"]

  /**
   * `isOperator(tk)`: the token's type is one of the eight IO file
   * operators. Only the type is read.
   */
  function IsOperator(tk: Token): (r: bool)
    ensures r <==> tk.tokenType in {"LESS", "DLESS", "DGREAT", "LESSAND", "GREATAND", "GREAT", "LESSGREAT", "CLOBBER"}
  {
    tk.tokenType in IoFileOperatorTypes
  }

  /**
   * `isOperator(tk)` as the source runs it: a scan of `ioFileOperators`
   * that answers true at the first entry equal to the token's type.
   */
  method ScanIsOperator(tk: Token) returns (r: bool)
    ensures r == IsOperator(tk)
  {
    for i := 0 to |IoFileOperatorTypes|
      invariant tk.tokenType !in IoFileOperatorTypes[..i]
    {
      if tk.tokenType == IoFileOperatorTypes[i] {
        return true;
      }
    }
    return false;
  }

  /** The answer depends on the type alone: tokens of the same type get the same answer. */
  lemma OnlyTypeMatters(a: Token, b: Token)
    requires a.tokenType == b.tokenType
    ensures IsOperator(a) == IsOperator(b)
  {
  }

  /** Separators and words are not IO file operators. */
  lemma SeparatorsAndWordsAreNot(tk: Token)
    requires Is(tk, "SEPARATOR_OP") || Is(tk, "WORD") || Is(tk, "IO_NUMBER") || Is(tk, "NEWLINE_LIST")
    ensures !IsOperator(tk)
  {
  }
}
