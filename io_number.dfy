/**
 * The phase of src/modes/posix/rules/io-number.ts: a word made only of
 * digits that stands right before a redirection operator taking a file
 * (`2>err`, `0<in`) is the file descriptor of that redirection, and is
 * retyped IO_NUMBER.
 */
module IoNumber {
  import opened Wrappers
  import opened Tokens
  import IoFileOperators

  /** `/^[0-9]+$/`: one or more decimal digits and nothing else. */
  predicate IsDigits(v: string) {
    |v| > 0 && forall k :: 0 <= k < |v| ==> '0' <= v[k] <= '9'
  }

  /** A WORD whose text is all digits: the tokens the phase asks `isOperator(next)` about. */
  predicate DigitWord(tk: Token) {
    Is(tk, "WORD") && IsDigits(tk.value)
  }

  /** The map callback for position `i`, with `ahead(1)` the next token of the input. */
  function IoNumberAt(s: seq<Token>, i: nat): Token
    requires i + 1 < |s| || (i < |s| && !DigitWord(s[i]))
  {
    if DigitWord(s[i]) && IoFileOperators.IsOperator(s[i + 1]) then
      ChangeTokenType(s[i], "IO_NUMBER", s[i].value)
    else
      s[i]
  }

  /**
   * The phase over a whole stream. It fails exactly when the last token is
   * a digit WORD (there is no next token to test); otherwise the output has
   * the same length as the input, and each token keeps its text, location,
   * flags and expansions, only its type may change.
   */
  function IoNumber(s: seq<Token>): (r: Result<seq<Token>, PhaseError>)
    ensures r.Err? <==> |s| > 0 && DigitWord(s[|s| - 1])
    ensures r.Err? ==> r.error == IoFileOperators.UndefinedToken
    ensures r.Ok? ==> |r.value| == |s|
    ensures r.Ok? ==> forall i :: 0 <= i < |s| ==>
      && r.value[i].value == s[i].value && r.value[i].loc == s[i].loc
      && r.value[i].flags == s[i].flags && r.value[i].expansion == s[i].expansion
  {
    if |s| > 0 && DigitWord(s[|s| - 1]) then Err(IoFileOperators.UndefinedToken)
    else Ok(seq(|s|, i requires 0 <= i < |s| => IoNumberAt(s, i)))
  }

  /**
   * A token becomes IO_NUMBER exactly when it is a digit WORD followed by
   * an IO file operator; every other token is passed on unchanged.
   */
  lemma IoNumberRetypes(s: seq<Token>, i: nat)
    requires IoNumber(s).Ok? && i < |s|
    ensures var out := IoNumber(s).value;
      && (DigitWord(s[i]) && i + 1 < |s| && IoFileOperators.IsOperator(s[i + 1]) ==> Is(out[i], "IO_NUMBER"))
      && (!(DigitWord(s[i]) && i + 1 < |s| && IoFileOperators.IsOperator(s[i + 1])) ==> out[i] == s[i])
  {
  }

  /** A stream without digit words comes out as it went in. */
  lemma NoDigitWordsUnchanged(s: seq<Token>)
    requires forall i :: 0 <= i < |s| ==> !DigitWord(s[i])
    ensures IoNumber(s) == Ok(s)
  {
    assert IoNumber(s).value == s;
  }

  /** `2>err` at the end of the input: the `2` becomes the descriptor of the redirection. */
  lemma DescriptorBeforeRedirection(two: Token, great: Token, file: Token)
    requires Is(two, "WORD") && two.value == "2" && Is(great, "GREAT")
    ensures IoNumber([two, great, file, Eof()]).Ok?
    ensures Is(IoNumber([two, great, file, Eof()]).value[0], "IO_NUMBER")
    ensures IoNumber([two, great, file, Eof()]).value[0].value == "2"
  {
    assert DigitWord(two);
  }
}
