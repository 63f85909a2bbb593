/**
 * The phase of src/modes/posix/rules/syntaxerror-oncontinue.ts: tokens
 * pass through unchanged until a CONTINUE token, the scanner's mark of
 * input that ended inside an unclosed construct, which raises a
 * SyntaxError naming the character that was expected.
 */
module SyntaxErrorOnContinue {
  import opened Wrappers
  import opened Tokens

  /** The error the phase throws for a CONTINUE token. */
  function UnclosedError(tk: Token): PhaseError {
    SyntaxError("Unclosed " + tk.value)
  }

  /** The position of the first CONTINUE token in `s`, if any. */
  function FirstContinue(s: seq<Token>): (r: Option<nat>)
    ensures r.Some? <==> exists i :: 0 <= i < |s| && Is(s[i], "CONTINUE")
    ensures r.Some? ==> r.value < |s| && Is(s[r.value], "CONTINUE")
    ensures r.Some? ==> forall i :: 0 <= i < r.value ==> !Is(s[i], "CONTINUE")
  {
    if s == [] then None
    else if Is(s[0], "CONTINUE") then Some(0)
    else
      match FirstContinue(s[1..])
      case None => None
      case Some(k) => Some(k + 1)
  }

  /**
   * `syntaxerrorOnContinue()` applied to a whole stream: the identity,
   * unless the stream holds a CONTINUE token, in which case the first one
   * raises "Unclosed " followed by its value.
   */
  function SyntaxErrorOnContinue(s: seq<Token>): (r: Result<seq<Token>, PhaseError>)
    ensures r.Ok? <==> forall i :: 0 <= i < |s| ==> !Is(s[i], "CONTINUE")
    ensures r.Ok? ==> r.value == s
    ensures r.Err? ==> FirstContinue(s).Some? && r.error == UnclosedError(s[FirstContinue(s).value])
  {
    if s == [] then Ok([])
    else if Is(s[0], "CONTINUE") then Err(UnclosedError(s[0]))
    else
      match SyntaxErrorOnContinue(s[1..])
      case Ok(rest) => Ok([s[0]] + rest)
      case Err(e) => Err(e)
  }
}
