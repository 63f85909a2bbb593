/**
 * The `comment` reducer of src/modes/posix/tokenizer/reducers/comment.ts:
 * after `#` everything up to the end of the line is dropped; the newline
 * ending the comment is emitted as a NEWLINE token and `start` takes over.
 * The scanner state is never touched, so nothing of the comment ends up
 * in a token.
 */
module CommentReducer {
  import opened Wrappers
  import opened Tokens
  import opened Reducers

  /** One step of the `comment` reducer. */
  function Comment(state: ScanState, source: seq<char>): (r: Step)
    ensures r.result.nextState == state
    ensures source == [] ==> r.result == ReducerResult(Some(End), None, state) && r.rest == []
    ensures source != [] ==> r.rest == source[1..]
    ensures source != [] && source[0] == '\n' ==>
      r.result.tokensToEmit == Some([NewLine()]) && r.result.nextReduction == Some(Start)
    ensures source != [] && source[0] != '\n' ==>
      r.result.tokensToEmit.None? && r.result.nextReduction == Some(Reduction.Comment)
  {
    if source == [] then
      Step(ReducerResult(Some(End), None, state), [])
    else if source[0] == '\n' then
      Step(ReducerResult(Some(Start), Some([NewLine()]), state), source[1..])
    else
      Step(ReducerResult(Some(Reduction.Comment), None, state), source[1..])
  }

  /** The scanner running `comment` until it hands over to another reducer. */
  function CommentRun(state: ScanState, source: seq<char>): Step
    decreases |source|
  {
    var step := Comment(state, source);
    if source != [] && step.result.nextReduction == Some(Reduction.Comment) then
      CommentRun(step.result.nextState, step.rest)
    else
      step
  }

  /**
   * A comment ended by a newline: the comment text is skipped, exactly one
   * NEWLINE token is emitted, `start` resumes right after the newline, and
   * the scanner state is the one before the comment.
   */
  lemma {:induction false} CommentEndsAtNewline(state: ScanState, w: string, rest: string)
    requires '\n' !in w
    ensures CommentRun(state, w + "\n" + rest) == Step(ReducerResult(Some(Start), Some([NewLine()]), state), rest)
    decreases |w|
  {
    var source := w + "\n" + rest;
    if w == [] {
      assert source[0] == '\n' && source[1..] == rest;
    } else {
      assert source[0] == w[0] && source[1..] == w[1..] + "\n" + rest;
      assert w[0] in w;
      CommentEndsAtNewline(state, w[1..], rest);
    }
  }

  /** A comment running to the end of input emits nothing and ends the scan. */
  lemma {:induction false} CommentAtEndOfInput(state: ScanState, w: string)
    requires '\n' !in w
    ensures CommentRun(state, w) == Step(ReducerResult(Some(End), None, state), [])
    decreases |w|
  {
    if w != [] {
      assert w[0] in w;
      CommentAtEndOfInput(state, w[1..]);
    }
  }
}
