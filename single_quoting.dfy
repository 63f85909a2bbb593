/**
 * The `singleQuoting` reducer of
 * src/modes/posix/tokenizer/reducers/single-quoting.ts: inside single
 * quotes every character is taken literally; a closing quote returns to
 * `start`, and input that ends inside the quotes emits a CONTINUE token
 * expecting the closing quote.
 */
module SingleQuotingReducer {
  import opened Wrappers
  import opened Tokens
  import opened Reducers
  import SyntaxErrorOnContinue

  /** One step of the `singleQuoting` reducer. */
  function SingleQuoting(sc: Scanner, state: ScanState, source: seq<char>): (r: Step)
    requires AbsoluteExpansions(state)
    // End of input inside the quotes: the pending text, then CONTINUE for `'`; the scan stops.
    ensures source == [] ==>
      r == Step(ReducerResult(None, Some(TokenOrEmpty(state) + [ContinueToken("'")]), state), [])
    // Any character, the closing quote included, is appended as it is and nothing is emitted.
    ensures source != [] ==>
      && r.rest == source[1..]
      && r.result.tokensToEmit.None?
      && r.result.nextState == sc.appendChar(state, source[0])
    // Only the closing quote leaves the reducer.
    ensures source != [] ==>
      r.result.nextReduction == Some(if source[0] == '\'' then Start else Reduction.SingleQuoting)
  {
    if source == [] then
      Step(ReducerResult(None, Some(TokenOrEmpty(state) + [ContinueToken("'")]), state), [])
    else if source[0] == '\'' then
      Step(ReducerResult(Some(Start), None, sc.appendChar(state, source[0])), source[1..])
    else
      Step(ReducerResult(Some(Reduction.SingleQuoting), None, sc.appendChar(state, source[0])), source[1..])
  }

  /** The scanner running `singleQuoting` until it hands over to another reducer or stops. */
  function QuoteRun(sc: Scanner, state: ScanState, source: seq<char>): Step
    requires AppendsChar(sc) && AbsoluteExpansions(state)
    decreases |source|
  {
    var step := SingleQuoting(sc, state, source);
    if source != [] && step.result.nextReduction == Some(Reduction.SingleQuoting) then
      QuoteRun(sc, step.result.nextState, step.rest)
    else
      step
  }

  /**
   * A closed quotation: the text up to and including the closing quote is
   * appended verbatim (backslashes, double quotes, `$` and newlines
   * included), nothing is emitted, and `start` takes over right after the
   * closing quote.
   */
  lemma {:induction false} ClosedQuoteVerbatim(sc: Scanner, state: ScanState, w: string, rest: string)
    requires AppendsChar(sc) && AbsoluteExpansions(state)
    requires '\'' !in w
    ensures var r := QuoteRun(sc, state, w + "'" + rest);
      && r.result.nextReduction == Some(Start)
      && r.result.tokensToEmit.None?
      && r.result.nextState.current == state.current + w + "'"
      && r.rest == rest
    decreases |w|
  {
    var source := w + "'" + rest;
    if w == [] {
      assert source[0] == '\'' && source[1..] == rest;
      assert state.current + w + "'" == state.current + "'";
    } else {
      assert source[0] == w[0] && source[1..] == w[1..] + "'" + rest;
      var next := sc.appendChar(state, w[0]);
      assert w[0] in w;
      ClosedQuoteVerbatim(sc, next, w[1..], rest);
      assert next.current + w[1..] + "'" == state.current + w + "'";
    }
  }

  /**
   * An unclosed quotation: the whole remaining input is appended, and at
   * its end the reducer emits the pending text followed by a CONTINUE token
   * that expects `'`, and stops the scan.
   */
  lemma {:induction false} UnclosedQuoteContinues(sc: Scanner, state: ScanState, w: string)
    requires AppendsChar(sc) && AbsoluteExpansions(state)
    requires '\'' !in w
    ensures var r := QuoteRun(sc, state, w);
      && r.result.nextReduction.None?
      && r.result.nextState.current == state.current + w
      && AbsoluteExpansions(r.result.nextState)
      && r.result.tokensToEmit == Some(TokenOrEmpty(r.result.nextState) + [ContinueToken("'")])
      && r.rest == []
    decreases |w|
  {
    if w == [] {
      assert state.current + w == state.current;
    } else {
      var next := sc.appendChar(state, w[0]);
      assert w[0] in w;
      UnclosedQuoteContinues(sc, next, w[1..]);
      assert next.current + w[1..] == state.current + w;
    }
  }

  /**
   * Further down the pipeline, the tokens an unclosed quotation emits make
   * the CONTINUE check fail with "Unclosed '".
   */
  lemma UnclosedQuoteReported(sc: Scanner, state: ScanState, w: string)
    requires AppendsChar(sc) && AbsoluteExpansions(state)
    requires '\'' !in w
    ensures QuoteRun(sc, state, w).result.tokensToEmit.Some?
    ensures SyntaxErrorOnContinue.SyntaxErrorOnContinue(QuoteRun(sc, state, w).result.tokensToEmit.value)
      == Err(SyntaxError("Unclosed '"))
  {
    UnclosedQuoteContinues(sc, state, w);
    var r := QuoteRun(sc, state, w);
    var pending := TokenOrEmpty(r.result.nextState);
    var emitted := pending + [ContinueToken("'")];
    assert emitted[|emitted| - 1] == ContinueToken("'");
    var res := SyntaxErrorOnContinue.SyntaxErrorOnContinue(emitted);
    assert res.Err?;
    var i :| && 0 <= i < |emitted| && Is(emitted[i], "CONTINUE")
             && (forall j :: 0 <= j < i ==> !Is(emitted[j], "CONTINUE"))
             && res.error == SyntaxError("Unclosed " + emitted[i].value);
    assert i == |emitted| - 1;
    assert emitted[i].value == "'";
    assert "Unclosed " + "'" == "Unclosed '";
  }
}
