/**
 * The `operator` reducer of src/modes/posix/tokenizer/reducers/operator.ts:
 * maximal-munch scanning of operators. The reducer keeps appending
 * characters while the text read so far is still the beginning of some
 * operator; on the first character that cannot extend it, it emits the
 * operator and hands that character back to `start`.
 */
module OperatorReducer {
  import opened Wrappers
  import opened Tokens
  import opened Reducers

  /** `state.resetCurrent().saveCurrentLocAsStart()`: ready for the next token. */
  function Restarted(sc: Scanner, state: ScanState): (r: ScanState)
    // Nothing of the finished operator's text is carried into the next token.
    ensures Restarts(sc) ==> r.current == []
  {
    sc.saveCurrentLocAsStart(sc.resetCurrent(state))
  }

  /**
   * One step of the `operator` reducer.
   *
   * At end of input the source calls `reducers.start(state, char)` with
   * `char` undefined; `start` reads that as exhausted input, which the model
   * passes as `[]`.
   */
  function Operator(sc: Scanner, state: ScanState, source: seq<char>): (r: Step)
    // End of input with a complete operator: emit it and finish.
    ensures source == [] && IsOperator(sc.operators, state.current) ==>
      r == Step(ReducerResult(Some(End), Some(OperatorTokens(sc.operators, state)), Restarted(sc, state)), [])
    // End of input with an incomplete operator: whatever `start` does at end of input.
    ensures source == [] && !IsOperator(sc.operators, state.current) ==>
      r == Step(sc.start(state, []), [])
    // The character extends the operator: append it, emit nothing, stay in `operator`.
    ensures source != [] && IsPartOfOperator(sc.operators, state.current + [source[0]]) ==>
      r == Step(ReducerResult(Some(Reduction.Operator), None, sc.appendChar(state, source[0])), source[1..])
    // It does not: the operator read so far (if complete) comes first, then
    // what `start` emits for the same input, character included.
    ensures source != [] && !IsPartOfOperator(sc.operators, state.current + [source[0]]) ==>
      var complete := IsOperator(sc.operators, state.current);
      var ret := sc.start(if complete then Restarted(sc, state) else state, source);
      && r.rest == source[1..]
      && r.result.nextReduction == ret.nextReduction
      && r.result.nextState == ret.nextState
      && r.result.tokensToEmit ==
           Some((if complete then OperatorTokens(sc.operators, state) else []) + ret.tokensToEmit.GetOr([]))
  {
    if source == [] then
      if IsOperator(sc.operators, state.current) then
        Step(ReducerResult(Some(End), Some(OperatorTokens(sc.operators, state)), Restarted(sc, state)), [])
      else
        Step(sc.start(state, []), [])
    else
      var c, rest := source[0], source[1..];
      if IsPartOfOperator(sc.operators, state.current + [c]) then
        Step(ReducerResult(Some(Reduction.Operator), None, sc.appendChar(state, c)), rest)
      else
        var tokens := if IsOperator(sc.operators, state.current) then OperatorTokens(sc.operators, state) else [];
        var st := if IsOperator(sc.operators, state.current) then Restarted(sc, state) else state;
        assert [c] + rest == source;
        var ret := sc.start(st, source);
        Step(ReducerResult(ret.nextReduction, Some(tokens + ret.tokensToEmit.GetOr([])), ret.nextState), rest)
  }

  /**
   * The scanner running the `operator` reducer for as long as each step
   * only extends the operator (emits nothing); the state and input it stops at.
   */
  function Munch(sc: Scanner, state: ScanState, source: seq<char>): (ScanState, seq<char>)
    decreases |source|
  {
    var step := Operator(sc, state, source);
    if source != [] && step.result.tokensToEmit.None? then
      Munch(sc, step.result.nextState, step.rest)
    else
      (state, source)
  }

  /** One extending step: the character is appended and the scan goes on from there. */
  lemma MunchExtends(sc: Scanner, state: ScanState, source: seq<char>)
    requires source != [] && IsPartOfOperator(sc.operators, state.current + [source[0]])
    ensures Munch(sc, state, source) == Munch(sc, sc.appendChar(state, source[0]), source[1..])
  {
  }

  /** A character that cannot extend the operator stops the scan in front of it. */
  lemma MunchStops(sc: Scanner, state: ScanState, source: seq<char>)
    requires source != [] && !IsPartOfOperator(sc.operators, state.current + [source[0]])
    ensures Munch(sc, state, source) == (state, source)
  {
    assert Operator(sc, state, source).result.tokensToEmit.Some?;
  }

  /** Moving the first character of `w` into the text read keeps every prefix an operator prefix. */
  lemma PrefixesShift(operators: map<string, string>, text: string, w: string)
    requires w != []
    requires forall k :: 0 < k <= |w| ==> IsPartOfOperator(operators, text + w[..k])
    ensures forall k :: 0 < k <= |w[1..]| ==> IsPartOfOperator(operators, text + [w[0]] + w[1..][..k])
  {
    forall k | 0 < k <= |w[1..]|
      ensures IsPartOfOperator(operators, text + [w[0]] + w[1..][..k])
    {
      assert text + [w[0]] + w[1..][..k] == text + w[..k + 1];
    }
  }

  /**
   * Maximal munch: when every non-empty prefix of `w` extends the operator
   * being read and `c` does not, the reducer reads all of `w` and stops in
   * front of `c`, with the text read so far extended by `w`.
   */
  lemma {:induction false} MaximalMunch(sc: Scanner, state: ScanState, w: string, c: char, rest: string)
    requires AppendsChar(sc)
    requires forall k :: 0 < k <= |w| ==> IsPartOfOperator(sc.operators, state.current + w[..k])
    requires !IsPartOfOperator(sc.operators, state.current + w + [c])
    ensures Munch(sc, state, w + [c] + rest).1 == [c] + rest
    ensures Munch(sc, state, w + [c] + rest).0.current == state.current + w
    decreases |w|
  {
    var source := w + [c] + rest;
    if w == [] {
      assert source == [c] + rest;
      assert state.current + w == state.current;
      MunchStops(sc, state, source);
    } else {
      var next := sc.appendChar(state, w[0]);
      ShiftStep(sc, state, w, c, rest);
      MaximalMunch(sc, next, w[1..], c, rest);
    }
  }

  /** One step of the maximal-munch induction: reading `w[0]` leaves the hypotheses true of `w[1..]`. */
  lemma ShiftStep(sc: Scanner, state: ScanState, w: string, c: char, rest: string)
    requires AppendsChar(sc) && w != []
    requires forall k :: 0 < k <= |w| ==> IsPartOfOperator(sc.operators, state.current + w[..k])
    requires !IsPartOfOperator(sc.operators, state.current + w + [c])
    ensures Munch(sc, state, w + [c] + rest) == Munch(sc, sc.appendChar(state, w[0]), w[1..] + [c] + rest)
    ensures forall k :: 0 < k <= |w[1..]| ==>
      IsPartOfOperator(sc.operators, sc.appendChar(state, w[0]).current + w[1..][..k])
    ensures !IsPartOfOperator(sc.operators, sc.appendChar(state, w[0]).current + w[1..] + [c])
    ensures sc.appendChar(state, w[0]).current + w[1..] == state.current + w
  {
    var next := sc.appendChar(state, w[0]);
    assert next.current == state.current + [w[0]];
    assert Munch(sc, state, w + [c] + rest) == Munch(sc, next, w[1..] + [c] + rest) by {
      var source := w + [c] + rest;
      assert source[0] == w[0] && source[1..] == w[1..] + [c] + rest;
      assert w[..1] == [w[0]];
      assert IsPartOfOperator(sc.operators, state.current + w[..1]);
      MunchExtends(sc, state, source);
    }
    assert forall k :: 0 < k <= |w[1..]| ==> IsPartOfOperator(sc.operators, next.current + w[1..][..k]) by {
      PrefixesShift(sc.operators, state.current, w);
    }
    AppendShift(state.current, w, c);
  }

  /** Moving the first character of `w` onto the text read leaves the concatenations alone. */
  lemma AppendShift(text: string, w: string, c: char)
    requires w != []
    ensures text + [w[0]] + w[1..] == text + w
    ensures text + [w[0]] + w[1..] + [c] == text + w + [c]
  {
    assert w == [w[0]] + w[1..];
  }

  /**
   * Where the scan stops on a complete operator, the next step emits the
   * whole text read as one token typed by the operator table, ahead of
   * anything `start` emits.
   */
  lemma LongestOperatorEmitted(sc: Scanner, state: ScanState, c: char, rest: string)
    requires IsOperator(sc.operators, state.current)
    requires !IsPartOfOperator(sc.operators, state.current + [c])
    ensures var emitted := Operator(sc, state, [c] + rest).result.tokensToEmit;
      && emitted.Some? && |emitted.value| >= 1
      && emitted.value[0].value == state.current
      && Is(emitted.value[0], sc.operators[state.current])
  {
  }
}
