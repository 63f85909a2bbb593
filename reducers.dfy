/**
 * What the character-scanner reducers share. Each reducer is one step of
 * the scanner's state machine: given the scanner state and the remaining
 * characters, it takes one character off the front of the input and says
 * which tokens to emit, which reducer handles the next character and what
 * the next state is.
 */
module Reducers {
  import opened Wrappers
  import opened Tokens

  /** The reducers a step can hand over to (`reducers.start`, `reducers.end`, ...). */
  datatype Reduction = Start | End | Operator | SingleQuoting | Comment

  /**
   * The record a reducer returns, `{nextReduction, tokensToEmit, nextState}`:
   * a `null` next reduction and an absent token list are None.
   */
  datatype ReducerResult = ReducerResult(
    nextReduction: Option<Reduction>,
    tokensToEmit: Option<seq<Token>>,
    nextState: ScanState)

  /** A reducer's result, with what is left of the input after the reducer's `source.shift()`. */
  datatype Step = Step(result: ReducerResult, rest: seq<char>)

  /**
   * The collaborators the reducers call and that are not part of this model:
   * the mode's operator table, the `start` reducer, and the scanner state
   * methods `appendChar`, `resetCurrent` and `saveCurrentLocAsStart`.
   */
  datatype Scanner = Scanner(
    operators: map<string, string>,
    start: (ScanState, seq<char>) -> ReducerResult,
    appendChar: (ScanState, char) -> ScanState,
    resetCurrent: ScanState -> ScanState,
    saveCurrentLocAsStart: ScanState -> ScanState)

  /**
   * A scanner whose `appendChar` adds the character at the end of the
   * current text and leaves the recorded expansions alone.
   */
  ghost predicate AppendsChar(sc: Scanner) {
    forall st: ScanState, c: char {:trigger sc.appendChar(st, c)} ::
      sc.appendChar(st, c).current == st.current + [c] && sc.appendChar(st, c).expansion == st.expansion
  }

  /**
   * A scanner whose `resetCurrent` empties the current text and whose
   * `saveCurrentLocAsStart` leaves the text alone.
   */
  ghost predicate Restarts(sc: Scanner) {
    && (forall st: ScanState {:trigger sc.resetCurrent(st)} :: sc.resetCurrent(st).current == [])
    && (forall st: ScanState {:trigger sc.saveCurrentLocAsStart(st)} :: sc.saveCurrentLocAsStart(st).current == st.current)
  }
}
