/**
 * The phase of src/modes/posix/rules/operator-tokens.ts: the scanner emits
 * every operator as a generic OPERATOR token, and this phase gives each one
 * the kind the mode's operator table assigns to its text.
 */
module OperatorTokensPhase {
  import opened Wrappers
  import opened Tokens

  /** The `OPERATOR` method of `reduceToOperatorTokenVisitor(operators)`. */
  function ReduceToOperator(operators: map<string, string>, tk: Token): (r: Token)
    // A text in the table takes the table's kind and keeps its text, location, flags and expansions.
    ensures tk.value in operators ==>
      && Is(r, operators[tk.value]) && r.value == tk.value
      && r.loc == tk.loc && r.flags == tk.flags && r.expansion == tk.expansion
    ensures tk.value !in operators ==> r == tk
  {
    if tk.value in operators then ChangeTokenType(tk, operators[tk.value], tk.value) else tk
  }

  /** `reduceToOperatorTokenVisitor(operators)`: a visitor with an `OPERATOR` method only. */
  function ReduceToOperatorTokenVisitor(operators: map<string, string>): (v: Visitor)
    // OPERATOR tokens are reduced, and never dropped.
    ensures forall tk, around :: Is(tk, "OPERATOR") ==>
      ApplyTokenizerVisitor(v, tk, around) == Some(ReduceToOperator(operators, tk))
    // Every other token comes back as it is: there is no `defaultMethod`.
    ensures forall tk, around :: !Is(tk, "OPERATOR") ==> ApplyTokenizerVisitor(v, tk, around) == Some(tk)
  {
    map["OPERATOR" := (tk: Token, around: Neighbours) => Some(ReduceToOperator(operators, tk))]
  }

  /**
   * The phase over a whole stream. An OPERATOR token whose text is in the
   * table takes the table's kind, with the same text, location, flags and
   * expansions; every other token, an OPERATOR not in the table included,
   * is passed on as it is. Length and order are kept.
   */
  function OperatorTokens(operators: map<string, string>, s: seq<Token>): (r: seq<Token>)
    ensures |r| == |s|
    ensures forall i :: 0 <= i < |s| ==>
      Some(r[i]) == ApplyTokenizerVisitor(ReduceToOperatorTokenVisitor(operators), s[i], Around(s, i))
    ensures forall i :: 0 <= i < |s| && Is(s[i], "OPERATOR") && s[i].value in operators ==>
      && Is(r[i], operators[s[i].value])
      && r[i].value == s[i].value
      && r[i].loc == s[i].loc && r[i].flags == s[i].flags && r[i].expansion == s[i].expansion
    ensures forall i :: 0 <= i < |s| && !(Is(s[i], "OPERATOR") && s[i].value in operators) ==> r[i] == s[i]
  {
    seq(|s|, i requires 0 <= i < |s| => if Is(s[i], "OPERATOR") then ReduceToOperator(operators, s[i]) else s[i])
  }

  /**
   * Running the phase twice is running it once, provided no operator kind
   * is itself called OPERATOR.
   */
  lemma {:induction false} OperatorTokensIdempotent(operators: map<string, string>, s: seq<Token>)
    requires "OPERATOR" !in operators.Values
    ensures OperatorTokens(operators, OperatorTokens(operators, s)) == OperatorTokens(operators, s)
  {
    var once := OperatorTokens(operators, s);
    forall i | 0 <= i < |once|
      ensures OperatorTokens(operators, once)[i] == once[i]
    {
      if Is(s[i], "OPERATOR") && s[i].value in operators {
        assert operators[s[i].value] in operators.Values;
      }
    }
  }
}
