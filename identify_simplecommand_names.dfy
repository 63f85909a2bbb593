/**
 * The phase of src/modes/posix/rules/identify-simplecommand-names.ts. An
 * earlier phase flags the tokens where a simple command may start; this
 * phase finds the command name of each: the start token itself when it is
 * a valid name, otherwise the first later word of the same command that is
 * a valid name and not the operand of a redirection. The search is carried
 * from token to token by the `commandNameNotFoundYet` flag, written into
 * the next token's flag bag in place.
 */
module IdentifySimpleCommandNames {
  import opened Wrappers
  import opened Tokens
  import IoFileOperators

  const MaybeStartOfSimpleCommand := "maybeStartOfSimpleCommand"
  const MaybeSimpleCommandName := "maybeSimpleCommandName"
  const CommandNameNotFoundYet := "commandNameNotFoundYet"

  /** `couldEndSimpleCommand(scTk)` for a token that is there. */
  predicate CouldEndSimpleCommand(tk: Token)
    // A word, or the operand-taking operator of a redirection, ends a command only as the text `;`.
    ensures Is(tk, "WORD") || IoFileOperators.IsOperator(tk) ==> (CouldEndSimpleCommand(tk) <==> tk.value == ";")
    // Separators, newlines and the pipeline and and-or operators always end it.
    ensures Is(tk, "SEPARATOR_OP") || Is(tk, "NEWLINE_LIST") || Is(tk, "PIPE") || Is(tk, "AND_IF") ==>
      CouldEndSimpleCommand(tk)
  {
    || Is(tk, "SEPARATOR_OP") || Is(tk, "NEWLINE") || Is(tk, "NEWLINE_LIST")
    || tk.value == ";" || Is(tk, "PIPE") || Is(tk, "OR_IF") || Is(tk, "AND_IF")
  }

  /** `couldBeCommandName(tk)`: a WORD whose text is a valid name. */
  predicate CouldBeCommandName(isValidName: string -> bool, tk: Token)
    // A candidate is never a redirection operator, and ends a command only as the text `;`.
    ensures CouldBeCommandName(isValidName, tk) ==>
      && !IoFileOperators.IsOperator(tk)
      && (CouldEndSimpleCommand(tk) <==> tk.value == ";")
  {
    Is(tk, "WORD") && isValidName(tk.value)
  }

  /** `next && !couldEndSimpleCommand(next)`: the token after `i` can take the search over. */
  predicate NextContinues(s: seq<Token>, i: nat)
    requires i < |s|
  {
    i + 1 < |s| && !CouldEndSimpleCommand(s[i + 1])
  }

  // ---------------------------------------------------------------------
  // The phase as a function of its input.

  /** Token `i` is reached with `commandNameNotFoundYet` added by the step before. */
  predicate Carry(isValidName: string -> bool, s: seq<Token>, i: nat)
    requires i < |s|
    decreases i, 0
  {
    i > 0 && PassesOn(isValidName, s, i - 1)
  }

  /** The flags token `i` has when its turn comes. */
  function Incoming(isValidName: string -> bool, s: seq<Token>, i: nat): Flags
    requires i < |s|
    decreases i, 1
  {
    s[i].flags + (if Carry(isValidName, s, i) then {CommandNameNotFoundYet} else {})
  }

  /**
   * The step at `i` flags the next token: a start that is not a name, or a
   * pending search whose token is not a name or follows an IO file
   * operator, while the next token does not end the command.
   */
  predicate PassesOn(isValidName: string -> bool, s: seq<Token>, i: nat)
    requires i < |s|
    decreases i, 2
  {
    var fl := Incoming(isValidName, s, i);
    && NextContinues(s, i)
    && (|| (MaybeStartOfSimpleCommand in fl && !CouldBeCommandName(isValidName, s[i]))
        || (CommandNameNotFoundYet in fl && i > 0
            && (IoFileOperators.IsOperator(s[i - 1]) || !CouldBeCommandName(isValidName, s[i]))))
  }

  /** The step at `i` marks its token as the command name. */
  predicate Named(isValidName: string -> bool, s: seq<Token>, i: nat)
    requires i < |s|
  {
    var fl := Incoming(isValidName, s, i);
    || (MaybeStartOfSimpleCommand in fl && CouldBeCommandName(isValidName, s[i]))
    || (CommandNameNotFoundYet in fl && i > 0
        && !IoFileOperators.IsOperator(s[i - 1]) && CouldBeCommandName(isValidName, s[i]))
  }

  /** Token `i` as the phase yields it. */
  function Out(isValidName: string -> bool, s: seq<Token>, i: nat): Token
    requires i < |s|
  {
    var named := if Named(isValidName, s, i) then {MaybeSimpleCommandName} else {};
    s[i].(flags := Incoming(isValidName, s, i) + named - {CommandNameNotFoundYet})
  }

  /**
   * The first token carries a pending search: `iterable.behind(1)` is
   * `undefined` and `isOperator` throws on it.
   */
  predicate Crashes(s: seq<Token>) {
    |s| > 0 && CommandNameNotFoundYet in s[0].flags
  }

  /** The phase over a whole stream. */
  function IdentifySimpleCommandName(isValidName: string -> bool, s: seq<Token>): (r: Result<seq<Token>, PhaseError>)
    ensures r.Err? <==> Crashes(s)
    ensures r.Ok? ==> |r.value| == |s|
  {
    if Crashes(s) then Err(IoFileOperators.UndefinedToken)
    else Ok(seq(|s|, i requires 0 <= i < |s| => Out(isValidName, s, i)))
  }

  /**
   * The phase run over the buffered stream in place: each token in turn
   * gets the flag writes of lines 29-52 of the source, on the token and on
   * the one after it.
   */
  method IdentifyInPlace(isValidName: string -> bool, a: array<Token>) returns (err: Option<PhaseError>)
    modifies a
    ensures err.None? <==> !Crashes(old(a[..]))
    ensures err.None? ==> a[..] == IdentifySimpleCommandName(isValidName, old(a[..])).value
    ensures err.Some? ==> err.value == IoFileOperators.UndefinedToken
  {
    ghost var s := a[..];
    var i := 0;
    while i < a.Length
      invariant 0 <= i <= a.Length
      invariant i > 0 ==> !Crashes(s)
      invariant forall j :: 0 <= j < i ==> a[j] == Out(isValidName, s, j)
      invariant i < a.Length ==> a[i] == s[i].(flags := Incoming(isValidName, s, i))
      invariant forall j :: i < j < a.Length ==> a[j] == s[j]
    {
      err := VisitToken(isValidName, a, i, s);
      if err.Some? {
        return;
      }
      i := i + 1;
    }
    assert a[..] == IdentifySimpleCommandName(isValidName, s).value;
    return None;
  }

  /**
   * The map callback of the phase for the token at `i` of the buffer `a`,
   * which holds the input `s` with tokens before `i` already visited.
   */
  method VisitToken(isValidName: string -> bool, a: array<Token>, i: nat, ghost s: seq<Token>)
    returns (err: Option<PhaseError>)
    requires |s| == a.Length && i < a.Length
    requires i > 0 ==> !Crashes(s)
    requires forall j :: 0 <= j < i ==> a[j] == Out(isValidName, s, j)
    requires a[i] == s[i].(flags := Incoming(isValidName, s, i))
    requires forall j :: i < j < a.Length ==> a[j] == s[j]
    modifies a
    ensures err.Some? <==> i == 0 && Crashes(s)
    ensures err.Some? ==> err.value == IoFileOperators.UndefinedToken
    ensures err.None? ==> forall j :: 0 <= j <= i ==> a[j] == Out(isValidName, s, j)
    ensures err.None? && i + 1 < a.Length ==> a[i + 1] == s[i + 1].(flags := Incoming(isValidName, s, i + 1))
    ensures err.None? ==> forall j :: i + 1 < j < a.Length ==> a[j] == s[j]
  {
    ghost var passes := PassesOn(isValidName, s, i);
    assert i > 0 ==> a[i - 1].tokenType == s[i - 1].tokenType;
    assert i + 1 < a.Length ==> a[i + 1] == s[i + 1];
    var tk := a[i];
    if MaybeStartOfSimpleCommand in tk.flags {
      if CouldBeCommandName(isValidName, tk) {
        tk := tk.(flags := tk.flags + {MaybeSimpleCommandName});
      } else if i + 1 < a.Length && !CouldEndSimpleCommand(a[i + 1]) {
        a[i + 1] := a[i + 1].(flags := a[i + 1].flags + {CommandNameNotFoundYet});
      }
    }
    if CommandNameNotFoundYet in tk.flags {
      if i == 0 {
        return Some(IoFileOperators.UndefinedToken);
      }
      if !IoFileOperators.IsOperator(a[i - 1]) && CouldBeCommandName(isValidName, tk) {
        tk := tk.(flags := tk.flags + {MaybeSimpleCommandName});
      } else if i + 1 < a.Length && !CouldEndSimpleCommand(a[i + 1]) {
        a[i + 1] := a[i + 1].(flags := a[i + 1].flags + {CommandNameNotFoundYet});
      }
      tk := tk.(flags := tk.flags - {CommandNameNotFoundYet});
    }
    assert tk == Out(isValidName, s, i);
    assert i + 1 < a.Length ==>
      a[i + 1] == s[i + 1].(flags := s[i + 1].flags + (if passes then {CommandNameNotFoundYet} else {}));
    assert i + 1 < a.Length ==> Carry(isValidName, s, i + 1) == passes;
    a[i] := tk;
    return None;
  }

  // ---------------------------------------------------------------------
  // What the phase promises.

  /**
   * The tokens come out in the same order with only their flag bag
   * changed: `commandNameNotFoundYet` is gone, and the only flag that may
   * be added is `maybeSimpleCommandName`.
   */
  lemma OnlyFlagsChange(isValidName: string -> bool, s: seq<Token>, i: nat)
    requires !Crashes(s) && i < |s|
    ensures var out := IdentifySimpleCommandName(isValidName, s).value[i];
      && out == s[i].(flags := out.flags)
      && CommandNameNotFoundYet !in out.flags
      && out.flags - {MaybeSimpleCommandName} == s[i].flags - {MaybeSimpleCommandName, CommandNameNotFoundYet}
  {
  }

  /** A possible command start that is a valid-name WORD is the command name. */
  lemma StartIsName(isValidName: string -> bool, s: seq<Token>, i: nat)
    requires !Crashes(s) && i < |s|
    requires MaybeStartOfSimpleCommand in s[i].flags && CouldBeCommandName(isValidName, s[i])
    ensures MaybeSimpleCommandName in IdentifySimpleCommandName(isValidName, s).value[i].flags
  {
  }

  /**
   * A possible command start that is not a valid name hands the search to
   * the next token, unless there is none or it ends the command.
   */
  lemma StartHandsOver(isValidName: string -> bool, s: seq<Token>, i: nat)
    requires i < |s|
    requires MaybeStartOfSimpleCommand in s[i].flags && !CouldBeCommandName(isValidName, s[i])
    ensures i + 1 < |s| ==> (Carry(isValidName, s, i + 1) <==> !CouldEndSimpleCommand(s[i + 1]))
  {
    assert MaybeStartOfSimpleCommand in Incoming(isValidName, s, i);
    if i + 1 < |s| {
      assert Carry(isValidName, s, i + 1) == PassesOn(isValidName, s, i);
    }
  }

  /**
   * A token the search reaches is the command name exactly when it is a
   * valid-name WORD not right after an IO file operator (a redirection's
   * file operand is not a name); otherwise the search moves on to the next
   * token, unless that one ends the command.
   */
  lemma SearchDecides(isValidName: string -> bool, s: seq<Token>, i: nat)
    requires !Crashes(s) && 0 < i < |s| && Carry(isValidName, s, i)
    requires MaybeStartOfSimpleCommand !in s[i].flags && MaybeSimpleCommandName !in s[i].flags
    ensures MaybeSimpleCommandName in IdentifySimpleCommandName(isValidName, s).value[i].flags
      <==> !IoFileOperators.IsOperator(s[i - 1]) && CouldBeCommandName(isValidName, s[i])
    ensures !(!IoFileOperators.IsOperator(s[i - 1]) && CouldBeCommandName(isValidName, s[i])) && i + 1 < |s| ==>
      (Carry(isValidName, s, i + 1) <==> !CouldEndSimpleCommand(s[i + 1]))
  {
  }

  /**
   * The search never lands on a token that can end a simple command
   * (SEPARATOR_OP, NEWLINE, NEWLINE_LIST, `;`, PIPE, OR_IF, AND_IF).
   */
  lemma NeverOntoEnders(isValidName: string -> bool, s: seq<Token>, i: nat)
    requires i < |s| && Carry(isValidName, s, i)
    ensures !CouldEndSimpleCommand(s[i])
  {
  }

  lemma {:induction false} SearchReaches(isValidName: string -> bool, s: seq<Token>, j: nat, k: nat)
    requires j < k < |s|
    requires MaybeStartOfSimpleCommand in s[j].flags && !CouldBeCommandName(isValidName, s[j])
    requires forall x :: j < x <= k ==> !CouldEndSimpleCommand(s[x])
    requires forall x :: j < x < k ==> IoFileOperators.IsOperator(s[x - 1]) || !CouldBeCommandName(isValidName, s[x])
    ensures Carry(isValidName, s, k)
    decreases k
  {
    if k > j + 1 {
      SearchReaches(isValidName, s, j, k - 1);
      assert CommandNameNotFoundYet in Incoming(isValidName, s, k - 1);
    }
  }

  /**
   * The command name of a simple command whose first word is not a valid
   * name is its first later word that is a valid name and not the operand
   * of an IO file operator, as long as no token in between ends the
   * command.
   */
  lemma FirstCandidateNamed(isValidName: string -> bool, s: seq<Token>, j: nat, m: nat)
    requires !Crashes(s) && j < m < |s|
    requires MaybeStartOfSimpleCommand in s[j].flags && !CouldBeCommandName(isValidName, s[j])
    requires forall x :: j < x <= m ==> !CouldEndSimpleCommand(s[x])
    requires forall x :: j < x < m ==> IoFileOperators.IsOperator(s[x - 1]) || !CouldBeCommandName(isValidName, s[x])
    requires !IoFileOperators.IsOperator(s[m - 1]) && CouldBeCommandName(isValidName, s[m])
    ensures MaybeSimpleCommandName in IdentifySimpleCommandName(isValidName, s).value[m].flags
  {
    SearchReaches(isValidName, s, j, m);
  }
}
