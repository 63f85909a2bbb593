/**
 * The phase of src/modes/posix/rules/new-line-list.ts: a run of NEWLINE
 * tokens becomes a single NEWLINE_LIST token, the `newline_list` of the
 * POSIX shell grammar.
 */
module NewLineList {
  import opened Wrappers
  import opened Tokens

  /** What `iterable.behind(1) || mkToken("EMPTY")` gives the visitor. */
  function LastToken(around: Neighbours): Token {
    around.behind.GetOr(MkToken("EMPTY", "", None, None))
  }

  /**
   * The `NEWLINE` method of `SkipRepeatedNewLines`: dropped (`null`) after
   * a NEWLINE, otherwise retyped NEWLINE_LIST with text "\n".
   */
  function SkipNewLine(tk: Token, around: Neighbours): (r: Option<Token>)
    ensures around.behind.Some? && Is(around.behind.value, "NEWLINE") ==> r.None?
    ensures !(around.behind.Some? && Is(around.behind.value, "NEWLINE")) ==>
      r == Some(ChangeTokenType(tk, "NEWLINE_LIST", "\n"))
  {
    if Is(LastToken(around), "NEWLINE") then None
    else Some(ChangeTokenType(tk, "NEWLINE_LIST", "\n"))
  }

  /** The visitor object `SkipRepeatedNewLines`. */
  function SkipRepeatedNewLines(): (v: Visitor)
    // NEWLINE tokens go to the `NEWLINE` method.
    ensures forall tk, around :: Is(tk, "NEWLINE") ==> ApplyTokenizerVisitor(v, tk, around) == SkipNewLine(tk, around)
    // Every other token comes back as it is: there is no `defaultMethod`.
    ensures forall tk, around :: !Is(tk, "NEWLINE") ==> ApplyTokenizerVisitor(v, tk, around) == Some(tk)
  {
    map["NEWLINE" := SkipNewLine]
  }

  /** `filterNonNull ∘ map(applyTokenizerVisitor(SkipRepeatedNewLines)) ∘ lookahead` on a whole stream. */
  function NewLineList(s: seq<Token>): (r: seq<Token>)
    ensures |r| <= |s|
    // Each output token is an input token other than a NEWLINE, or the NEWLINE_LIST made from an input NEWLINE.
    ensures forall t :: t in r ==>
      || (t in s && !Is(t, "NEWLINE"))
      || exists k :: 0 <= k < |s| && Is(s[k], "NEWLINE") && t == ListToken(s[k])
  {
    var m := MapVisitor(SkipRepeatedNewLines(), s);
    assert forall t :: Some(t) in m ==>
      || (t in s && !Is(t, "NEWLINE"))
      || exists k :: 0 <= k < |s| && Is(s[k], "NEWLINE") && t == ListToken(s[k]);
    FilterNonNull(m)
  }

  /** The NEWLINE_LIST token that stands for a run starting with the newline `tk`. */
  function ListToken(tk: Token): Token {
    ChangeTokenType(tk, "NEWLINE_LIST", "\n")
  }

  // ---------------------------------------------------------------------
  // A reference definition by runs.

  /** `s` without its leading run of NEWLINE tokens. */
  function DropNewlines(s: seq<Token>): (r: seq<Token>)
    ensures |r| <= |s| && r == s[|s| - |r|..]
    ensures r == [] || !Is(r[0], "NEWLINE")
    ensures forall k :: 0 <= k < |s| - |r| ==> Is(s[k], "NEWLINE")
  {
    if s != [] && Is(s[0], "NEWLINE") then DropNewlines(s[1..]) else s
  }

  /**
   * Every maximal run of NEWLINE tokens replaced by one NEWLINE_LIST made
   * from the first newline of the run; all other tokens kept in order.
   */
  function Collapse(s: seq<Token>): seq<Token>
    decreases |s|
  {
    if s == [] then []
    else if Is(s[0], "NEWLINE") then [ListToken(s[0])] + Collapse(DropNewlines(s[1..]))
    else [s[0]] + Collapse(s[1..])
  }

  /**
   * From position `i` on, the phase's output is the reference collapse of
   * the rest of the input, or of the rest without its leading newlines
   * when the token before `i` is itself a NEWLINE (the run is already
   * represented).
   */
  lemma {:induction false} SuffixCollapses(s: seq<Token>, i: nat)
    requires i <= |s|
    ensures (i == 0 || !Is(s[i - 1], "NEWLINE")) ==>
      FilterNonNull(MapVisitor(SkipRepeatedNewLines(), s)[i..]) == Collapse(s[i..])
    ensures (i > 0 && Is(s[i - 1], "NEWLINE")) ==>
      FilterNonNull(MapVisitor(SkipRepeatedNewLines(), s)[i..]) == Collapse(DropNewlines(s[i..]))
    decreases |s| - i
  {
    var m := MapVisitor(SkipRepeatedNewLines(), s);
    if i == |s| {
      assert m[i..] == [];
      assert s[i..] == [];
    } else {
      SuffixCollapses(s, i + 1);
      FilterStep(m, i);
      VisitAt(s, i);
      var t := s[i..];
      assert t[0] == s[i] && t[1..] == s[i + 1..];
      if Is(s[i], "NEWLINE") {
        CollapseAtNewline(t);
      } else {
        CollapseAtOther(t);
      }
    }
  }

  /** The reference collapse of a stream that starts with a NEWLINE. */
  lemma CollapseAtNewline(t: seq<Token>)
    requires t != [] && Is(t[0], "NEWLINE")
    ensures Collapse(t) == [ListToken(t[0])] + Collapse(DropNewlines(t[1..]))
    ensures DropNewlines(t) == DropNewlines(t[1..])
  {
  }

  /** The reference collapse of a stream that starts with another token. */
  lemma CollapseAtOther(t: seq<Token>)
    requires t != [] && !Is(t[0], "NEWLINE")
    ensures Collapse(t) == [t[0]] + Collapse(t[1..])
    ensures DropNewlines(t) == t
  {
  }

  /** `filterNonNull` from position `i`: the entry at `i`, if any, then the rest. */
  lemma FilterStep(m: seq<Option<Token>>, i: nat)
    requires i < |m|
    ensures FilterNonNull(m[i..]) == (if m[i].Some? then [m[i].value] else []) + FilterNonNull(m[i + 1..])
  {
    assert m[i..][0] == m[i] && m[i..][1..] == m[i + 1..];
  }

  /** What the visitor gives for position `i` of the input. */
  lemma VisitAt(s: seq<Token>, i: nat)
    requires i < |s|
    ensures Is(s[i], "NEWLINE") && i > 0 && Is(s[i - 1], "NEWLINE") ==>
      MapVisitor(SkipRepeatedNewLines(), s)[i] == None
    ensures Is(s[i], "NEWLINE") && !(i > 0 && Is(s[i - 1], "NEWLINE")) ==>
      MapVisitor(SkipRepeatedNewLines(), s)[i] == Some(ListToken(s[i]))
    ensures !Is(s[i], "NEWLINE") ==> MapVisitor(SkipRepeatedNewLines(), s)[i] == Some(s[i])
  {
    var around := Around(s, i);
    if Is(s[i], "NEWLINE") {
      assert MapVisitor(SkipRepeatedNewLines(), s)[i] == SkipNewLine(s[i], around);
    } else {
      assert s[i].tokenType !in SkipRepeatedNewLines();
    }
  }

  /** The phase is the reference collapse. */
  lemma NewLineListIsCollapse(s: seq<Token>)
    ensures NewLineList(s) == Collapse(s)
  {
    SuffixCollapses(s, 0);
    assert MapVisitor(SkipRepeatedNewLines(), s)[0..] == MapVisitor(SkipRepeatedNewLines(), s);
    assert s[0..] == s;
  }

  /** No NEWLINE token survives the reference collapse. */
  lemma {:induction false} CollapseHasNoNewline(s: seq<Token>)
    ensures forall t :: t in Collapse(s) ==> !Is(t, "NEWLINE")
    decreases |s|
  {
    if s != [] {
      if Is(s[0], "NEWLINE") {
        CollapseHasNoNewline(DropNewlines(s[1..]));
      } else {
        CollapseHasNoNewline(s[1..]);
      }
    }
  }

  /** After the phase no NEWLINE token is left. */
  lemma NoNewlineSurvives(s: seq<Token>)
    ensures forall t :: t in NewLineList(s) ==> !Is(t, "NEWLINE")
  {
    NewLineListIsCollapse(s);
    CollapseHasNoNewline(s);
  }

  /**
   * A maximal run of `k` NEWLINE tokens at the front becomes exactly one
   * NEWLINE_LIST, made from the first newline of the run (its location and
   * flags kept, text "\n"), and the phase goes on after the run.
   */
  lemma RunBecomesOneList(s: seq<Token>, k: nat)
    requires 0 < k <= |s|
    requires forall j :: 0 <= j < k ==> Is(s[j], "NEWLINE")
    requires k == |s| || !Is(s[k], "NEWLINE")
    ensures NewLineList(s) == [ListToken(s[0])] + NewLineList(s[k..])
    ensures Is(NewLineList(s)[0], "NEWLINE_LIST") && NewLineList(s)[0].value == "\n"
    ensures NewLineList(s)[0].loc == s[0].loc && NewLineList(s)[0].flags == s[0].flags
  {
    NewLineListIsCollapse(s);
    NewLineListIsCollapse(s[k..]);
    CollapseRun(s, k);
  }

  /** The reference collapse turns a leading run of `k` newlines into one NEWLINE_LIST. */
  lemma CollapseRun(s: seq<Token>, k: nat)
    requires 0 < k <= |s|
    requires forall j :: 0 <= j < k ==> Is(s[j], "NEWLINE")
    requires k == |s| || !Is(s[k], "NEWLINE")
    ensures Collapse(s) == [ListToken(s[0])] + Collapse(s[k..])
  {
    assert DropNewlines(s[1..]) == s[k..] by {
      var t := s[1..];
      forall x | 0 <= x < k - 1
        ensures Is(t[x], "NEWLINE")
      {
        assert t[x] == s[x + 1];
      }
      assert k - 1 == |t| || t[k - 1] == s[k];
      DropRun(t, k - 1);
      assert t[k - 1..] == s[k..];
    }
    CollapseAtNewline(s);
  }

  /** Dropping the leading newlines of `t` removes exactly its first run. */
  lemma {:induction false} DropRun(t: seq<Token>, j: nat)
    requires j <= |t|
    requires forall x :: 0 <= x < j ==> Is(t[x], "NEWLINE")
    requires j == |t| || !Is(t[j], "NEWLINE")
    ensures DropNewlines(t) == t[j..]
    decreases j
  {
    if j > 0 {
      DropRun(t[1..], j - 1);
      assert t[1..][j - 1..] == t[j..];
    }
  }

  /** A stream without NEWLINE tokens is passed on unchanged. */
  lemma {:induction false} NoNewlinesUnchanged(s: seq<Token>)
    requires forall t :: t in s ==> !Is(t, "NEWLINE")
    ensures NewLineList(s) == s
  {
    NewLineListIsCollapse(s);
    CollapseIdentity(s);
  }

  lemma {:induction false} CollapseIdentity(s: seq<Token>)
    requires forall t :: t in s ==> !Is(t, "NEWLINE")
    ensures Collapse(s) == s
    decreases |s|
  {
    if s != [] {
      assert s[0] in s;
      assert forall t :: t in s[1..] ==> t in s;
      CollapseIdentity(s[1..]);
    }
  }
}
