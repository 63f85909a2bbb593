/**
 * The phase of src/modes/posix/rules/separator.js. The shell grammar's
 * `separator: separator_op | separator_op NEWLINE_LIST | NEWLINE_LIST` is
 * reduced to `separator_op | NEWLINE_LIST` by merging a separator operator
 * with a newline list that follows it into one SEPARATOR_OP token, and by
 * retyping `;` and `&` tokens as SEPARATOR_OP.
 *
 * The phase reads a token as a bag of properties keyed by kind
 * (`tk.NEWLINE_LIST`, `lastToken.SEPARATOR_OP`, `tk.OPERATOR`, `tk[';']`,
 * `lastToken.EMPTY`); those are the entries of a token's `extra` map. A
 * token whose kind lives only in its type and value has none of them, and
 * is passed on unchanged (see PlainTokensUnchanged).
 */
module Separator {
  import opened Wrappers
  import opened Tokens

  /** `tk[key]`, a kind-keyed property of the token. */
  function Prop(tk: Token, key: string): Option<string> {
    if key in tk.extra then Some(tk.extra[key]) else None
  }

  /** The property is truthy. */
  predicate Has(tk: Token, key: string) {
    Truthy(Prop(tk, key))
  }

  /** `lastToken.EMPTY`; None is the initial `{EMPTY: true}`. */
  predicate IsEmptyMarker(last: Option<Token>) {
    last.None? || Has(last.value, "EMPTY")
  }

  /** `tk.NEWLINE_LIST && lastToken.SEPARATOR_OP`: the newline list is merged into the token before it. */
  predicate Merges(last: Option<Token>, tk: Token) {
    Has(tk, "NEWLINE_LIST") && last.Some? && Has(last.value, "SEPARATOR_OP")
  }

  /**
   * The merged token: type SEPARATOR_OP, text the separator's text followed
   * by the newlines; if it has a location, `endLine` goes one up and
   * `endColumn` becomes 0.
   */
  function Merge(last: Token, tk: Token): (r: Token)
    requires Has(last, "SEPARATOR_OP") && Has(tk, "NEWLINE_LIST")
    ensures Is(r, "SEPARATOR_OP") && r.value == last.extra["SEPARATOR_OP"] + tk.extra["NEWLINE_LIST"]
    ensures r.loc.Some? <==> last.loc.Some?
    ensures r.loc.Some? ==>
      && r.loc.value == last.loc.value.(endLine := r.loc.value.endLine, endColumn := Num(0))
      && (last.loc.value.endLine.Num? ==> r.loc.value.endLine == Num(last.loc.value.endLine.n + 1))
    ensures r.flags == last.flags && r.extra == map[]
  {
    var merged := ChangeTokenType(last, "SEPARATOR_OP", last.extra["SEPARATOR_OP"] + tk.extra["NEWLINE_LIST"]);
    match merged.loc
    case Some(l) => merged.(loc := Some(l.(endLine := Increment(l.endLine), endColumn := Num(0))))
    case None => merged
  }

  /** `tk[';'] || tk.OPERATOR === '&' || tk.OPERATOR === ';' || tk.TOKEN === ';' || tk.WORD === ';'`. */
  predicate IsSeparatorToken(tk: Token)
    // A token without kind-keyed properties is never taken for a separator.
    ensures tk.extra == map[] ==> !IsSeparatorToken(tk)
    // A `;` or `&` OPERATOR is.
    ensures Prop(tk, "OPERATOR") == Some("&") || Prop(tk, "OPERATOR") == Some(";") ==> IsSeparatorToken(tk)
  {
    || Has(tk, ";")
    || Prop(tk, "OPERATOR") == Some("&") || Prop(tk, "OPERATOR") == Some(";")
    || Prop(tk, "TOKEN") == Some(";") || Prop(tk, "WORD") == Some(";")
  }

  /**
   * A separator token retyped SEPARATOR_OP, with text
   * `(tk[';'] || '') + (tk.OPERATOR || '') + (tk.TOKEN || '')`;
   * any other token as it is.
   */
  function Retype(tk: Token): (r: Token)
    ensures IsSeparatorToken(tk) ==> Is(r, "SEPARATOR_OP") && r.loc == tk.loc && r.extra == map[]
    ensures IsSeparatorToken(tk) ==>
      r.value == Prop(tk, ";").GetOr("") + Prop(tk, "OPERATOR").GetOr("") + Prop(tk, "TOKEN").GetOr("")
    ensures !IsSeparatorToken(tk) ==> r == tk
  {
    if IsSeparatorToken(tk) then
      ChangeTokenType(tk, "SEPARATOR_OP", Prop(tk, ";").GetOr("") + Prop(tk, "OPERATOR").GetOr("") + Prop(tk, "TOKEN").GetOr(""))
    else
      tk
  }

  /** The token held back, yielded unless it is an EMPTY marker. */
  function Flush(last: Option<Token>): seq<Token> {
    if IsEmptyMarker(last) then [] else [last.value]
  }

  /** What the generator yields for the rest `s` of the input while holding `last` back. */
  function SeparatorFrom(last: Option<Token>, s: seq<Token>): (r: seq<Token>)
    // At most one token per input token, plus the one held back.
    ensures |r| <= |s| + |Flush(last)|
    decreases |s|
  {
    if s == [] then Flush(last)
    else if Merges(last, s[0]) then SeparatorFrom(Some(Merge(last.value, s[0])), s[1..])
    else Flush(last) + SeparatorFrom(Some(Retype(s[0])), s[1..])
  }

  /** What the generator yields for the whole input. */
  function SeparatorPhase(s: seq<Token>): (r: seq<Token>)
    ensures |r| <= |s|
    ensures s == [] ==> r == []
  {
    SeparatorFrom(None, s)
  }

  /**
   * The generator: each token is held back for one step so that a newline
   * list after it can still be merged into it.
   */
  method Separator(tokens: seq<Token>) returns (out: seq<Token>)
    ensures out == SeparatorPhase(tokens)
  {
    var lastToken: Option<Token> := None;
    out := [];
    for i := 0 to |tokens|
      invariant out + SeparatorFrom(lastToken, tokens[i..]) == SeparatorPhase(tokens)
    {
      assert tokens[i..][0] == tokens[i] && tokens[i..][1..] == tokens[i + 1..];
      var tk := tokens[i];
      if Merges(lastToken, tk) {
        lastToken := Some(Merge(lastToken.value, tk));
        continue;
      }
      tk := Retype(tk);
      if !IsEmptyMarker(lastToken) {
        out := out + [lastToken.value];
      }
      lastToken := Some(tk);
    }
    if !IsEmptyMarker(lastToken) {
      out := out + [lastToken.value];
    }
  }

  // ---------------------------------------------------------------------
  // A reference definition position by position.

  /**
   * Position `i` is a newline list absorbed into the token before it: that
   * token has a SEPARATOR_OP property and reaches the phase unchanged (it
   * was neither retyped nor itself a merge, both of which drop the
   * kind-keyed properties).
   */
  predicate MergeAt(s: seq<Token>, i: nat)
    requires i < |s|
    decreases i
  {
    && i > 0
    && Has(s[i], "NEWLINE_LIST") && Has(s[i - 1], "SEPARATOR_OP")
    && !IsSeparatorToken(s[i - 1]) && !MergeAt(s, i - 1)
  }

  /** The output token for a position that is not absorbed. */
  function Emit(s: seq<Token>, i: nat): Token
    requires i < |s|
  {
    if i + 1 < |s| && MergeAt(s, i + 1) then Merge(s[i], s[i + 1]) else Retype(s[i])
  }

  /** The output for positions `i` onwards: each position not absorbed, unless it is an EMPTY marker. */
  function Ref(s: seq<Token>, i: nat): seq<Token>
    requires i <= |s|
    decreases |s| - i
  {
    if i == |s| then []
    else (if MergeAt(s, i) then [] else Flush(Some(Emit(s, i)))) + Ref(s, i + 1)
  }

  /** How many positions from `i` on are absorbed. */
  function MergeCount(s: seq<Token>, i: nat): nat
    requires i <= |s|
    decreases |s| - i
  {
    if i == |s| then 0 else (if MergeAt(s, i) then 1 else 0) + MergeCount(s, i + 1)
  }

  /** Position `i` is not absorbed, but what it would yield is an EMPTY marker, which is never yielded. */
  predicate DropAt(s: seq<Token>, i: nat)
    requires i < |s|
  {
    !MergeAt(s, i) && IsEmptyMarker(Some(Emit(s, i)))
  }

  /** How many positions from `i` on are dropped as EMPTY markers. */
  function DropCount(s: seq<Token>, i: nat): nat
    requires i <= |s|
    decreases |s| - i
  {
    if i == |s| then 0 else (if DropAt(s, i) then 1 else 0) + DropCount(s, i + 1)
  }

  /** No input token carries a truthy EMPTY property. */
  predicate NoEmptyMarkers(s: seq<Token>) {
    forall j :: 0 <= j < |s| ==> !Has(s[j], "EMPTY")
  }

  /** The token held back after position `j` has been read. */
  function Held(s: seq<Token>, j: nat): Token
    requires j < |s|
  {
    if MergeAt(s, j) then Merge(s[j - 1], s[j]) else Retype(s[j])
  }

  /** The token held back after `j`, once the next position has been read. */
  function Final(s: seq<Token>, j: nat): Token
    requires j < |s|
  {
    if j + 1 < |s| && MergeAt(s, j + 1) then Merge(Held(s, j), s[j + 1]) else Held(s, j)
  }

  lemma FinalIsEmit(s: seq<Token>, j: nat)
    requires j < |s| && !MergeAt(s, j)
    ensures Final(s, j) == Emit(s, j)
  {
  }

  /** The held token lets the next newline list merge into it exactly at an absorbed position. */
  lemma MergesIntoHeld(s: seq<Token>, i: nat)
    requires 0 < i < |s|
    ensures Merges(Some(Held(s, i - 1)), s[i]) <==> MergeAt(s, i)
  {
    if MergeAt(s, i - 1) || IsSeparatorToken(s[i - 1]) {
      assert Held(s, i - 1).extra == map[];
    } else {
      assert Held(s, i - 1) == s[i - 1];
    }
  }

  /** One step of the generator's loop, at position `i` of the input. */
  lemma FromStep(last: Option<Token>, s: seq<Token>, i: nat)
    requires i < |s|
    ensures SeparatorFrom(last, s[i..]) ==
      if Merges(last, s[i]) then SeparatorFrom(Some(Merge(last.value, s[i])), s[i + 1..])
      else Flush(last) + SeparatorFrom(Some(Retype(s[i])), s[i + 1..])
  {
    assert s[i..][0] == s[i] && s[i..][1..] == s[i + 1..];
  }

  lemma {:induction false} HeldSuffix(s: seq<Token>, i: nat)
    requires 0 < i <= |s|
    ensures SeparatorFrom(Some(Held(s, i - 1)), s[i..]) == Flush(Some(Final(s, i - 1))) + Ref(s, i)
    decreases |s| - i
  {
    var last := Held(s, i - 1);
    if i == |s| {
      assert s[i..] == [];
    } else {
      HeldSuffix(s, i + 1);
      FromStep(Some(last), s, i);
      MergesIntoHeld(s, i);
      if MergeAt(s, i) {
        assert last == s[i - 1];
        assert Final(s, i) == Merge(last, s[i]) == Final(s, i - 1);
        assert Ref(s, i) == Ref(s, i + 1);
      } else {
        FinalIsEmit(s, i);
        assert Held(s, i) == Retype(s[i]);
        assert Ref(s, i) == Flush(Some(Emit(s, i))) + Ref(s, i + 1);
      }
    }
  }

  /**
   * The phase yields, in input order, one token per position that is not
   * absorbed: the merge of that token with the newline list after it, or
   * else the token retyped if it is a separator and unchanged otherwise;
   * an EMPTY marker among those is not yielded.
   */
  lemma SeparatorIsRef(s: seq<Token>)
    ensures SeparatorPhase(s) == Ref(s, 0)
  {
    if s != [] {
      HeldSuffix(s, 1);
      FinalIsEmit(s, 0);
    }
  }

  lemma {:induction false} RefLength(s: seq<Token>, i: nat)
    requires i <= |s|
    ensures |Ref(s, i)| == |s| - i - MergeCount(s, i) - DropCount(s, i)
    decreases |s| - i
  {
    if i < |s| {
      RefLength(s, i + 1);
    }
  }

  /** An input without EMPTY markers has nothing dropped. */
  lemma {:induction false} NoMarkersNoDrops(s: seq<Token>, i: nat)
    requires NoEmptyMarkers(s) && i <= |s|
    ensures DropCount(s, i) == 0
    decreases |s| - i
  {
    if i < |s| {
      NoMarkersNoDrops(s, i + 1);
      if !MergeAt(s, i) && !(i + 1 < |s| && MergeAt(s, i + 1)) && !IsSeparatorToken(s[i]) {
        assert Emit(s, i) == s[i];
      }
    }
  }

  /**
   * The output is as long as the input less the newline lists merged away
   * and the EMPTY markers dropped; without EMPTY markers in the input, less
   * the merges alone.
   */
  lemma SeparatorLength(s: seq<Token>)
    ensures |SeparatorPhase(s)| == |s| - MergeCount(s, 0) - DropCount(s, 0)
    ensures NoEmptyMarkers(s) ==> |SeparatorPhase(s)| == |s| - MergeCount(s, 0)
  {
    SeparatorIsRef(s);
    RefLength(s, 0);
    if NoEmptyMarkers(s) {
      NoMarkersNoDrops(s, 0);
    }
  }

  lemma {:induction false} RefPlain(s: seq<Token>, i: nat)
    requires i <= |s|
    requires forall j :: 0 <= j < |s| ==> s[j].extra == map[]
    ensures Ref(s, i) == s[i..]
    decreases |s| - i
  {
    if i < |s| {
      RefPlain(s, i + 1);
      assert s[i..] == [s[i]] + s[i + 1..];
    }
  }

  /** Tokens without kind-keyed properties pass through the phase unchanged. */
  lemma PlainTokensUnchanged(s: seq<Token>)
    requires forall j :: 0 <= j < |s| ==> s[j].extra == map[]
    ensures SeparatorPhase(s) == s
  {
    SeparatorIsRef(s);
    RefPlain(s, 0);
  }

  /**
   * `;` followed by a newline list: one SEPARATOR_OP token with text ";\n",
   * its end moved to column 0 of the next line.
   */
  lemma SemicolonNewlineMerged(semi: Token, nl: Token, l: Loc, line: int)
    requires semi.extra == map["SEPARATOR_OP" := ";"] && semi.loc == Some(l) && l.endLine == Num(line)
    requires nl.extra == map["NEWLINE_LIST" := "\n"]
    ensures |SeparatorPhase([semi, nl])| == 1
    ensures Is(SeparatorPhase([semi, nl])[0], "SEPARATOR_OP") && SeparatorPhase([semi, nl])[0].value == ";\n"
    ensures SeparatorPhase([semi, nl])[0].loc == Some(l.(endLine := Num(line + 1), endColumn := Num(0)))
  {
    assert [semi, nl][1..] == [nl];
    assert [nl][1..] == [];
    assert !IsSeparatorToken(semi) && Retype(semi) == semi;
    assert Merges(Some(semi), nl);
    var merged := Merge(semi, nl);
    assert !IsEmptyMarker(Some(merged));
    assert SeparatorFrom(Some(merged), []) == [merged];
    assert SeparatorPhase([semi, nl]) == SeparatorFrom(Some(semi), [nl]);
  }
}
