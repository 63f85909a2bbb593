/**
 * The token value of src/utils/tokens.ts and the helpers the scanner and the
 * token-stream phases share.
 *
 * A token is copy-on-write: every operation below returns a new token and
 * leaves its argument as it was. A JavaScript property that may be
 * `undefined` is an Option; the `_` flag bag is the set of flag names that
 * are set; any other own property of a token (the kind-keyed properties
 * such as `NEWLINE_LIST` that the separator phase reads) lives in `extra`.
 */
module Tokens {
  import opened Wrappers

  /** A point in the source text, as the scanner records it. */
  datatype Position = Position(row: int, col: int, offset: int)

  /** A JavaScript number-valued property: absent, a number, or NaN. */
  datatype JsNumber = Undefined | Num(n: int) | NaN

  /** `x++` on a number-valued property (`undefined++` is NaN). */
  function Increment(x: JsNumber): (r: JsNumber)
    ensures x.Num? <==> r.Num?
    ensures x.Num? ==> r.n == x.n + 1
  {
    match x
    case Num(n) => Num(n + 1)
    case _ => NaN
  }

  /**
   * A location object. `start` and `end` are what the tokenizer and the AST
   * builder write; `endLine` and `endColumn` are the line-based fields that
   * only the separator phase touches.
   */
  datatype Loc = Loc(start: Option<Position>, end: Option<Position>, endLine: JsNumber, endColumn: JsNumber)

  /** The object literal `{}` used as a location. */
  const EmptyLoc: Loc := Loc(None, None, Undefined, Undefined)

  /** `{start, end}` built from two positions. */
  function SpanLoc(start: Position, end: Position): Loc {
    Loc(Some(start), Some(end), Undefined, Undefined)
  }

  /**
   * Where an expansion sits: absolute source positions while the scanner
   * accumulates it, offsets relative to the token start once it belongs to
   * a token.
   */
  datatype ExpansionLoc =
    | Absolute(startAt: Position, endAt: Position)
    | Relative(start: int, end: int)

  /** An expansion record; `attrs` are its other properties, copied as they are. */
  datatype Expansion = Expansion(attrs: map<string, string>, loc: ExpansionLoc)

  /** The names of the flags set in a token's `_` bag. */
  type Flags = set<string>

  datatype Token = Token(
    tokenType: string,
    value: string,
    loc: Option<Loc>,
    expansion: Option<seq<Expansion>>,
    originalText: Option<string>,
    joined: Option<string>,
    fieldIdx: Option<int>,
    flags: Flags,
    extra: map<string, string>)

  /** The bag of properties handed to `new Token(fields)`. */
  datatype Fields = Fields(
    tokenType: string,
    value: string,
    loc: Option<Loc>,
    expansion: Option<seq<Expansion>>,
    originalText: Option<string>,
    joined: Option<string>,
    fieldIdx: Option<int>,
    flags: Option<Flags>,
    extra: map<string, Option<string>>)

  /** JavaScript truthiness of an optional string. */
  predicate Truthy(s: Option<string>) {
    s.Some? && s.value != ""
  }

  /** `tk.is(type)`. */
  predicate Is(tk: Token, tokenType: string) {
    tk.tokenType == tokenType
  }

  /**
   * `is` reads the type alone and compares strictly: tokens of the same type
   * answer alike whatever else they hold, a token is of one type only, and
   * retyping decides the answer.
   */
  lemma IsReadsTypeOnly(tk: Token, other: Token, tokenType: string, t2: string, value: string)
    ensures tk.tokenType == other.tokenType ==> (Is(tk, tokenType) <==> Is(other, tokenType))
    ensures Is(tk, tokenType) && Is(tk, t2) ==> tokenType == t2
    ensures Is(ChangeTokenType(tk, t2, value), tokenType) <==> t2 == tokenType
  {
  }

  /**
   * `new Token(fields)`: properties whose value is `undefined` are dropped,
   * and `_` defaults to an empty bag.
   */
  function NewToken(f: Fields): (t: Token)
    ensures t.extra.Keys == set k | k in f.extra && f.extra[k].Some?
    ensures forall k :: k in t.extra ==> f.extra[k] == Some(t.extra[k])
    ensures t.flags == if f.flags.Some? then f.flags.value else {}
    ensures t.tokenType == f.tokenType && t.value == f.value && t.loc == f.loc
    ensures t.expansion == f.expansion && t.originalText == f.originalText
    ensures t.joined == f.joined && t.fieldIdx == f.fieldIdx
  {
    Token(f.tokenType, f.value, f.loc, f.expansion, f.originalText, f.joined, f.fieldIdx,
      if f.flags.Some? then f.flags.value else {},
      map k | k in f.extra && f.extra[k].Some? :: f.extra[k].value)
  }

  /** The own properties of a token, as `Object.assign({}, tk)` copies them. */
  function OwnFields(t: Token): Fields {
    Fields(t.tokenType, t.value, t.loc, t.expansion, t.originalText, t.joined, t.fieldIdx,
      Some(t.flags), map k | k in t.extra :: Some(t.extra[k]))
  }

  /** Copying a token's own properties into a new Token gives the same token back. */
  lemma CopyRoundTrip(t: Token)
    ensures NewToken(OwnFields(t)) == t
  {
    var r := NewToken(OwnFields(t));
    assert r.extra.Keys == t.extra.Keys;
  }

  /** `tk.appendTo(chunk)`. */
  function AppendTo(t: Token, chunk: string): (r: Token)
    ensures r == t.(value := t.value + chunk)
  {
    CopyRoundTrip(t);
    NewToken(OwnFields(t).(value := t.value + chunk))
  }

  /** Appending two chunks one after the other is appending their concatenation. */
  lemma AppendToTwice(t: Token, a: string, b: string)
    ensures AppendTo(AppendTo(t, a), b) == AppendTo(t, a + b)
  {
    assert t.value + a + b == t.value + (a + b);
  }

  /**
   * `tk.changeTokenType(type, value)`: keeps `loc`, `_` and `expansion`,
   * and drops every other property.
   */
  function ChangeTokenType(t: Token, newType: string, newValue: string): (r: Token)
    ensures r.tokenType == newType && r.value == newValue
    ensures r.loc == t.loc && r.flags == t.flags && r.expansion == t.expansion
    ensures r.originalText.None? && r.joined.None? && r.fieldIdx.None? && r.extra == map[]
  {
    NewToken(Fields(newType, newValue, t.loc, t.expansion, None, None, None, Some(t.flags), map[]))
  }

  /** Retyping twice is retyping once to the second type and value. */
  lemma ChangeTokenTypeTwice(t: Token, k1: string, v1: string, k2: string, v2: string)
    ensures ChangeTokenType(ChangeTokenType(t, k1, v1), k2, v2) == ChangeTokenType(t, k2, v2)
  {
  }

  /** `tk.setValue(value)`. */
  function SetValue(t: Token, v: string): (r: Token)
    ensures r == t.(value := v)
  {
    CopyRoundTrip(t);
    NewToken(OwnFields(t).(value := v))
  }

  /**
   * `tk.alterValue(value)`: the new value replaces the old one, and
   * `originalText` keeps the value before the first alteration
   * (`this.originalText || this.value`).
   */
  function AlterValue(t: Token, v: string): (r: Token)
    ensures r == t.(value := v, originalText := if Truthy(t.originalText) then t.originalText else Some(t.value))
  {
    CopyRoundTrip(t);
    NewToken(OwnFields(t).(value := v,
      originalText := if Truthy(t.originalText) then t.originalText else Some(t.value)))
  }

  /**
   * Altering a token twice still records the value it had before the first
   * alteration, unless that value was the empty string, which `||` reads
   * as absent.
   */
  lemma AlterValueKeepsOriginal(t: Token, v1: string, v2: string)
    requires t.originalText.None?
    ensures t.value != "" ==> AlterValue(AlterValue(t, v1), v2).originalText == Some(t.value)
    ensures t.value == "" && v1 != "" ==> AlterValue(AlterValue(t, v1), v2).originalText == Some(v1)
    ensures AlterValue(AlterValue(t, v1), v2).value == v2
  {
  }

  /** `tk.addExpansions()`. */
  function AddExpansions(t: Token): (r: Token)
    ensures r == t.(expansion := Some([]))
  {
    CopyRoundTrip(t);
    NewToken(OwnFields(t).(expansion := Some([])))
  }

  /** `tk.setExpansions(expansion)`; an `undefined` list drops the property. */
  function SetExpansions(t: Token, e: Option<seq<Expansion>>): (r: Token)
    ensures r == t.(expansion := e)
  {
    CopyRoundTrip(t);
    NewToken(OwnFields(t).(expansion := e))
  }

  /** `mkToken(type, value, loc, expansion)`: the expansion list is attached only when it is non-empty. */
  function MkToken(tokenType: string, value: string, loc: Option<Loc>, expansion: Option<seq<Expansion>>): (r: Token)
    ensures r.tokenType == tokenType && r.value == value && r.loc == loc
    ensures r.expansion.Some? <==> expansion.Some? && |expansion.value| > 0
    ensures r.expansion.Some? ==> r.expansion == expansion
    ensures r.flags == {} && r.extra == map[]
    ensures r.originalText.None? && r.joined.None? && r.fieldIdx.None?
  {
    var tk := NewToken(Fields(tokenType, value, loc, None, None, None, None, None, map[]));
    if expansion.Some? && |expansion.value| > 0 then tk.(expansion := expansion) else tk
  }

  /**
   * `mkFieldSplitToken(joinedTk, value, fieldIdx)`: one field of a split
   * word. It keeps the word's type, location, expansions and original text,
   * records the whole word in `joined`, and starts with an empty flag bag.
   */
  function MkFieldSplitToken(joinedTk: Token, value: string, fieldIdx: int): (r: Token)
    ensures r.tokenType == joinedTk.tokenType && r.value == value
    ensures r.joined == Some(joinedTk.value) && r.fieldIdx == Some(fieldIdx)
    ensures r.loc == joinedTk.loc && r.expansion == joinedTk.expansion
    ensures r.originalText == joinedTk.originalText
    ensures r.flags == {} && r.extra == map[]
  {
    NewToken(Fields(joinedTk.tokenType, value, joinedTk.loc, joinedTk.expansion,
      joinedTk.originalText, Some(joinedTk.value), Some(fieldIdx), None, map[]))
  }

  /** `newLine()`. */
  function NewLine(): (r: Token)
    ensures Is(r, "NEWLINE") && r.value == "\n" && r.loc.None?
  {
    MkToken("NEWLINE", "\n", None, None)
  }

  /** `continueToken(expectedChar)`: the marker of a construct left open at end of input. */
  function ContinueToken(expected: string): (r: Token)
    ensures Is(r, "CONTINUE") && r.value == expected && r.loc.None?
  {
    MkToken("CONTINUE", expected, None, None)
  }

  /** `eof()`. */
  function Eof(): (r: Token)
    ensures Is(r, "EOF") && r.value == "" && r.loc.None?
  {
    MkToken("EOF", "", None, None)
  }

  // ---------------------------------------------------------------------
  // The scanner state as tokens.ts reads it.

  /** `state.loc`: where the current token started and the last character read. */
  datatype ScanLoc = ScanLoc(start: Position, previous: Position)

  /**
   * The parts of the scanner state that tokens.ts and the reducers read: the
   * text of the token being built, its location, and the expansions found in
   * it so far.
   */
  datatype ScanState = ScanState(current: string, loc: ScanLoc, expansion: Option<seq<Expansion>>)

  /** The scanner records the expansions of the current token at absolute positions. */
  predicate AbsoluteExpansions(state: ScanState) {
    state.expansion.Some? ==> forall xp :: xp in state.expansion.value ==> xp.loc.Absolute?
  }

  /** An expansion record with its location made relative to `origin`. */
  function RelativeTo(xp: Expansion, origin: Position): (r: Expansion)
    requires xp.loc.Absolute?
    ensures r.attrs == xp.attrs && r.loc.Relative?
    ensures r.loc.start + origin.offset == xp.loc.startAt.offset
    ensures r.loc.end + origin.offset == xp.loc.endAt.offset
  {
    xp.(loc := Relative(xp.loc.startAt.offset - origin.offset, xp.loc.endAt.offset - origin.offset))
  }

  /**
   * `tokenOrEmpty(state)`: no token while the current text is empty or a
   * lone newline; otherwise one TOKEN carrying that text, spanning from the
   * token start to the last character read, whose expansions are placed
   * relative to the token start.
   */
  function TokenOrEmpty(state: ScanState): (r: seq<Token>)
    requires AbsoluteExpansions(state)
    ensures |r| <= 1
    ensures r == [] <==> state.current == "" || state.current == "\n"
    ensures r != [] ==> Is(r[0], "TOKEN") && r[0].value == state.current
    ensures r != [] ==> r[0].loc == Some(SpanLoc(state.loc.start, state.loc.previous))
    ensures r != [] ==> r[0].flags == {} && r[0].extra == map[]
    ensures r != [] ==>
      var xs := state.expansion.GetOr([]);
      && (r[0].expansion.Some? <==> |xs| > 0)
      && (r[0].expansion.Some? ==>
            && |r[0].expansion.value| == |xs|
            && forall k :: 0 <= k < |xs| ==>
                 && r[0].expansion.value[k].attrs == xs[k].attrs
                 && r[0].expansion.value[k].loc.Relative?
                 && r[0].expansion.value[k].loc.start + state.loc.start.offset == xs[k].loc.startAt.offset
                 && r[0].expansion.value[k].loc.end + state.loc.start.offset == xs[k].loc.endAt.offset)
  {
    if state.current != "" && state.current != "\n" then
      var xs := state.expansion.GetOr([]);
      var expansion := seq(|xs|, k requires 0 <= k < |xs| => RelativeTo(xs[k], state.loc.start));
      [MkToken("TOKEN", state.current, Some(SpanLoc(state.loc.start, state.loc.previous)), Some(expansion))]
    else
      []
  }

  // ---------------------------------------------------------------------
  // The operator table of the mode, mapping each operator lexeme to its kind.

  /** `op.slice(0, n)`. */
  function Slice(s: string, n: nat): string {
    if n <= |s| then s[..n] else s
  }

  /** `isPartOfOperator(text)`: some operator key, cut to the length of `text`, equals `text`. */
  predicate IsPartOfOperator(operators: map<string, string>, text: string)
    // The slice comparison holds exactly of the prefixes of the operator keys.
    ensures IsPartOfOperator(operators, text) <==> exists op :: op in operators && text <= op
  {
    SliceMatchIsPrefix(operators, text);
    exists op :: op in operators && Slice(op, |text|) == text
  }

  /** `isOperator(text)`: `text` is itself a key of the table, and so also a part of an operator. */
  predicate IsOperator(operators: map<string, string>, text: string)
    ensures IsOperator(operators, text) ==> IsPartOfOperator(operators, text)
  {
    assert Slice(text, |text|) == text;
    text in operators
  }

  /** A key cut to the length of `text` equals `text` exactly when `text` is a prefix of the key. */
  lemma SliceMatchIsPrefix(operators: map<string, string>, text: string)
    ensures (exists op :: op in operators && Slice(op, |text|) == text) <==> exists op :: op in operators && text <= op
  {
    if exists op :: op in operators && Slice(op, |text|) == text {
      var op :| op in operators && Slice(op, |text|) == text;
      assert |text| <= |op| && op[..|text|] == text;
      assert text <= op;
    }
    if op :| op in operators && text <= op {
      assert Slice(op, |text|) == text;
    }
  }

  /**
   * `operatorTokens(state)`: the current text as one token of the kind the
   * table gives it, spanning from the token start to the last character read.
   */
  function OperatorTokens(operators: map<string, string>, state: ScanState): (r: seq<Token>)
    requires IsOperator(operators, state.current)
    ensures |r| == 1 && Is(r[0], operators[state.current]) && r[0].value == state.current
    ensures r[0].loc == Some(SpanLoc(state.loc.start, state.loc.previous))
    ensures r[0].expansion.None? && r[0].flags == {}
  {
    [MkToken(operators[state.current], state.current, Some(SpanLoc(state.loc.start, state.loc.previous)), None)]
  }

  // ---------------------------------------------------------------------
  // Token streams, visitors and the one-token lookahead.

  /** What `iterable.behind(1)` and `iterable.ahead(1)` give for one token of the stream. */
  datatype Neighbours = Neighbours(behind: Option<Token>, ahead: Option<Token>)

  /** The neighbours of position `i` of a finite stream (absent at the ends). */
  function Around(s: seq<Token>, i: int): (n: Neighbours)
    requires 0 <= i < |s|
    ensures n.behind.Some? <==> i > 0
    ensures n.ahead.Some? <==> i + 1 < |s|
    ensures i > 0 ==> n.behind == Some(s[i - 1])
    ensures i + 1 < |s| ==> n.ahead == Some(s[i + 1])
  {
    Neighbours(if i > 0 then Some(s[i - 1]) else None, if i + 1 < |s| then Some(s[i + 1]) else None)
  }

  /** A visitor method: the replacement token, or None for `null`. */
  type VisitMethod = (Token, Neighbours) -> Option<Token>

  /** A visitor object: its methods by property name (a token type, or `defaultMethod`). */
  type Visitor = map<string, VisitMethod>

  /**
   * `applyTokenizerVisitor(visitor)(tk)`: the method named by the token's
   * type if there is one, else `defaultMethod` if there is one, else the
   * token itself.
   */
  function ApplyTokenizerVisitor(visitor: Visitor, tk: Token, around: Neighbours): (r: Option<Token>)
    ensures tk.tokenType in visitor ==> r == visitor[tk.tokenType](tk, around)
    ensures tk.tokenType !in visitor && "defaultMethod" in visitor ==> r == visitor["defaultMethod"](tk, around)
    ensures tk.tokenType !in visitor && "defaultMethod" !in visitor ==> r == Some(tk)
  {
    if tk.tokenType in visitor then
      visitor[tk.tokenType](tk, around)
    else if "defaultMethod" in visitor then
      visitor["defaultMethod"](tk, around)
    else
      Some(tk)
  }

  /** `map(applyTokenizerVisitor(visitor))` over a stream with one-token lookahead. */
  function MapVisitor(visitor: Visitor, s: seq<Token>): (r: seq<Option<Token>>)
    ensures |r| == |s|
    ensures forall i :: 0 <= i < |s| ==> r[i] == ApplyTokenizerVisitor(visitor, s[i], Around(s, i))
  {
    seq(|s|, i requires 0 <= i < |s| => ApplyTokenizerVisitor(visitor, s[i], Around(s, i)))
  }

  /** The number of entries of `s` that are not `null`. */
  function CountSome(s: seq<Option<Token>>): (n: nat)
    ensures n <= |s|
  {
    if s == [] then 0 else (if s[0].Some? then 1 else 0) + CountSome(s[1..])
  }

  /** `filterNonNull`: the tokens of the stream without the `null`s, in order. */
  function FilterNonNull(s: seq<Option<Token>>): (r: seq<Token>)
    ensures |r| == CountSome(s)
    ensures forall t :: t in r <==> Some(t) in s
  {
    if s == [] then []
    else (if s[0].Some? then [s[0].value] else []) + FilterNonNull(s[1..])
  }

  /** `filterNonNull` distributes over concatenation: it keeps order and multiplicity. */
  lemma {:induction false} FilterNonNullAppend(a: seq<Option<Token>>, b: seq<Option<Token>>)
    ensures FilterNonNull(a + b) == FilterNonNull(a) + FilterNonNull(b)
  {
    if a == [] {
      assert a + b == b;
    } else {
      assert (a + b)[0] == a[0];
      assert (a + b)[1..] == a[1..] + b;
      FilterNonNullAppend(a[1..], b);
    }
  }

  /**
   * Each non-null entry lands in the output at the position given by the
   * number of non-null entries before it.
   */
  lemma FilterNonNullAt(s: seq<Option<Token>>, i: nat)
    requires i < |s| && s[i].Some?
    ensures CountSome(s[..i]) < |FilterNonNull(s)|
    ensures FilterNonNull(s)[CountSome(s[..i])] == s[i].value
  {
    assert s == s[..i] + s[i..];
    FilterNonNullAppend(s[..i], s[i..]);
    assert FilterNonNull(s[i..]) == [s[i].value] + FilterNonNull(s[i + 1..]) by {
      assert s[i..][1..] == s[i + 1..];
    }
  }

  /** Errors a phase raises. */
  datatype PhaseError =
    | SyntaxError(message: string)
    /** A property read on `undefined`. */
    | TypeError(message: string)
}
