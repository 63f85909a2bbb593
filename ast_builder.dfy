/**
 * The AST builder of src/modes/posix/ast-builder.ts: the actions the
 * grammar runs on each production to build the syntax tree of a POSIX
 * shell script. Lists (a script, a compound list, a pipeline) are built as
 * a one-element list followed by appends that update the list in place; a
 * list separator containing `&` makes the command before it asynchronous.
 * With location insertion on, every node gets a location spanning its
 * parts.
 */
module AstBuilder {
  import opened Wrappers
  import opened Tokens

  /** The node types that hold a list of commands. */
  datatype ListKind = Script | CompoundList | Pipeline

  datatype LogicalOp = And | Or

  /** The part of a node that depends on its type. */
  datatype NodeBody =
    | ListBody(kind: ListKind, commands: seq<Node>)
    | LogicalExpression(op: LogicalOp, left: Node, right: Node)
    | Command(prefix: Option<seq<Node>>, name: Option<Node>, suffix: Option<seq<Node>>)
    | Function(fname: Node, fbody: Node, redirections: Option<seq<Node>>)
    | Redirect(redirectOp: Node, file: Node, numberIo: Option<Node>)
      /** A node built outside the builder (a word, an assignment, an operator). */
    | Leaf(nodeType: string, text: string)

  /** An AST node; `async` and `bang` are false while the property is absent. */
  datatype Node = Node(body: NodeBody, loc: Option<Loc>, async: bool, bang: bool)

  /** A list separator as the grammar hands it to the builder. */
  datatype SeparatorNode = SeparatorNode(text: string)

  /** `text.indexOf(c)`: the first position of `c`, or -1. */
  function IndexOf(text: string, c: char): (r: int)
    ensures -1 <= r < |text|
    ensures r == -1 <==> c !in text
    ensures r >= 0 ==> text[r] == c && c !in text[..r]
  {
    if text == [] then -1
    else if text[0] == c then 0
    else
      var k := IndexOf(text[1..], c);
      if k == -1 then -1
      else
        assert text[..k + 1] == [text[0]] + text[1..][..k];
        k + 1
  }

  /** `isAsyncSeparator(separator)`: the separator's text contains `&`. */
  function IsAsyncSeparator(sep: SeparatorNode): (r: bool)
    ensures r <==> '&' in sep.text
  {
    IndexOf(sep.text, '&') != -1
  }

  // ---------------------------------------------------------------------
  // Locations.

  /**
   * `setLocStart(target, source)`: with a source, the target takes its
   * start and keeps everything else; without one, it is left alone.
   */
  function SetLocStart(target: Loc, source: Option<Loc>): (r: Loc)
    ensures r.end == target.end && r.endLine == target.endLine && r.endColumn == target.endColumn
    ensures r.start == if source.Some? then source.value.start else target.start
  {
    if source.Some? then target.(start := source.value.start) else target
  }

  /**
   * `setLocEnd(target, source)`: with a source, the target takes its end
   * and keeps everything else; without one, it is left alone.
   */
  function SetLocEnd(target: Loc, source: Option<Loc>): (r: Loc)
    ensures r.start == target.start && r.endLine == target.endLine && r.endColumn == target.endColumn
    ensures r.end == if source.Some? then source.value.end else target.end
  {
    if source.Some? then target.(end := source.value.end) else target
  }

  /** Setting the start and setting the end do not interfere. */
  lemma SetLocStartEndCommute(target: Loc, a: Option<Loc>, b: Option<Loc>)
    ensures SetLocEnd(SetLocStart(target, a), b) == SetLocStart(SetLocEnd(target, b), a)
  {
  }

  /** The start of a node's location, absent when the node has none. */
  function StartOf(n: Node): Option<Position> {
    if n.loc.Some? then n.loc.value.start else None
  }

  /** The end of a node's location, absent when the node has none. */
  function EndOf(n: Node): Option<Position> {
    if n.loc.Some? then n.loc.value.end else None
  }

  /** A fresh location `{}` given the start of `first` and the end of `last`. */
  function Between(first: Node, last: Node): (r: Loc)
    ensures r == EmptyLoc.(start := StartOf(first), end := EndOf(last))
  {
    SetLocEnd(SetLocStart(EmptyLoc, first.loc), last.loc)
  }

  /** The end of the last node that has a location. */
  function LastEnd(nodes: seq<Node>): Option<Position>
    decreases |nodes|
  {
    if nodes == [] then None
    else if nodes[|nodes| - 1].loc.Some? then nodes[|nodes| - 1].loc.value.end
    else LastEnd(nodes[..|nodes| - 1])
  }

  /**
   * The location a list of commands has: from the start of its first
   * command to the end of the last command that has a location.
   */
  function Span(nodes: seq<Node>): Loc
    requires |nodes| > 0
  {
    EmptyLoc.(start := StartOf(nodes[0]), end := LastEnd(nodes))
  }

  /** Appending a command moves the span's end to that command's end, if it has a location. */
  lemma SpanAppend(nodes: seq<Node>, n: Node)
    requires |nodes| > 0
    ensures Span(nodes + [n]) == SetLocEnd(Span(nodes), n.loc)
  {
    assert (nodes + [n])[..|nodes|] == nodes;
    assert (nodes + [n])[0] == nodes[0];
  }

  /** A one-command list spans that command. */
  lemma SpanSingle(n: Node)
    ensures Span([n]) == Between(n, n)
  {
    assert [n][..0] == [];
    assert LastEnd([n]) == EndOf(n);
  }

  // ---------------------------------------------------------------------
  // Lists: Script, CompoundList and Pipeline.

  /**
   * `last(list.commands).async = true` when the separator is async: the
   * last command becomes asynchronous, the others stay as they are.
   */
  function MarkLastAsync(commands: seq<Node>, sep: SeparatorNode): (r: seq<Node>)
    requires |commands| > 0
    ensures |r| == |commands|
    ensures forall i :: 0 <= i < |commands| - 1 ==> r[i] == commands[i]
    ensures r[|r| - 1] == commands[|r| - 1].(async := commands[|r| - 1].async || '&' in sep.text)
    ensures '&' !in sep.text ==> r == commands
  {
    if IsAsyncSeparator(sep) then commands[|commands| - 1 := commands[|commands| - 1].(async := true)]
    else commands
  }

  /** Marking a command asynchronous does not move the span of its list. */
  lemma MarkKeepsSpan(commands: seq<Node>, sep: SeparatorNode)
    requires |commands| > 0
    ensures Span(MarkLastAsync(commands, sep)) == Span(commands)
  {
    var r := MarkLastAsync(commands, sep);
    assert r[..|r| - 1] == commands[..|commands| - 1];
  }

  /**
   * A Script, CompoundList or Pipeline node, updated in place by the
   * builder's append actions. `insertLoc` is the builder's
   * `options.insertLOC`.
   */
  class ListNode {
    const kind: ListKind
    const insertLoc: bool
    var commands: seq<Node>
    var loc: Option<Loc>
    var bang: bool

    /**
     * A list is never empty; with locations on, its location spans its
     * commands, and with locations off it has none.
     */
    ghost predicate Valid()
      reads this
    {
      && |commands| > 0
      && (insertLoc ==> loc == Some(Span(commands)))
      && (!insertLoc ==> loc.None?)
    }

    /** The list as a node of the tree. */
    function ToNode(): (r: Node)
      reads this
      ensures r.body == ListBody(kind, commands) && r.loc == loc && r.bang == bang && !r.async
    {
      Node(ListBody(kind, commands), loc, false, bang)
    }

    /** `list(logicalExpression)`: a Script holding one command. */
    constructor List(expr: Node, insertLoc: bool)
      ensures kind == Script && this.insertLoc == insertLoc
      ensures commands == [expr] && !bang
      ensures Valid()
    {
      kind := Script;
      this.insertLoc := insertLoc;
      commands := [expr];
      SpanSingle(expr);
      loc := if insertLoc then Some(Between(expr, expr)) else None;
      bang := false;
    }

    /** `term(logicalExpression)`: a CompoundList holding one command. */
    constructor Term(expr: Node, insertLoc: bool)
      ensures kind == CompoundList && this.insertLoc == insertLoc
      ensures commands == [expr] && !bang
      ensures Valid()
    {
      kind := CompoundList;
      this.insertLoc := insertLoc;
      commands := [expr];
      SpanSingle(expr);
      loc := if insertLoc then Some(Between(expr, expr)) else None;
      bang := false;
    }

    /** `pipeSequence(command)`: a Pipeline holding one command. */
    constructor PipeSequence(command: Node, insertLoc: bool)
      ensures kind == Pipeline && this.insertLoc == insertLoc
      ensures commands == [command] && !bang
      ensures Valid()
    {
      kind := Pipeline;
      this.insertLoc := insertLoc;
      commands := [command];
      SpanSingle(command);
      loc := if insertLoc then Some(Between(command, command)) else None;
      bang := false;
    }

    /**
     * `checkAsync(list, separator)`: a trailing `&` makes the last command
     * asynchronous; nothing else changes.
     */
    method CheckAsync(sep: SeparatorNode)
      requires Valid()
      modifies this
      ensures Valid()
      ensures commands == MarkLastAsync(old(commands), sep)
      ensures loc == old(loc) && bang == old(bang)
    {
      MarkKeepsSpan(commands, sep);
      commands := MarkLastAsync(commands, sep);
    }

    /**
     * `listAppend(list, logicalExpression, separator)`: the command before
     * an async separator becomes asynchronous, the new command goes at the
     * end, and with locations on the list's end moves to the new command's.
     */
    method ListAppend(expr: Node, sep: SeparatorNode)
      requires Valid()
      modifies this
      ensures Valid()
      ensures commands == MarkLastAsync(old(commands), sep) + [expr]
      ensures loc == if insertLoc then Some(SetLocEnd(old(loc).value, expr.loc)) else old(loc)
      ensures bang == old(bang)
    {
      MarkKeepsSpan(commands, sep);
      commands := MarkLastAsync(commands, sep);
      SpanAppend(commands, expr);
      commands := commands + [expr];
      if insertLoc {
        loc := Some(SetLocEnd(loc.value, expr.loc));
      }
    }

    /**
     * `termAppend(term, logicalExpression, separator)`: as `listAppend`, but
     * the end is set whether or not locations are on. With locations off
     * the list has no location object, and writing the end of the new
     * command into it throws (`thrown`) after the command was appended.
     */
    method TermAppend(expr: Node, sep: SeparatorNode) returns (thrown: bool)
      requires Valid()
      modifies this
      ensures Valid()
      ensures thrown <==> old(loc).None? && expr.loc.Some?
      ensures commands == MarkLastAsync(old(commands), sep) + [expr]
      ensures loc == if old(loc).Some? then Some(SetLocEnd(old(loc).value, expr.loc)) else old(loc)
      ensures bang == old(bang)
    {
      MarkKeepsSpan(commands, sep);
      commands := MarkLastAsync(commands, sep);
      SpanAppend(commands, expr);
      commands := commands + [expr];
      thrown := false;
      if loc.Some? {
        loc := Some(SetLocEnd(loc.value, expr.loc));
      } else if expr.loc.Some? {
        thrown := true;
      }
    }

    /**
     * `pipeSequenceAppend(pipe, command)`: the command goes at the end, and
     * with locations on the pipeline's end moves to the command's.
     */
    method PipeSequenceAppend(command: Node)
      requires Valid()
      modifies this
      ensures Valid()
      ensures commands == old(commands) + [command]
      ensures loc == if insertLoc then Some(SetLocEnd(old(loc).value, command.loc)) else old(loc)
      ensures bang == old(bang)
    {
      SpanAppend(commands, command);
      commands := commands + [command];
      if insertLoc {
        loc := Some(SetLocEnd(loc.value, command.loc));
      }
    }

    /**
     * `pipeLine(pipe)`: a pipeline of one command is that command itself;
     * a longer one is the Pipeline node.
     */
    function PipeLine(): (r: Node)
      reads this
      requires Valid()
      ensures |commands| == 1 ==> r == commands[0]
      ensures |commands| > 1 ==> r == ToNode() && r.body.commands == commands
    {
      if |commands| == 1 then commands[0] else ToNode()
    }

    /**
     * `bangPipeLine(pipe)`: what `pipeLine` gives, negated with `bang`. The
     * flag is written into the sole command when there is one (the
     * pipeline then holds the negated command), otherwise into the
     * pipeline; nothing else changes.
     */
    method BangPipeLine() returns (r: Node)
      requires Valid()
      modifies this
      ensures Valid()
      ensures r == old(PipeLine()).(bang := true)
      ensures |old(commands)| == 1 ==> commands == [r] && bang == old(bang)
      ensures |old(commands)| > 1 ==> commands == old(commands) && bang
      ensures loc == old(loc)
    {
      if |commands| == 1 {
        commands := [commands[0].(bang := true)];
        r := commands[0];
      } else {
        bang := true;
        r := ToNode();
      }
    }
  }

  // ---------------------------------------------------------------------
  // Logical expressions.

  /**
   * `andAndOr(left, right)`: an `and` expression of the two operands in
   * order; with locations on it runs from the start of `left` to the end
   * of `right`.
   */
  function AndAndOr(left: Node, right: Node, insertLoc: bool): (r: Node)
    ensures r.body == LogicalExpression(And, left, right) && !r.async && !r.bang
    ensures r.loc.Some? <==> insertLoc
    ensures r.loc.Some? ==> r.loc.value.start == StartOf(left) && r.loc.value.end == EndOf(right)
  {
    var node := Node(LogicalExpression(And, left, right), None, false, false);
    if insertLoc then node.(loc := Some(SetLocEnd(SetLocStart(EmptyLoc, left.loc), right.loc))) else node
  }

  /**
   * `orAndOr(left, right)`: an `or` expression of the two operands in
   * order; with locations on it runs from the start of `left` to the end
   * of `right`.
   */
  function OrAndOr(left: Node, right: Node, insertLoc: bool): (r: Node)
    ensures r.body == LogicalExpression(Or, left, right) && !r.async && !r.bang
    ensures r.loc.Some? <==> insertLoc
    ensures r.loc.Some? ==> r.loc.value.start == StartOf(left) && r.loc.value.end == EndOf(right)
  {
    var node := Node(LogicalExpression(Or, left, right), None, false, false);
    if insertLoc then node.(loc := Some(SetLocEnd(SetLocStart(EmptyLoc, left.loc), right.loc))) else node
  }

  /**
   * `a && b || c` is built left-nested; its location runs from the start of
   * `a` to the end of `c`, and the middle operand's location plays no part.
   */
  lemma AndOrChainSpan(a: Node, b: Node, c: Node)
    ensures var r := OrAndOr(AndAndOr(a, b, true), c, true);
      && r.body.left.body.left == a && r.body.left.body.right == b && r.body.right == c
      && r.loc.value.start == StartOf(a) && r.loc.value.end == EndOf(c)
  {
  }

  // ---------------------------------------------------------------------
  // Simple commands.

  /** The last element of a non-empty sequence. */
  function Last<T>(s: seq<T>): T
    requires |s| > 0
  {
    s[|s| - 1]
  }

  /** The parts of a simple command in source order: prefix, name, suffix. */
  function Parts(prefix: Option<seq<Node>>, name: Option<Node>, suffix: Option<seq<Node>>): seq<Node> {
    prefix.GetOr([]) + (if name.Some? then [name.value] else []) + suffix.GetOr([])
  }

  /**
   * What the location computation of `command` dereferences with `!`:
   * present lists are non-empty and the parts it reads have locations.
   */
  predicate CommandLocDefined(prefix: Option<seq<Node>>, name: Option<Node>, suffix: Option<seq<Node>>) {
    && (prefix.Some? ==> |prefix.value| > 0 && prefix.value[0].loc.Some?)
    && (prefix.None? ==> name.Some? && name.value.loc.Some?)
    && (suffix.Some? ==> |suffix.value| > 0 && Last(suffix.value).loc.Some?)
    && (suffix.None? && name.Some? ==> name.value.loc.Some?)
    && (suffix.None? && name.None? && prefix.Some? ==> Last(prefix.value).loc.Some?)
  }

  /** The `TypeError` of reading a property through `undefined` in `command`. */
  const UndefinedLoc: PhaseError := TypeError("Cannot read properties of undefined")

  /**
   * `command(prefix, command, suffix)`: a Command node whose name is set
   * only when a command word is given. With locations on, it runs from the
   * start of its first part to the end of its last part (prefix before
   * name before suffix); a part it reads that is missing or has no location
   * makes it throw.
   */
  function Command(prefix: Option<seq<Node>>, name: Option<Node>, suffix: Option<seq<Node>>, insertLoc: bool)
    : (r: Result<Node, PhaseError>)
    ensures r.Err? <==> insertLoc && !CommandLocDefined(prefix, name, suffix)
    ensures r.Err? ==> r.error == UndefinedLoc
    ensures r.Ok? ==> r.value.body == NodeBody.Command(prefix, name, suffix) && !r.value.async && !r.value.bang
    ensures r.Ok? ==> (r.value.loc.Some? <==> insertLoc)
    ensures r.Ok? && r.value.loc.Some? ==>
      var parts := Parts(prefix, name, suffix);
      && |parts| > 0
      && r.value.loc.value.start == parts[0].loc.value.start
      && r.value.loc.value.end == Last(parts).loc.value.end
  {
    var node := Node(NodeBody.Command(prefix, name, suffix), None, false, false);
    if !insertLoc then
      Ok(node)
    else if !CommandLocDefined(prefix, name, suffix) then
      Err(UndefinedLoc)
    else
      var start := if prefix.Some? then prefix.value[0].loc.value.start else name.value.loc.value.start;
      var end :=
        if suffix.Some? then Last(suffix.value).loc.value.end
        else if name.Some? then name.value.loc.value.end
        else Last(prefix.value).loc.value.end;
      Ok(node.(loc := Some(Loc(start, end, Undefined, Undefined))))
  }

  /** `commandAssignment(prefix)`: a command made of assignments and redirections only. */
  lemma CommandAssignmentSpan(prefix: seq<Node>)
    requires |prefix| > 0 && prefix[0].loc.Some? && Last(prefix).loc.Some?
    ensures var r := Command(Some(prefix), None, None, true);
      && r.Ok? && r.value.body.name.None?
      && r.value.loc.value.start == prefix[0].loc.value.start
      && r.value.loc.value.end == Last(prefix).loc.value.end
  {
    assert Parts(Some(prefix), None, None) == prefix;
  }

  // ---------------------------------------------------------------------
  // Redirections.

  /** `ioRedirect(op, file)`: from the start of the operator to the end of the file operand. */
  function IoRedirect(op: Node, file: Node, insertLoc: bool): (r: Node)
    ensures r.body == Redirect(op, file, None) && !r.async && !r.bang
    ensures r.loc.Some? <==> insertLoc
    ensures r.loc.Some? ==> r.loc.value.start == StartOf(op) && r.loc.value.end == EndOf(file)
  {
    var node := Node(Redirect(op, file, None), None, false, false);
    if insertLoc then node.(loc := Some(SetLocEnd(SetLocStart(EmptyLoc, op.loc), file.loc))) else node
  }

  /**
   * `numberIoRedirect(ioRedirect, numberIo)`: the redirection with its file
   * descriptor attached; with locations on it now starts where the
   * descriptor starts.
   */
  function NumberIoRedirect(ioRedirect: Node, numberIo: Node, insertLoc: bool): (r: Node)
    requires ioRedirect.body.Redirect?
    requires insertLoc ==> ioRedirect.loc.Some?
    ensures r.body == ioRedirect.body.(numberIo := Some(numberIo))
    ensures r.async == ioRedirect.async && r.bang == ioRedirect.bang
    ensures !insertLoc ==> r.loc == ioRedirect.loc
    ensures insertLoc ==> r.loc.Some?
    ensures insertLoc && numberIo.loc.Some? ==> r.loc.value.start == numberIo.loc.value.start
    ensures insertLoc && numberIo.loc.None? ==> r.loc.value.start == ioRedirect.loc.value.start
    ensures insertLoc ==> r.loc.value.end == ioRedirect.loc.value.end
  {
    var node := ioRedirect.(body := ioRedirect.body.(numberIo := Some(numberIo)));
    if insertLoc then node.(loc := Some(SetLocStart(node.loc.value, numberIo.loc))) else node
  }

  /** `2>err`: the redirection runs from the descriptor to the file operand. */
  lemma NumberedRedirectSpan(number: Node, op: Node, file: Node)
    requires number.loc.Some?
    ensures var r := NumberIoRedirect(IoRedirect(op, file, true), number, true);
      && r.body == Redirect(op, file, Some(number))
      && r.loc.value.start == StartOf(number) && r.loc.value.end == EndOf(file)
  {
  }

  // ---------------------------------------------------------------------
  // Function definitions.

  /**
   * `functionDefinition(name, body)` as written. The grammar passes `body`
   * as the compound command followed, when there are any, by the list of
   * its redirections. The end of the location is read from `body[1] ||
   * body[0]`, which with redirections is the list itself: a list has no
   * `loc`, so the end is never set.
   */
  function FunctionDefinitionAsWritten(name: Node, compound: Node, redirections: Option<seq<Node>>, insertLoc: bool): (r: Node)
    ensures r.body == Function(name, compound, redirections)
    ensures r.loc.Some? <==> insertLoc
    ensures r.loc.Some? ==> r.loc.value.start == StartOf(name)
    ensures r.loc.Some? && redirections.None? ==> r.loc.value.end == EndOf(compound)
    ensures r.loc.Some? && redirections.Some? ==> r.loc.value.end.None?
  {
    var node := Node(Function(name, compound, redirections), None, false, false);
    // The end source: `body[0].loc`, or the `loc` of the redirection list, which is undefined.
    var endLoc := if redirections.Some? then None else compound.loc;
    if insertLoc then node.(loc := Some(SetLocEnd(SetLocStart(EmptyLoc, name.loc), endLoc))) else node
  }

  /**
   * `f() { :; } >out` with locations on: the redirection ends at `p`, but
   * the function's location as written has no end at all.
   */
  lemma FunctionDefinitionLosesEnd(name: Node, compound: Node, redirect: Node, p: Position)
    requires redirect.loc.Some? && redirect.loc.value.end == Some(p)
    ensures FunctionDefinitionAsWritten(name, compound, Some([redirect]), true).loc.value.end == None
    ensures FunctionDefinitionAsWritten(name, compound, Some([redirect]), true).loc.value.end != EndOf(redirect)
  {
  }

  /**
   * `functionDefinition(name, body)` with the end taken from the last
   * redirection, as `addRedirections` does for other compound commands.
   */
  function FunctionDefinition(name: Node, compound: Node, redirections: Option<seq<Node>>, insertLoc: bool): (r: Node)
    ensures r.body == Function(name, compound, redirections)
    ensures r.loc.Some? <==> insertLoc
  {
    var node := Node(Function(name, compound, redirections), None, false, false);
    var endLoc :=
      if redirections.Some? && |redirections.value| > 0 then Last(redirections.value).loc else compound.loc;
    if insertLoc then node.(loc := Some(SetLocEnd(SetLocStart(EmptyLoc, name.loc), endLoc))) else node
  }

  /**
   * With locations on, a function definition runs from the start of its
   * name to the end of its last part: the last redirection if there is
   * one, else the body.
   */
  lemma FunctionDefinitionSpan(name: Node, compound: Node, redirections: Option<seq<Node>>)
    ensures FunctionDefinition(name, compound, redirections, true).loc.value.start == StartOf(name)
    ensures FunctionDefinition(name, compound, redirections, true).loc.value.end
      == EndOf(Last([compound] + redirections.GetOr([])))
  {
    var parts := [compound] + redirections.GetOr([]);
    if redirections.Some? && |redirections.value| > 0 {
      assert Last(parts) == Last(redirections.value);
    } else {
      assert parts == [compound];
    }
  }

  // ---------------------------------------------------------------------
  // The list helpers made by `mkListHelper` for caseList, pattern, prefix and suffix.

  /** One list of items built by a `mkListHelper` pair. */
  class ItemList {
    var items: seq<Node>

    /** `builder[listName](item)`: a list holding one item. */
    constructor Singleton(item: Node)
      ensures items == [item]
    {
      items := [item];
    }

    /** `builder[listName + "Append"](list, item)`: the item goes at the end. */
    method Append(item: Node)
      modifies this
      ensures items == old(items) + [item]
      ensures |items| == |old(items)| + 1 && items[..|old(items)|] == old(items)
    {
      items := items + [item];
    }
  }
}
