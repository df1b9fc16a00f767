/** The dialogue script parser.  A first pass reads the script line by line
    and builds parsed nodes in layers, one layer per indentation depth; a
    second pass materialises the parsed nodes into a `DialogueSequence`,
    adding the fall-through gotos that the layout implies.

    Parsed nodes are values kept in the parser's `layers`; a node's parent
    is named by its place (layer, index), and the line built last on a
    script line is named by its place as well.  Lines become `Line`
    objects when the sequence is built. */
module Parser {
  import opened Wrappers
  import opened Strings
  import opened Commands
  import opened StringUtils
  import Indentations
  import FunctionCalls
  import opened Lines
  import opened Sequences

  /** The command table and escape command a parser splits lines with. */
  datatype Syntax = Syntax(commands: seq<Command>, escape: Command)

  predicate Ready(syntax: Syntax) {
    |syntax.escape.literal| > 0
  }

  /** The most commands one script line may hold; the rest is ignored. */
  const MaxIterations: nat := 1000

  /** Where a parsed node sits: its layer (depth) and its index there. */
  datatype Place = Place(layer: nat, index: nat)

  /** An option of an optional line being built. */
  datatype OptionDraft = OptionDraft(node: string, text: string, id: Maybe<string>)

  /** A line being built: its variant, its ids and, for an optional line,
      its options in key order. */
  datatype Draft = Draft(kind: LineKind, ids: seq<string>, options: seq<OptionDraft>)

  /** A parsed node: its key, its parent's place, its lines and its
      optional line, created with its first option.  Its own place is where
      it sits in the layers. */
  datatype ParsedNode = ParsedNode(key: string, parent: Maybe<Place>, lines: seq<Draft>, option: Maybe<Draft>)

  /** The fields of a parser: the next anonymous node number, the layers of
      parsed nodes, the node table and the depths with a pending break. */
  datatype ParserState = ParserState(anonId: nat, layers: seq<seq<ParsedNode>>,
                                     nodes: map<string, Place>, breaks: set<nat>)

  const Initial := ParserState(0, [], map[], {})

  predicate At(layers: seq<seq<ParsedNode>>, p: Place) {
    p.layer < |layers| && p.index < |layers[p.layer]|
  }

  function NodeAt(layers: seq<seq<ParsedNode>>, p: Place): ParsedNode
    requires At(layers, p)
  {
    layers[p.layer][p.index]
  }

  /** `layers` with the node at `p` replaced. */
  function WithNode(layers: seq<seq<ParsedNode>>, p: Place, n: ParsedNode): (r: seq<seq<ParsedNode>>)
    requires At(layers, p)
    ensures |r| == |layers| && At(r, p) && NodeAt(r, p) == n
    ensures forall l :: 0 <= l < |r| ==> |r[l]| == |layers[l]|
    ensures forall q :: At(layers, q) && q != p ==> NodeAt(r, q) == NodeAt(layers, q)
  {
    layers[p.layer := layers[p.layer][p.index := n]]
  }

  // ---------------------------------------------------------------------
  // Anonymous nodes
  // ---------------------------------------------------------------------

  /** The key of the anonymous node numbered `n`: `<n>`. */
  function AnonName(n: nat): string {
    "<" + NatToString(n) + ">"
  }

  lemma {:induction false} NatToStringInjective(n: nat, m: nat)
    requires NatToString(n) == NatToString(m)
    ensures n == m
    decreases n
  {
    var s := NatToString(n);
    NatToStringSingleDigit(n);
    NatToStringSingleDigit(m);
    if n < 10 && m < 10 {
      assert DigitChar(n) == s[0] == DigitChar(m);
    } else if n >= 10 && m >= 10 {
      assert s[|s| - 1] == DigitChar(n % 10) == DigitChar(m % 10);
      assert n % 10 == m % 10;
      assert s[..|s| - 1] == NatToString(n / 10) == NatToString(m / 10);
      NatToStringInjective(n / 10, m / 10);
    }
  }

  lemma NatToStringSingleDigit(n: nat)
    ensures |NatToString(n)| == 1 <==> n < 10
  {
    if n >= 10 {
      assert |NatToString(n / 10)| >= 1;
    }
  }

  /** Anonymous keys are `<`, a decimal number and `>`, and two different
      numbers give two different keys. */
  lemma AnonNames(n: nat, m: nat)
    ensures var a := AnonName(n);
            |a| >= 3 && a[0] == '<' && a[|a| - 1] == '>'
            && forall i :: 1 <= i < |a| - 1 ==> '0' <= a[i] <= '9'
    ensures n != m ==> AnonName(n) != AnonName(m)
  {
    if AnonName(n) == AnonName(m) {
      var a := AnonName(n);
      assert a[1..|a| - 1] == NatToString(n);
      assert AnonName(m)[1..|a| - 1] == NatToString(m);
      NatToStringInjective(n, m);
    }
  }

  // ---------------------------------------------------------------------
  // Layers and parsed nodes
  // ---------------------------------------------------------------------

  /** `TryCreateLayer`: a node may go one layer below the deepest one, and
      the layer for it is then opened; any deeper is a gap. */
  function LayerReady(st: ParserState, depth: nat): (r: Result<ParserState>)
    ensures r.Ok? <==> depth <= |st.layers|
    ensures r.Err? ==> r.error == DialogueParse(GapInLayers)
    ensures r.Ok? ==> depth < |r.value.layers| && |st.layers| <= |r.value.layers| <= |st.layers| + 1
                      && r.value.layers[..|st.layers|] == st.layers
                      && (depth == |st.layers| ==> r.value.layers[depth] == [])
                      && r.value == st.(layers := r.value.layers)
  {
    if depth > |st.layers| then Err(DialogueParse(GapInLayers))
    else if depth == |st.layers| then Ok(st.(layers := st.layers + [[]]))
    else Ok(st)
  }

  /** The state after creating a node, and the place of the new node. */
  datatype Placed = Placed(state: ParserState, place: Place)

  /** `CreateParsedNode`: a new node without lines goes last in layer
      `depth` and into the node table, which refuses a key it holds. */
  function NodeCreated(st: ParserState, key: string, parent: Maybe<Place>, depth: nat): (r: Result<Placed>)
    ensures r.Ok? ==> At(r.value.state.layers, r.value.place) && r.value.place.layer == depth
  {
    match LayerReady(st, depth)
    case Err(e) => Err(e)
    case Ok(ready) =>
      var place := Place(depth, |ready.layers[depth]|);
      if key in ready.nodes then Err(Argument(DuplicateKey))
      else
        var node := ParsedNode(key, parent, [], None);
        Ok(Placed(ready.(layers := ready.layers[depth := ready.layers[depth] + [node]],
                          nodes := ready.nodes[key := place]), place))
  }

  /** `GetTopLayer`: the last node of layer `depth`.  A depth past the
      layers fails as the list indexer does; an empty layer is not present. */
  function TopNode(layers: seq<seq<ParsedNode>>, depth: nat): (r: Result<ParsedNode>)
    ensures r.Ok? <==> depth < |layers| && layers[depth] != []
    ensures r.Ok? ==> r.value == layers[depth][|layers[depth]| - 1]
    ensures depth >= |layers| ==> r == Err(ArgumentOutOfRange)
    ensures depth < |layers| && layers[depth] == [] ==> r == Err(DialogueParse(LayerNotPresent))
  {
    if depth >= |layers| then Err(ArgumentOutOfRange)
    else if layers[depth] == [] then Err(DialogueParse(LayerNotPresent))
    else Ok(layers[depth][|layers[depth]| - 1])
  }

  /** Where the line built last on the current script line sits. */
  datatype Created = NoLine | LineAt(place: Place, line: nat) | OptionalAt(place: Place)

  /** The state after adding a line, and where the line went. */
  datatype Added = Added(state: ParserState, created: Created)

  /** `AddToNode`: with a pending break at `depth` the line opens a new
      anonymous node beside the last one (same parent) and the break is
      cleared; otherwise it goes last in the last node of layer `depth`. */
  function LineAdded(st: ParserState, d: Draft, depth: nat): (r: Result<Added>)
  {
    if depth in st.breaks then
      match TopNode(st.layers, depth)
      case Err(e) => Err(e)
      case Ok(previous) =>
        match NodeCreated(st.(anonId := st.anonId + 1), AnonName(st.anonId), previous.parent, depth)
        case Err(e) => Err(e)
        case Ok(placed) =>
          var n := NodeAt(placed.state.layers, placed.place);
          Ok(Added(placed.state.(layers := WithNode(placed.state.layers, placed.place, n.(lines := n.lines + [d])),
                                 breaks := placed.state.breaks - {depth}),
                   LineAt(placed.place, |n.lines|)))
    else if depth >= |st.layers| || st.layers[depth] == [] then Err(DialogueParse(LineNotConnected))
    else
      var p := Place(depth, |st.layers[depth]| - 1);
      var n := NodeAt(st.layers, p);
      Ok(Added(st.(layers := WithNode(st.layers, p, n.(lines := n.lines + [d]))), LineAt(p, |n.lines|)))
  }

  /** `ParsedNode.AddOption`: the optional line is created with the first
      option; the new option leads to `node` and has no id yet. */
  function OptionAdded(n: ParsedNode, node: string, text: string): ParsedNode {
    var line := if n.option.Some? then n.option.value else Draft(OptionalKind, [], []);
    n.(option := Some(line.(options := line.options + [OptionDraft(node, text, None)])))
  }

  function OptionCount(n: ParsedNode): nat {
    if n.option.Some? then |n.option.value.options| else 0
  }

  // ---------------------------------------------------------------------
  // The command loop of one script line
  // ---------------------------------------------------------------------

  /** `SplitCommand` followed by trimming of the three parts. */
  function Resplit(syntax: Syntax, text: string): Result<Split>
    requires Ready(syntax)
  {
    match SplitText(text, syntax.escape, syntax.commands)
    case Err(e) => Err(e)
    case Ok(s) => Ok(Trimmed(s))
  }

  /** `literal` occurs somewhere in `text` (`string.Contains`). */
  function Contains(text: string, literal: string): (r: bool)
    ensures r <==> exists i :: OccursAt(text, literal, i)
    decreases |text|
  {
    if literal <= text then
      assert OccursAt(text, literal, 0) by { assert text[..|literal|] == literal; }
      true
    else if text == [] then false
    else
      var r := Contains(text[1..], literal);
      assert r <==> exists i :: OccursAt(text, literal, i) by {
        if r {
          var i :| OccursAt(text[1..], literal, i);
          assert text[i + 1..i + 1 + |literal|] == text[1..][i..i + |literal|];
          assert OccursAt(text, literal, i + 1);
        } else {
          forall i | OccursAt(text, literal, i)
            ensures false
          {
            if i > 0 {
              assert text[1..][i - 1..i - 1 + |literal|] == text[i..i + |literal|];
              assert OccursAt(text[1..], literal, i - 1);
            }
          }
        }
      }
      r
  }

  /** Some command's literal occurs in `text`. */
  function AnyLiteralIn(text: string, commands: seq<Command>): (r: bool)
    ensures r <==> exists k :: 0 <= k < |commands| && Contains(text, commands[k].literal)
  {
    if commands == [] then false
    else Contains(text, commands[0].literal) || AnyLiteralIn(text, commands[1..])
  }

  /** What the command loop keeps between commands of one script line:
      the depth lines go to, the line built last and the key of the option
      created last. */
  datatype LineState = LineState(depth: nat, created: Created, optionKey: int)

  /** The state after one command, and the text still to parse. */
  datatype Turn = Turn(state: ParserState, line: LineState, toParse: string)

  /** `[id]` after a line: the id is added to the line built last and, on
      an optional line, becomes the id of the option created last.  The
      places named by `created` always exist; the index checks mirror the
      list accesses that would otherwise throw. */
  function IdAdded(layers: seq<seq<ParsedNode>>, ls: LineState, id: string): Result<seq<seq<ParsedNode>>>
    requires !ls.created.NoLine?
  {
    var p := ls.created.place;
    if !At(layers, p) then Err(ArgumentOutOfRange)
    else
      var n := NodeAt(layers, p);
      match ls.created
      case LineAt(_, k) =>
        if k >= |n.lines| then Err(ArgumentOutOfRange)
        else Ok(WithNode(layers, p, n.(lines := n.lines[k := n.lines[k].(ids := n.lines[k].ids + [id])])))
      case OptionalAt(_) =>
        if n.option.None? then Err(ArgumentOutOfRange)
        else
          var line := n.option.value;
          if !(0 <= ls.optionKey < |line.options|) then Err(Argument(UnknownOption))
          else
            var options := line.options[ls.optionKey := line.options[ls.optionKey].(id := Some(id))];
            Ok(WithNode(layers, p, n.(option := Some(line.(ids := line.ids + [id], options := options)))))
  }

  /** One turn of the command loop of `ParseNodes`, on the command `s`
      was split on. */
  function Handle(syntax: Syntax, st: ParserState, ls: LineState, s: Split): (r: Result<Turn>)
    requires Ready(syntax) && s.command.Some?
  {
    match s.command.value.kind
    case NodeStart =>
      if AnyLiteralIn(s.after, syntax.commands) then Err(DialogueParse(NodeIdContainsCommand))
      else
        (match NodeCreated(st.(breaks := st.breaks - {ls.depth}), s.after, None, ls.depth)
         case Err(e) => Err(e)
         case Ok(placed) => Ok(Turn(placed.state, ls, [])))
    case Option => OptionTurn(st, ls, s.after, s.next)
    case IdStart =>
      if ls.created.NoLine? then Err(DialogueParse(IdsMustFollowLine))
      else
        (match SplitText(s.next, syntax.escape, syntax.commands)
         case Err(e) => Err(e)
         case Ok(closing) =>
           if closing.command.None? || closing.command.value.kind != IdEnd then Err(DialogueParse(UnclosedId))
           else if |closing.command.value.literal| > |s.next| then Err(ArgumentOutOfRange)
           else
             (match IdAdded(st.layers, ls, s.after)
              case Err(e) => Err(e)
              case Ok(layers) => Ok(Turn(st.(layers := layers), ls, s.next[|closing.command.value.literal|..]))))
    case IdEnd => Err(DialogueParse(UnopenedId))
    case Comment => Ok(Turn(st, ls, []))
    case Dialogue => LineTurn(st, ls, Draft(DialogueKind(s.before, s.after), [], []), s.next)
    case Goto => LineTurn(st, ls, Draft(GotoKind(s.after), [], []), s.next)
    case Exec =>
      (match FunctionCalls.ParseCall(s.after, FunctionCalls.Start)
       case Err(e) => Err(e)
       case Ok(call) => LineTurn(st, ls, Draft(ExecKind(call.name, call.parameters), [], []), s.next))
    case _ => Ok(Turn(st, ls, []))
  }

  /** An option command at depth d: d gets a pending break, a new anonymous
      node one layer down gets the last node of layer d as its parent, and
      that parent's optional line gets an option leading to it; the rest of
      the script line goes one layer down. */
  function OptionTurn(st: ParserState, ls: LineState, text: string, next: string): Result<Turn> {
    var marked := st.(breaks := st.breaks + {ls.depth});
    match TopNode(marked.layers, ls.depth)
    case Err(e) => Err(e)
    case Ok(top) =>
      var p := Place(ls.depth, |marked.layers[ls.depth]| - 1);
      var anon := AnonName(marked.anonId);
      match NodeCreated(marked.(anonId := marked.anonId + 1), anon, Some(p), ls.depth + 1)
      case Err(e) => Err(e)
      case Ok(placed) =>
        var layers := placed.state.layers;
        assert layers[ls.depth] == marked.layers[ls.depth];
        var n := NodeAt(layers, p);
        Ok(Turn(placed.state.(layers := WithNode(layers, p, OptionAdded(n, anon, text))),
                LineState(ls.depth + 1, OptionalAt(p), OptionCount(n)), next))
  }

  /** A line command: the line is added at the current depth and becomes
      the line built last. */
  function LineTurn(st: ParserState, ls: LineState, d: Draft, next: string): Result<Turn> {
    match LineAdded(st, d, ls.depth)
    case Err(e) => Err(e)
    case Ok(added) => Ok(Turn(added.state, ls.(created := added.created), next))
  }

  /** Dialogue commands chain on one script line: after a dialogue command
      the rest of the line is parsed again, and when it starts with a
      second dialogue command that one has nothing before it, so it adds a
      dialogue line with an empty speaker (`a: b: c` gives `a` saying `b`,
      then an unnamed speaker saying `c`). */
  lemma DialogueChains(syntax: Syntax, st: ParserState, ls: LineState, s: Split, t: Turn, s': Split)
    requires Ready(syntax) && s.command.Some? && s.command.value.kind == Dialogue
    requires Handle(syntax, st, ls, s) == Ok(t)
    requires OpensCommand(syntax.escape, SearchList(syntax.escape, syntax.commands), s.next)
    requires Resplit(syntax, t.toParse) == Ok(s') && s'.command.Some? && s'.command.value.kind == Dialogue
    ensures LineAdded(st, Draft(DialogueKind(s.before, s.after), [], []), ls.depth).Ok?
    ensures t.state == LineAdded(st, Draft(DialogueKind(s.before, s.after), [], []), ls.depth).value.state
    ensures t.toParse == s.next && s'.before == []
    ensures Handle(syntax, t.state, t.line, s')
            == LineTurn(t.state, t.line, Draft(DialogueKind([], s'.after), [], []), s'.next)
  {
    SplitAtCommand(s.next, syntax.escape, syntax.commands);
    assert Trim([]) == [];
  }

  /** The command loop from split `s` after `iterations` commands. */
  function CommandLoop(syntax: Syntax, st: ParserState, ls: LineState, s: Split, iterations: nat): Result<ParserState>
    requires Ready(syntax)
    decreases MaxIterations - iterations, 1
  {
    if s.command.None? || iterations >= MaxIterations then Ok(st)
    else NextCommand(syntax, st, ls, s, iterations)
  }

  /** The command loop from a split that holds a command. */
  function NextCommand(syntax: Syntax, st: ParserState, ls: LineState, s: Split, iterations: nat): Result<ParserState>
    requires Ready(syntax) && s.command.Some? && iterations < MaxIterations
    decreases MaxIterations - iterations, 0
  {
    match Handle(syntax, st, ls, s)
    case Err(e) => Err(e)
    case Ok(t) =>
      match Resplit(syntax, t.toParse)
      case Err(e) => Err(e)
      case Ok(s') => CommandLoop(syntax, t.state, t.line, s', iterations + 1)
  }

  /** With no command left, or no turn left, the loop ends where it is. */
  lemma LoopDone(syntax: Syntax, st: ParserState, ls: LineState, s: Split, iterations: nat)
    requires Ready(syntax) && (s.command.None? || iterations >= MaxIterations)
    ensures CommandLoop(syntax, st, ls, s, iterations) == Ok(st)
  {
  }

  /** The command loop from `ls` and `s` ends in `goal`. */
  ghost predicate LoopEndsIn(syntax: Syntax, st: ParserState, ls: LineState, s: Split, iterations: nat, goal: Result<ParserState>)
    requires Ready(syntax)
  {
    CommandLoop(syntax, st, ls, s, iterations) == goal
  }

  /** `ParseNodes` on one script line: its depth, then its commands. */
  function LineParsed(syntax: Syntax, st: ParserState, line: string): Result<ParserState>
    requires Ready(syntax)
  {
    match Indentations.IndentationOf(line, Indentations.Indentations)
    case Err(e) => Err(e)
    case Ok(indented) =>
      match Resplit(syntax, Trim(indented.rest))
      case Err(e) => Err(e)
      case Ok(s) => CommandLoop(syntax, st, LineState(indented.level, NoLine, -1), s, 0)
  }

  /** The first pass of `Parse`: every script line that is not blank. */
  function ScriptParsed(syntax: Syntax, st: ParserState, lines: seq<string>): Result<ParserState>
    requires Ready(syntax)
    decreases |lines|
  {
    if lines == [] then Ok(st)
    else if Trim(lines[0]) == [] then ScriptParsed(syntax, st, lines[1..])
    else
      match LineParsed(syntax, st, lines[0])
      case Err(e) => Err(e)
      case Ok(st') => ScriptParsed(syntax, st', lines[1..])
  }

  /** `SplitCommand`'s parts, trimmed. */
  function Trimmed(s: Split): Split {
    Split(Trim(s.before), Trim(s.after), Trim(s.next), s.command)
  }

  // ---------------------------------------------------------------------
  // The shape the first pass keeps
  // ---------------------------------------------------------------------

  /** A parent sits in the layer just above its child. */
  predicate ParentOk(layers: seq<seq<ParsedNode>>, layer: nat, parent: Maybe<Place>) {
    parent.Some? ==> parent.value.layer + 1 == layer && At(layers, parent.value)
  }

  /** The first pass keeps: no layer is empty, every parent exists one
      layer up, and the node table maps each key to the one place that
      holds a node with that key. */
  ghost predicate Valid(st: ParserState) {
    (forall l :: 0 <= l < |st.layers| ==> st.layers[l] != [])
    && (forall p {:trigger NodeAt(st.layers, p)} :: At(st.layers, p) ==> ParentOk(st.layers, p.layer, NodeAt(st.layers, p).parent))
    && (forall k :: k in st.nodes ==> At(st.layers, st.nodes[k]) && NodeAt(st.layers, st.nodes[k]).key == k)
    && (forall p {:trigger NodeAt(st.layers, p)} :: At(st.layers, p) ==>
          NodeAt(st.layers, p).key in st.nodes && st.nodes[NodeAt(st.layers, p).key] == p)
  }

  lemma InitialValid()
    ensures Valid(Initial)
  {
  }

  /** Two places of a valid state hold nodes with different keys. */
  lemma KeysDistinct(st: ParserState, p: Place, q: Place)
    requires Valid(st) && At(st.layers, p) && At(st.layers, q) && p != q
    ensures NodeAt(st.layers, p).key != NodeAt(st.layers, q).key
  {
  }

  /** Creating a node adds one place, the top of layer `depth`, and keeps
      every node that was there before. */
  lemma NodeCreatedFrame(st: ParserState, key: string, parent: Maybe<Place>, depth: nat)
    requires NodeCreated(st, key, parent, depth).Ok?
    ensures NodeCreated(st, key, parent, depth).value.place
            == Place(depth, |NodeCreated(st, key, parent, depth).value.state.layers[depth]| - 1)
    ensures NodeAt(NodeCreated(st, key, parent, depth).value.state.layers, NodeCreated(st, key, parent, depth).value.place)
            == ParsedNode(key, parent, [], None)
    ensures key !in st.nodes
    ensures NodeCreated(st, key, parent, depth).value.state.nodes == st.nodes[key := NodeCreated(st, key, parent, depth).value.place]
    ensures NodeCreated(st, key, parent, depth).value.state.anonId == st.anonId
    ensures NodeCreated(st, key, parent, depth).value.state.breaks == st.breaks
    ensures var s := NodeCreated(st, key, parent, depth).value.state;
            forall l :: 0 <= l < |s.layers| && l != depth ==> l < |st.layers| && s.layers[l] == st.layers[l]
    ensures var s := NodeCreated(st, key, parent, depth).value.state;
            forall q :: At(st.layers, q) ==> At(s.layers, q) && NodeAt(s.layers, q) == NodeAt(st.layers, q)
    ensures var placed := NodeCreated(st, key, parent, depth).value;
            forall q :: At(placed.state.layers, q) ==> q == placed.place || At(st.layers, q)
  {
    var ready := LayerReady(st, depth).value;
    assert forall q :: At(st.layers, q) ==> At(ready.layers, q) && NodeAt(ready.layers, q) == NodeAt(st.layers, q);
  }

  /** Creating a node keeps the state valid when its parent is one layer
      up, and the new node is the top of its layer. */
  lemma NodeCreatedValid(st: ParserState, key: string, parent: Maybe<Place>, depth: nat)
    requires Valid(st) && ParentOk(st.layers, depth, parent)
    ensures var r := NodeCreated(st, key, parent, depth);
            r.Ok? ==> Valid(r.value.state)
                      && TopNode(r.value.state.layers, depth) == Ok(ParsedNode(key, parent, [], None))
  {
    var r := NodeCreated(st, key, parent, depth);
    if r.Ok? {
      NodeCreatedFrame(st, key, parent, depth);
      var s := r.value.state;
      var place := r.value.place;
      forall l | 0 <= l < |s.layers|
        ensures s.layers[l] != []
      {
      }
      forall q | At(s.layers, q)
        ensures ParentOk(s.layers, q.layer, NodeAt(s.layers, q).parent)
      {
      }
      forall k | k in s.nodes
        ensures At(s.layers, s.nodes[k]) && NodeAt(s.layers, s.nodes[k]).key == k
      {
      }
      forall q | At(s.layers, q)
        ensures NodeAt(s.layers, q).key in s.nodes && s.nodes[NodeAt(s.layers, q).key] == q
      {
        if q != place {
          assert NodeAt(st.layers, q).key in st.nodes;
        }
      }
    }
  }

  /** Replacing a node by one with the same key and parent keeps the state
      valid. */
  lemma WithNodeValid(st: ParserState, p: Place, n: ParsedNode)
    requires Valid(st) && At(st.layers, p)
    requires n.key == NodeAt(st.layers, p).key && n.parent == NodeAt(st.layers, p).parent
    ensures Valid(st.(layers := WithNode(st.layers, p, n)))
  {
    var layers := WithNode(st.layers, p, n);
    assert forall q :: At(layers, q) <==> At(st.layers, q);
    forall l | 0 <= l < |layers|
      ensures layers[l] != []
    {
      assert |layers[l]| == |st.layers[l]|;
    }
  }

  /** Adding a line keeps the state valid. */
  lemma LineAddedValid(st: ParserState, d: Draft, depth: nat)
    requires Valid(st)
    ensures LineAdded(st, d, depth).Ok? ==> Valid(LineAdded(st, d, depth).value.state)
  {
    if LineAdded(st, d, depth).Ok? {
      if depth in st.breaks {
        var previous := TopNode(st.layers, depth).value;
        assert previous == NodeAt(st.layers, Place(depth, |st.layers[depth]| - 1));
        var st1 := st.(anonId := st.anonId + 1);
        NodeCreatedValid(st1, AnonName(st.anonId), previous.parent, depth);
        var placed := NodeCreated(st1, AnonName(st.anonId), previous.parent, depth).value;
        var n := NodeAt(placed.state.layers, placed.place);
        WithNodeValid(placed.state, placed.place, n.(lines := n.lines + [d]));
      } else {
        var p := Place(depth, |st.layers[depth]| - 1);
        var n := NodeAt(st.layers, p);
        WithNodeValid(st, p, n.(lines := n.lines + [d]));
      }
    }
  }

  /** Adding an id keeps the state valid. */
  lemma IdAddedValid(st: ParserState, ls: LineState, id: string)
    requires Valid(st) && !ls.created.NoLine?
    ensures IdAdded(st.layers, ls, id).Ok? ==> Valid(st.(layers := IdAdded(st.layers, ls, id).value))
  {
    var p := ls.created.place;
    if IdAdded(st.layers, ls, id).Ok? {
      var n := NodeAt(st.layers, p);
      match ls.created
      case LineAt(_, k) =>
        WithNodeValid(st, p, n.(lines := n.lines[k := n.lines[k].(ids := n.lines[k].ids + [id])]));
      case OptionalAt(_) =>
        var line := n.option.value;
        var options := line.options[ls.optionKey := line.options[ls.optionKey].(id := Some(id))];
        WithNodeValid(st, p, n.(option := Some(line.(ids := line.ids + [id], options := options))));
    }
  }

  /** An option command opens a node one layer down under the top node of
      the current layer and gives the top node one more option. */
  lemma OptionTurnParts(st: ParserState, ls: LineState, text: string, next: string)
    requires OptionTurn(st, ls, text, next).Ok?
    ensures ls.depth < |st.layers| && st.layers[ls.depth] != []
    ensures var p := Place(ls.depth, |st.layers[ls.depth]| - 1);
            OptionOpened(st, p, text).Some? && OptionTurn(st, ls, text, next).value.state == OptionOpened(st, p, text).value
  {
    var p := Place(ls.depth, |st.layers[ls.depth]| - 1);
    var st1 := st.(breaks := st.breaks + {ls.depth}, anonId := st.anonId + 1);
    NodeCreatedFrame(st1, AnonName(st.anonId), Some(p), ls.depth + 1);
  }

  /** The state after an option command: the node of the option opened one
      layer down under the top node at `p`, and the option added to the top
      node. */
  ghost function OptionOpened(st: ParserState, p: Place, text: string): Maybe<ParserState>
    requires At(st.layers, p)
  {
    var st1 := st.(breaks := st.breaks + {p.layer}, anonId := st.anonId + 1);
    match NodeCreated(st1, AnonName(st.anonId), Some(p), p.layer + 1)
    case Err(_) => None
    case Ok(created) =>
      if At(created.state.layers, p)
      then Some(created.state.(layers := WithNode(created.state.layers, p,
                                                  OptionAdded(NodeAt(st.layers, p), AnonName(st.anonId), text))))
      else None
  }

  /** Opening the node of an option under the top node at `p` and giving
      that node the option keeps the state valid. */
  lemma OptionOpenedValid(st: ParserState, p: Place, text: string)
    requires Valid(st) && At(st.layers, p)
    ensures OptionOpened(st, p, text).Some? ==> Valid(OptionOpened(st, p, text).value)
  {
    if OptionOpened(st, p, text).Some? {
      var st1 := st.(breaks := st.breaks + {p.layer}, anonId := st.anonId + 1);
      OptionOpenedIs(st, p, text, st1);
      assert Valid(st1);
      NodeCreatedValid(st1, AnonName(st.anonId), Some(p), p.layer + 1);
      var created := NodeCreated(st1, AnonName(st.anonId), Some(p), p.layer + 1).value.state;
      NodeCreatedKeeps(st1, AnonName(st.anonId), Some(p), p.layer + 1, p);
      WithNodeValid(created, p, OptionAdded(NodeAt(st.layers, p), AnonName(st.anonId), text));
    }
  }

  lemma OptionOpenedIs(st: ParserState, p: Place, text: string, st1: ParserState)
    requires At(st.layers, p) && OptionOpened(st, p, text).Some?
    requires st1 == st.(breaks := st.breaks + {p.layer}, anonId := st.anonId + 1)
    ensures NodeCreated(st1, AnonName(st.anonId), Some(p), p.layer + 1).Ok?
    ensures var created := NodeCreated(st1, AnonName(st.anonId), Some(p), p.layer + 1).value.state;
            At(created.layers, p)
            && OptionOpened(st, p, text).value
               == created.(layers := WithNode(created.layers, p, OptionAdded(NodeAt(st.layers, p), AnonName(st.anonId), text)))
  {
  }

  /** Creating a node leaves the node at an existing place as it was. */
  lemma NodeCreatedKeeps(st: ParserState, key: string, parent: Maybe<Place>, depth: nat, q: Place)
    requires NodeCreated(st, key, parent, depth).Ok? && At(st.layers, q)
    ensures At(NodeCreated(st, key, parent, depth).value.state.layers, q)
    ensures NodeAt(NodeCreated(st, key, parent, depth).value.state.layers, q) == NodeAt(st.layers, q)
  {
    NodeCreatedFrame(st, key, parent, depth);
  }

  /** An option command keeps the state valid. */
  lemma OptionTurnValid(st: ParserState, ls: LineState, text: string, next: string)
    requires Valid(st)
    ensures OptionTurn(st, ls, text, next).Ok? ==> Valid(OptionTurn(st, ls, text, next).value.state)
  {
    if OptionTurn(st, ls, text, next).Ok? {
      OptionTurnParts(st, ls, text, next);
      OptionOpenedValid(st, Place(ls.depth, |st.layers[ls.depth]| - 1), text);
    }
  }

  /** Every command keeps the state valid. */
  lemma HandleValid(syntax: Syntax, st: ParserState, ls: LineState, s: Split)
    requires Ready(syntax) && s.command.Some? && Valid(st)
    ensures Handle(syntax, st, ls, s).Ok? ==> Valid(Handle(syntax, st, ls, s).value.state)
  {
    match s.command.value.kind
    case NodeStart =>
      NodeCreatedValid(st.(breaks := st.breaks - {ls.depth}), s.after, None, ls.depth);
    case Option =>
      OptionTurnValid(st, ls, s.after, s.next);
    case IdStart =>
      if !ls.created.NoLine? {
        IdAddedValid(st, ls, s.after);
      }
    case Dialogue =>
      LineAddedValid(st, Draft(DialogueKind(s.before, s.after), [], []), ls.depth);
    case Goto =>
      LineAddedValid(st, Draft(GotoKind(s.after), [], []), ls.depth);
    case Exec =>
      match FunctionCalls.ParseCall(s.after, FunctionCalls.Start) {
        case Err(_) =>
        case Ok(call) => LineAddedValid(st, Draft(ExecKind(call.name, call.parameters), [], []), ls.depth);
      }
    case _ =>
  }

  lemma {:induction false} CommandLoopValid(syntax: Syntax, st: ParserState, ls: LineState, s: Split, iterations: nat)
    requires Ready(syntax) && Valid(st)
    ensures CommandLoop(syntax, st, ls, s, iterations).Ok? ==> Valid(CommandLoop(syntax, st, ls, s, iterations).value)
    decreases MaxIterations - iterations, 1
  {
    if s.command.Some? && iterations < MaxIterations {
      NextCommandValid(syntax, st, ls, s, iterations);
    }
  }

  lemma {:induction false} NextCommandValid(syntax: Syntax, st: ParserState, ls: LineState, s: Split, iterations: nat)
    requires Ready(syntax) && Valid(st) && s.command.Some? && iterations < MaxIterations
    ensures NextCommand(syntax, st, ls, s, iterations).Ok? ==> Valid(NextCommand(syntax, st, ls, s, iterations).value)
    decreases MaxIterations - iterations, 0
  {
    HandleValid(syntax, st, ls, s);
    match Handle(syntax, st, ls, s)
    case Err(_) =>
    case Ok(t) =>
      match Resplit(syntax, t.toParse)
      case Err(_) =>
      case Ok(s') => CommandLoopValid(syntax, t.state, t.line, s', iterations + 1);
  }

  /** Parsing script lines keeps the state valid. */
  lemma {:induction false} ScriptParsedValid(syntax: Syntax, st: ParserState, lines: seq<string>)
    requires Ready(syntax) && Valid(st)
    ensures ScriptParsed(syntax, st, lines).Ok? ==> Valid(ScriptParsed(syntax, st, lines).value)
    decreases |lines|
  {
    if lines != [] {
      if Trim(lines[0]) == [] {
        ScriptParsedValid(syntax, st, lines[1..]);
      } else {
        match Indentations.IndentationOf(lines[0], Indentations.Indentations)
        case Err(_) =>
        case Ok(indented) =>
          match Resplit(syntax, Trim(indented.rest))
          case Err(_) =>
          case Ok(s) =>
            CommandLoopValid(syntax, st, LineState(indented.level, NoLine, -1), s, 0);
            match LineParsed(syntax, st, lines[0])
            case Err(_) =>
            case Ok(st') => ScriptParsedValid(syntax, st', lines[1..]);
      }
    }
  }

  // ---------------------------------------------------------------------
  // The second pass: what the parsed nodes become
  // ---------------------------------------------------------------------

  /** The goto a node without options ends with: to the node after its
      parent in the parent's layer, when the node has a parent and the
      parent is not the last of its layer. */
  function FallThrough(layers: seq<seq<ParsedNode>>, parent: Maybe<Place>): seq<Draft>
    requires parent.Some? ==> parent.value.layer < |layers|
  {
    if parent.Some? && parent.value.index + 1 < |layers[parent.value.layer]|
    then [Draft(GotoKind(layers[parent.value.layer][parent.value.index + 1].key), [], [])]
    else []
  }

  /** The lines a parsed node becomes in the sequence: its own lines, then
      its optional line if it has one, else its fall-through goto. */
  function NodeDrafts(layers: seq<seq<ParsedNode>>, n: ParsedNode): seq<Draft>
    requires n.parent.Some? ==> n.parent.value.layer < |layers|
  {
    n.lines + (if n.option.Some? then [n.option.value] else FallThrough(layers, n.parent))
  }

  /** The ids of lines, in registration order. */
  function IdsOf(drafts: seq<Draft>): seq<string> {
    if drafts == [] then [] else IdsOf(drafts[..|drafts| - 1]) + drafts[|drafts| - 1].ids
  }

  /** The ids a parsed node registers: those of its lines, then those of its
      optional line. */
  function NodeIds(n: ParsedNode): seq<string> {
    IdsOf(n.lines) + (if n.option.Some? then n.option.value.ids else [])
  }

  /** The ids the nodes register, in order. */
  function LayerIds(nodes: seq<ParsedNode>): seq<string> {
    if nodes == [] then [] else LayerIds(nodes[..|nodes| - 1]) + NodeIds(nodes[|nodes| - 1])
  }

  /** The ids the whole parse registers, layer by layer. */
  function AllIds(layers: seq<seq<ParsedNode>>): seq<string> {
    if layers == [] then [] else AllIds(layers[..|layers| - 1]) + LayerIds(layers[|layers| - 1])
  }

  /** The place `q` comes before node `i` of layer `l` in build order. */
  predicate Before(q: Place, l: nat, i: nat) {
    q.layer < l || (q.layer == l && q.index < i)
  }

  /** The ids registered by the nodes built before node `i` of layer `l`. */
  function IdsBefore(layers: seq<seq<ParsedNode>>, l: nat, i: nat): seq<string>
    requires l < |layers| ==> i <= |layers[l]|
    requires l <= |layers|
  {
    AllIds(layers[..l]) + (if l < |layers| then LayerIds(layers[l][..i]) else [])
  }

  function IdSet(ids: seq<string>): set<string> {
    set id | id in ids
  }

  /** `ids` can be registered one after the other in a table holding
      `keys`: none is there already or was registered before it. */
  predicate Fits(keys: set<string>, ids: seq<string>)
    decreases |ids|
  {
    ids == [] || (ids[0] !in keys && Fits(keys + {ids[0]}, ids[1..]))
  }

  /** Ids fit a table exactly when no id repeats and none is in it. */
  lemma {:induction false} FitsMeans(keys: set<string>, ids: seq<string>)
    ensures Fits(keys, ids) <==> NoDuplicates(ids) && forall i :: 0 <= i < |ids| ==> ids[i] !in keys
    decreases |ids|
  {
    if ids != [] {
      var rest := ids[1..];
      FitsMeans(keys + {ids[0]}, rest);
      assert forall i :: 0 <= i < |rest| ==> rest[i] == ids[i + 1];
    }
  }

  lemma {:induction false} IdsOfAppend(a: seq<Draft>, b: seq<Draft>)
    ensures IdsOf(a + b) == IdsOf(a) + IdsOf(b)
    decreases |b|
  {
    if b != [] {
      var last := b[|b| - 1];
      assert (a + b)[..|a + b| - 1] == a + b[..|b| - 1];
      IdsOfAppend(a, b[..|b| - 1]);
    } else {
      assert a + b == a;
    }
  }

  /** Registering the ids of one more draft: the ids so far grow by the
      draft's, they fit when both parts fit, and whatever fits for all the
      drafts fits so far. */
  lemma IdsOfStep(keys: set<string>, drafts: seq<Draft>, j: nat)
    requires j < |drafts|
    ensures drafts[..j + 1] == drafts[..j] + [drafts[j]]
    ensures IdsOf(drafts[..j + 1]) == IdsOf(drafts[..j]) + drafts[j].ids
    ensures Fits(keys, IdsOf(drafts[..j + 1]))
            <==> Fits(keys, IdsOf(drafts[..j])) && Fits(keys + IdSet(IdsOf(drafts[..j])), drafts[j].ids)
    ensures IdSet(IdsOf(drafts[..j + 1])) == IdSet(IdsOf(drafts[..j])) + IdSet(drafts[j].ids)
    ensures Fits(keys, IdsOf(drafts)) ==> Fits(keys, IdsOf(drafts[..j + 1]))
  {
    assert drafts[..j + 1] == drafts[..j] + [drafts[j]];
    assert drafts[..j + 1][..j] == drafts[..j];
    FitsAppend(keys, IdsOf(drafts[..j]), drafts[j].ids);
    IdSetAppend(IdsOf(drafts[..j]), drafts[j].ids);
    assert drafts == drafts[..j + 1] + drafts[j + 1..];
    IdsOfAppend(drafts[..j + 1], drafts[j + 1..]);
    FitsPrefix(keys, IdsOf(drafts[..j + 1]), IdsOf(drafts));
  }

  /** A node registers the ids of the lines it becomes: the fall-through
      goto has none. */
  lemma NodeDraftsIds(layers: seq<seq<ParsedNode>>, n: ParsedNode)
    requires n.parent.Some? ==> n.parent.value.layer < |layers|
    ensures IdsOf(NodeDrafts(layers, n)) == NodeIds(n)
  {
    var tail := if n.option.Some? then [n.option.value] else FallThrough(layers, n.parent);
    IdsOfAppend(n.lines, tail);
    if tail != [] {
      assert tail[..|tail| - 1] == [];
      assert IdsOf(tail) == tail[0].ids;
    }
  }

  /** Ids fit an empty table when none repeats. */
  lemma FitsNothing(ids: seq<string>)
    ensures Fits({}, ids) <==> NoDuplicates(ids)
  {
    FitsMeans({}, ids);
  }

  /** Registering `a + b` is registering `a`, then `b` in the grown table. */
  lemma {:induction false} FitsAppend(keys: set<string>, a: seq<string>, b: seq<string>)
    ensures Fits(keys, a + b) <==> Fits(keys, a) && Fits(keys + IdSet(a), b)
    decreases |a|
  {
    if a == [] {
      assert a + b == b;
      assert IdSet(a) == {};
      assert keys + IdSet(a) == keys;
    } else {
      assert (a + b)[0] == a[0];
      assert (a + b)[1..] == a[1..] + b;
      FitsAppend(keys + {a[0]}, a[1..], b);
      assert a == [a[0]] + a[1..];
      IdSetAppend([a[0]], a[1..]);
      assert IdSet([a[0]]) == {a[0]};
      assert keys + {a[0]} + IdSet(a[1..]) == keys + IdSet(a);
    }
  }

  /** What fits, fits in every prefix. */
  lemma FitsPrefix(keys: set<string>, a: seq<string>, b: seq<string>)
    requires a <= b
    ensures Fits(keys, b) ==> Fits(keys, a)
  {
    assert b == a + b[|a|..];
    FitsAppend(keys, a, b[|a|..]);
  }

  lemma {:induction false} LayerIdsPrefix(nodes: seq<ParsedNode>, i: nat)
    requires i <= |nodes|
    ensures LayerIds(nodes[..i]) <= LayerIds(nodes)
    decreases |nodes| - i
  {
    if i < |nodes| {
      LayerIdsPrefix(nodes, i + 1);
      assert nodes[..i + 1][..i] == nodes[..i];
    } else {
      assert nodes[..i] == nodes;
    }
  }

  lemma {:induction false} AllIdsPrefix(layers: seq<seq<ParsedNode>>, l: nat)
    requires l <= |layers|
    ensures AllIds(layers[..l]) <= AllIds(layers)
    decreases |layers| - l
  {
    if l < |layers| {
      AllIdsPrefix(layers, l + 1);
      assert layers[..l + 1][..l] == layers[..l];
    } else {
      assert layers[..l] == layers;
    }
  }

  /** The node after the ones built so far adds its own ids. */
  lemma IdsBeforeStep(layers: seq<seq<ParsedNode>>, l: nat, i: nat)
    requires l < |layers| && i < |layers[l]|
    ensures IdsBefore(layers, l, i + 1) == IdsBefore(layers, l, i) + NodeIds(layers[l][i])
  {
    assert layers[l][..i + 1][..i] == layers[l][..i];
    var a := AllIds(layers[..l]);
    assert a + (LayerIds(layers[l][..i]) + NodeIds(layers[l][i]))
        == a + LayerIds(layers[l][..i]) + NodeIds(layers[l][i]);
  }

  /** Registering the ids of node `i` of layer `l` after those before it:
      the ids grow by the node's, and they fit an empty table when both
      parts fit. */
  lemma IdsBeforeFits(layers: seq<seq<ParsedNode>>, l: nat, i: nat)
    requires l < |layers| && i < |layers[l]|
    ensures Fits({}, IdsBefore(layers, l, i + 1))
            <==> Fits({}, IdsBefore(layers, l, i)) && Fits(IdSet(IdsBefore(layers, l, i)), NodeIds(layers[l][i]))
    ensures IdSet(IdsBefore(layers, l, i + 1)) == IdSet(IdsBefore(layers, l, i)) + IdSet(NodeIds(layers[l][i]))
  {
    IdsBeforeStep(layers, l, i);
    FitsAppend({}, IdsBefore(layers, l, i), NodeIds(layers[l][i]));
    assert {} + IdSet(IdsBefore(layers, l, i)) == IdSet(IdsBefore(layers, l, i));
    IdSetAppend(IdsBefore(layers, l, i), NodeIds(layers[l][i]));
  }

  lemma IdsBeforeNextLayer(layers: seq<seq<ParsedNode>>, l: nat)
    requires l < |layers|
    ensures IdsBefore(layers, l, |layers[l]|) == IdsBefore(layers, l + 1, 0)
  {
    assert layers[l][..|layers[l]|] == layers[l];
    assert layers[..l + 1][..l] == layers[..l];
    if l + 1 < |layers| {
      assert layers[l + 1][..0] == [];
    }
  }

  /** Node `i` of layer `l` is a node, or one past the end of its layer,
      or the end of the parse. */
  predicate Within(layers: seq<seq<ParsedNode>>, l: nat, i: nat) {
    (l < |layers| && i <= |layers[l]|) || (l == |layers| && i == 0)
  }

  /** The id table once every node before node `i` of layer `l` has been
      built, one node after the other, or `None` once some id clashed. */
  function IdTable(layers: seq<seq<ParsedNode>>, l: nat, i: nat): Maybe<set<string>>
    requires Within(layers, l, i)
    decreases l, i
  {
    if i > 0 then
      match IdTable(layers, l, i - 1)
      case None => None
      case Some(table) =>
        if Fits(table, NodeIds(layers[l][i - 1])) then Some(table + IdSet(NodeIds(layers[l][i - 1]))) else None
    else if l > 0 then IdTable(layers, l - 1, |layers[l - 1]|)
    else Some({})
  }

  /** A prefix of `c` after `a` is a prefix of whatever `a + c` is. */
  lemma PrefixThrough(a: seq<string>, b: seq<string>, c: seq<string>, d: seq<string>)
    requires b <= c && a + c <= d
    ensures a + b <= d
  {
    assert |a + b| <= |d|;
    forall k | 0 <= k < |a + b|
      ensures (a + b)[k] == d[k]
    {
      if k < |a| {
        assert (a + b)[k] == (a + c)[k];
      } else {
        assert (a + b)[k] == b[k - |a|] == c[k - |a|] == (a + c)[k];
      }
    }
    assert a + b == d[..|a + b|];
  }

  /** The ids registered before a node are a prefix of all the ids. */
  lemma IdsBeforePrefix(layers: seq<seq<ParsedNode>>, l: nat, i: nat)
    requires Within(layers, l, i)
    ensures IdsBefore(layers, l, i) <= AllIds(layers)
  {
    if l < |layers| {
      var a := AllIds(layers[..l]);
      var b := LayerIds(layers[l][..i]);
      var c := LayerIds(layers[l]);
      LayerIdsPrefix(layers[l], i);
      AllIdsPrefix(layers, l + 1);
      assert layers[..l + 1][..l] == layers[..l];
      assert AllIds(layers[..l + 1]) == a + c;
      PrefixThrough(a, b, c, AllIds(layers));
    } else {
      assert layers[..l] == layers;
    }
  }

  /** Building node after node keeps an id table exactly while the ids so
      far repeat nowhere, and then the table holds those ids. */
  lemma {:induction false} IdTableMeans(layers: seq<seq<ParsedNode>>, l: nat, i: nat)
    requires Within(layers, l, i)
    ensures IdTable(layers, l, i)
            == if Fits({}, IdsBefore(layers, l, i)) then Some(IdSet(IdsBefore(layers, l, i))) else None
    decreases l, i
  {
    if i > 0 {
      IdTableMeans(layers, l, i - 1);
      IdsBeforeFits(layers, l, i - 1);
    } else if l > 0 {
      IdTableMeans(layers, l - 1, |layers[l - 1]|);
      IdsBeforeNextLayer(layers, l - 1);
    } else {
      assert layers[..0] == [];
      if layers != [] {
        assert layers[0][..0] == [];
      }
      assert IdsBefore(layers, 0, 0) == [];
      assert IdSet([]) == {};
    }
  }

  /** One more node: the table grows by its ids when they fit, and is
      gone otherwise. */
  lemma IdTableNext(layers: seq<seq<ParsedNode>>, l: nat, i: nat, table: set<string>)
    requires l < |layers| && i < |layers[l]| && IdTable(layers, l, i) == Some(table)
    ensures IdTable(layers, l, i + 1)
            == if Fits(table, NodeIds(layers[l][i])) then Some(table + IdSet(NodeIds(layers[l][i]))) else None
  {
  }

  /** Once an id has clashed, the whole parse has a repeated id. */
  lemma IdTableClash(layers: seq<seq<ParsedNode>>, l: nat, i: nat)
    requires Within(layers, l, i)
    requires IdTable(layers, l, i).None?
    ensures !NoDuplicates(AllIds(layers))
  {
    IdTableMeans(layers, l, i);
    IdsBeforePrefix(layers, l, i);
    FitsPrefix({}, IdsBefore(layers, l, i), AllIds(layers));
    FitsNothing(AllIds(layers));
  }

  /** After the last layer the table holds every id, when none repeats. */
  lemma IdTableEnd(layers: seq<seq<ParsedNode>>)
    ensures IdTable(layers, |layers|, 0)
            == if NoDuplicates(AllIds(layers)) then Some(IdSet(AllIds(layers))) else None
  {
    IdTableMeans(layers, |layers|, 0);
    assert layers[..|layers|] == layers;
    assert IdsBefore(layers, |layers|, 0) == AllIds(layers);
    FitsNothing(AllIds(layers));
  }

  /** A line object made from a draft: same variant and ids, enabled, and
      the draft's options in order (only an optional line has options). */
  predicate OptionMatches(o: Option, d: OptionDraft)
    reads o
  {
    o.node == d.node && o.text == d.text && o.id == d.id && o.enabled
  }

  predicate Materialised(line: Line, d: Draft)
    reads line, set o | o in line.options
  {
    var options := if d.kind.OptionalKind? then d.options else [];
    line.kind == d.kind && line.enabled && line.ids == d.ids && |line.options| == |options|
    && forall j :: 0 <= j < |options| ==> OptionMatches(line.options[j], options[j])
  }

  /** The lines of a node were made from the drafts, one for one. */
  predicate Built(lines: seq<Line>, drafts: seq<Draft>)
    reads set l | l in lines, set l, o | l in lines && o in l.options :: o
  {
    |lines| == |drafts| && forall i :: 0 <= i < |lines| ==> Materialised(lines[i], drafts[i])
  }

  /** One more draft built: the lines so far and the new line are built
      from one more draft. */
  lemma BuiltNext(lines: seq<Line>, drafts: seq<Draft>, j: nat, line: Line, lines': seq<Line>)
    requires j < |drafts| && Built(lines, drafts[..j]) && Materialised(line, drafts[j]) && lines' == lines + [line]
    ensures Built(lines', drafts[..j + 1])
  {
    assert drafts[..j + 1] == drafts[..j] + [drafts[j]];
    BuiltAppend(lines, drafts[..j], line, drafts[j]);
  }

  /** Appending a line made from a draft keeps the lines built. */
  lemma BuiltAppend(lines: seq<Line>, drafts: seq<Draft>, line: Line, d: Draft)
    requires Built(lines, drafts) && Materialised(line, d)
    ensures Built(lines + [line], drafts + [d])
  {
    var lines' := lines + [line];
    var drafts' := drafts + [d];
    forall i | 0 <= i < |lines'|
      ensures Materialised(lines'[i], drafts'[i])
    {
      if i < |lines| {
        assert lines'[i] == lines[i] && drafts'[i] == drafts[i];
      }
    }
  }

  lemma IdSetAppend(a: seq<string>, b: seq<string>)
    ensures IdSet(a + b) == IdSet(a) + IdSet(b)
  {
    assert forall id :: id in a + b <==> id in a || id in b;
  }

  /** The keys of the parsed nodes that come before node `i` of layer `l`
      in build order. */
  ghost function KeysBefore(st: ParserState, l: nat, i: nat): set<string> {
    set k | k in st.nodes && Before(st.nodes[k], l, i)
  }

  /** Every node object in `built` was built from the parsed node of its
      key. */
  ghost predicate AllBuilt(st: ParserState, built: map<string, Node>)
    requires Valid(st)
    reads built.Values
    reads set k, x | k in built && x in built[k].lines :: x
    reads set k, x, o | k in built && x in built[k].lines && o in x.options :: o
  {
    forall k :: k in built ==>
      k in st.nodes && Built(built[k].lines, NodeDrafts(st.layers, NodeAt(st.layers, st.nodes[k])))
  }

  /** Nothing comes before the first node. */
  lemma KeysBeforeStart(st: ParserState)
    ensures KeysBefore(st, 0, 0) == {}
  {
  }

  /** The node to build next is not built yet, and building it adds its
      key. */
  lemma KeysBeforeStep(st: ParserState, l: nat, i: nat)
    requires Valid(st) && At(st.layers, Place(l, i))
    ensures st.layers[l][i].key !in KeysBefore(st, l, i)
    ensures KeysBefore(st, l, i + 1) == KeysBefore(st, l, i) + {st.layers[l][i].key}
  {
    var key := NodeAt(st.layers, Place(l, i)).key;
    assert st.nodes[key] == Place(l, i);
    forall k | k in st.nodes && Before(st.nodes[k], l, i + 1) && !Before(st.nodes[k], l, i)
      ensures k == key
    {
      assert st.nodes[k] == Place(l, i);
    }
  }

  /** Having built every node of layer `l` is starting layer `l + 1`. */
  lemma KeysBeforeNextLayer(st: ParserState, l: nat)
    requires Valid(st) && l < |st.layers|
    ensures KeysBefore(st, l, |st.layers[l]|) == KeysBefore(st, l + 1, 0)
  {
    forall k | k in st.nodes
      ensures Before(st.nodes[k], l, |st.layers[l]|) <==> Before(st.nodes[k], l + 1, 0)
    {
      assert At(st.layers, st.nodes[k]);
    }
  }

  /** After the last layer every parsed node comes before. */
  lemma KeysBeforeEnd(st: ParserState)
    requires Valid(st)
    ensures KeysBefore(st, |st.layers|, 0) == st.nodes.Keys
  {
    forall k | k in st.nodes
      ensures Before(st.nodes[k], |st.layers|, 0)
    {
      assert At(st.layers, st.nodes[k]);
    }
  }

  /** Adding a node object built from its parsed node keeps every node
      built. */
  lemma AllBuiltStep(st: ParserState, built: map<string, Node>, key: string, n: Node)
    requires Valid(st) && AllBuilt(st, built) && key in st.nodes
    requires Built(n.lines, NodeDrafts(st.layers, NodeAt(st.layers, st.nodes[key])))
    ensures AllBuilt(st, built[key := n])
  {
    var built' := built[key := n];
    forall k | k in built'
      ensures k in st.nodes && Built(built'[k].lines, NodeDrafts(st.layers, NodeAt(st.layers, st.nodes[k])))
    {
      if k != key {
        assert built'[k] == built[k];
      }
    }
  }

  /** Make the line object of a draft. */
  method Materialise(d: Draft) returns (line: Line)
    ensures fresh(line) && line.Valid() && Materialised(line, d)
    ensures forall j :: 0 <= j < |line.options| ==> fresh(line.options[j])
  {
    line := new Line(d.kind);
    for k := 0 to |d.ids|
      invariant line.kind == d.kind && line.enabled && line.ids == d.ids[..k] && line.options == []
    {
      var _ := line.AddId(Some(d.ids[k]));
      assert d.ids[..k + 1] == d.ids[..k] + [d.ids[k]];
    }
    assert d.ids[..|d.ids|] == d.ids;
    if d.kind.OptionalKind? {
      for j := 0 to |d.options|
        invariant line.Valid() && line.kind == d.kind && line.enabled && line.ids == d.ids
        invariant |line.options| == j
        invariant forall m :: 0 <= m < j ==> fresh(line.options[m]) && OptionMatches(line.options[m], d.options[m])
      {
        var key := line.AddOption(d.options[j].node, d.options[j].text);
        line.options[key].id := d.options[j].id;
      }
    }
  }

  /** Make the line of a draft and add it to node `key` of the sequence. */
  method AddDraft(sequence: DialogueSequence, key: string, d: Draft) returns (r: Result<()>, line: Line)
    requires sequence.Valid() && key in sequence.nodes
    modifies sequence, sequence.nodes[key]
    ensures sequence.Valid() && sequence.nodes == old(sequence.nodes)
    ensures fresh(line) && Materialised(line, d)
    ensures r.Ok? <==> Fits(old(sequence.idLines).Keys, d.ids)
    ensures r.Err? ==> r.error == Argument(DuplicateKey)
    ensures r.Ok? ==> sequence.nodes[key].lines == old(sequence.nodes[key].lines) + [line]
                      && sequence.idLines.Keys == old(sequence.idLines).Keys + IdSet(d.ids)
    ensures sequence.functionMap == old(sequence.functionMap) && sequence.invocations == old(sequence.invocations)
    ensures sequence.currentNode == old(sequence.currentNode) && sequence.lineIndex == old(sequence.lineIndex)
  {
    line := Materialise(d);
    FitsMeans(sequence.idLines.Keys, d.ids);
    RegisterIdsClash(sequence.idLines, line.ids, line);
    RegisterIdsTable(sequence.idLines, line.ids, line);
    r := sequence.AddLine(key, line);
  }

  /** Add the lines of `drafts`, in order, to node `key` of the sequence,
      which has none yet; the first line whose ids clash stops it. */
  method AddDrafts(sequence: DialogueSequence, key: string, drafts: seq<Draft>) returns (r: Result<()>)
    requires sequence.Valid() && key in sequence.nodes && sequence.nodes[key].lines == []
    modifies sequence, sequence.nodes[key]
    ensures sequence.Valid() && sequence.nodes == old(sequence.nodes)
    ensures r.Ok? <==> Fits(old(sequence.idLines).Keys, IdsOf(drafts))
    ensures r.Err? ==> r.error == Argument(DuplicateKey)
    ensures r.Ok? ==> Built(sequence.nodes[key].lines, drafts)
                      && sequence.idLines.Keys == old(sequence.idLines).Keys + IdSet(IdsOf(drafts))
    ensures sequence.functionMap == old(sequence.functionMap) && sequence.invocations == old(sequence.invocations)
    ensures sequence.currentNode == old(sequence.currentNode) && sequence.lineIndex == old(sequence.lineIndex)
  {
    ghost var keys := sequence.idLines.Keys;
    var j := 0;
    while j < |drafts|
      invariant 0 <= j <= |drafts|
      invariant sequence.Valid() && sequence.nodes == old(sequence.nodes)
      invariant Built(sequence.nodes[key].lines, drafts[..j])
      invariant Fits(keys, IdsOf(drafts[..j]))
      invariant sequence.idLines.Keys == keys + IdSet(IdsOf(drafts[..j]))
      invariant sequence.functionMap == old(sequence.functionMap) && sequence.invocations == old(sequence.invocations)
      invariant sequence.currentNode == old(sequence.currentNode) && sequence.lineIndex == old(sequence.lineIndex)
    {
      IdsOfStep(keys, drafts, j);
      var done := AddDraftTurn(sequence, key, drafts, j, keys);
      if done.Err? {
        return done;
      }
      j := j + 1;
    }
    assert drafts[..j] == drafts;
    return Ok(());
  }

  /** One turn of `AddDrafts`: the line of draft `j`, after the lines of
      the drafts before it.  The source has the loop body inline; it is a
      method of its own here so that the loop's invariant stays small. */
  method AddDraftTurn(sequence: DialogueSequence, key: string, drafts: seq<Draft>, j: nat, ghost keys: set<string>)
    returns (r: Result<()>)
    requires j < |drafts| && sequence.Valid() && key in sequence.nodes
    requires Built(sequence.nodes[key].lines, drafts[..j]) && Fits(keys, IdsOf(drafts[..j]))
    requires sequence.idLines.Keys == keys + IdSet(IdsOf(drafts[..j]))
    modifies sequence, sequence.nodes[key]
    ensures sequence.Valid() && sequence.nodes == old(sequence.nodes)
    ensures r.Ok? <==> Fits(keys, IdsOf(drafts[..j + 1]))
    ensures r.Err? ==> r.error == Argument(DuplicateKey)
    ensures r.Ok? ==> Built(sequence.nodes[key].lines, drafts[..j + 1])
                      && sequence.idLines.Keys == keys + IdSet(IdsOf(drafts[..j + 1]))
    ensures sequence.functionMap == old(sequence.functionMap) && sequence.invocations == old(sequence.invocations)
    ensures sequence.currentNode == old(sequence.currentNode) && sequence.lineIndex == old(sequence.lineIndex)
  {
    IdsOfStep(keys, drafts, j);
    ghost var lines := sequence.nodes[key].lines;
    var done, line := AddDraft(sequence, key, drafts[j]);
    if done.Err? {
      return Err(done.error);
    }
    assert Built(lines, drafts[..j]);
    BuiltNext(lines, drafts, j, line, sequence.nodes[key].lines);
    return Ok(());
  }

  // ---------------------------------------------------------------------
  // The parser object
  // ---------------------------------------------------------------------

  /** A parser: the command table and escape it was built with, and the
      state of its first pass, which no call resets. */
  class DialogueParser {
    const syntax: Syntax
    var anonId: nat
    var layers: seq<seq<ParsedNode>>
    var nodes: map<string, Place>
    var breaks: set<nat>

    function State(): ParserState
      reads this
    {
      ParserState(anonId, layers, nodes, breaks)
    }

    /** A parser with no layers, no nodes, no breaks and anonymous numbering
        from 0.  Its escape is the table's escape command, as the source's
        `GetCommand(CommandType.Escape)` looks it up in the same table. */
    constructor (commands: seq<Command>, escape: Command)
      requires Lookup(commands, CommandType.Escape) == Some(escape)
      requires |escape.literal| > 0
      ensures syntax == Syntax(commands, escape) && Ready(syntax)
      ensures State() == Initial
    {
      syntax := Syntax(commands, escape);
      anonId := 0;
      layers := [];
      nodes := map[];
      breaks := {};
    }

    /** The next anonymous node key. */
    method GetAnonNode() returns (name: string)
      modifies this
      ensures name == AnonName(old(anonId))
      ensures State() == old(State()).(anonId := old(anonId) + 1)
    {
      name := AnonName(anonId);
      anonId := anonId + 1;
    }

    /** Open the layer at `depth` if it is the next one. */
    method TryCreateLayer(depth: nat) returns (r: Result<()>)
      modifies this
      ensures var s := LayerReady(old(State()), depth);
              (r.Ok? <==> s.Ok?) && (r.Err? ==> r.error == s.error && State() == old(State()))
              && (r.Ok? ==> State() == s.value)
    {
      if depth > |layers| {
        return Err(DialogueParse(GapInLayers));
      }
      if depth == |layers| {
        layers := layers + [[]];
      }
      return Ok(());
    }

    /** Create a node without lines last in layer `depth` and register its
        key. */
    method CreateParsedNode(key: string, parent: Maybe<Place>, depth: nat) returns (r: Result<Place>)
      modifies this
      ensures var s := NodeCreated(old(State()), key, parent, depth);
              (r.Ok? <==> s.Ok?) && (r.Err? ==> r.error == s.error)
              && (r.Ok? ==> r.value == s.value.place && State() == s.value.state)
    {
      var ready := TryCreateLayer(depth);
      if ready.Err? {
        return Err(ready.error);
      }
      var index := |layers[depth]|;
      layers := layers[depth := layers[depth] + [ParsedNode(key, parent, [], None)]];
      if key in nodes {
        return Err(Argument(DuplicateKey));
      }
      nodes := nodes[key := Place(depth, index)];
      return Ok(Place(depth, index));
    }

    /** Add a line at `depth`, opening a new node when a break is pending
        there; says where the line went. */
    method AddToNode(d: Draft, depth: nat) returns (r: Result<Created>)
      modifies this
      ensures var s := LineAdded(old(State()), d, depth);
              (r.Ok? <==> s.Ok?) && (r.Err? ==> r.error == s.error)
              && (r.Ok? ==> r.value == s.value.created && State() == s.value.state)
    {
      if depth in breaks {
        var previous := TopNode(layers, depth);
        if previous.Err? {
          return Err(previous.error);
        }
        var anon := GetAnonNode();
        var created := CreateParsedNode(anon, previous.value.parent, depth);
        if created.Err? {
          return Err(created.error);
        }
        var n := NodeAt(layers, created.value);
        layers := WithNode(layers, created.value, n.(lines := n.lines + [d]));
        breaks := breaks - {depth};
        return Ok(LineAt(created.value, |n.lines|));
      }
      if depth >= |layers| || layers[depth] == [] {
        return Err(DialogueParse(LineNotConnected));
      }
      var p := Place(depth, |layers[depth]| - 1);
      var n := NodeAt(layers, p);
      layers := WithNode(layers, p, n.(lines := n.lines + [d]));
      return Ok(LineAt(p, |n.lines|));
    }

    /** Add a line command's line at the current depth. */
    method AddLineCommand(ls: LineState, d: Draft, next: string) returns (r: Result<(LineState, string)>)
      modifies this
      ensures var t := LineTurn(old(State()), ls, d, next);
              (r.Ok? <==> t.Ok?) && (r.Err? ==> r.error == t.error)
              && (r.Ok? ==> r.value == (t.value.line, t.value.toParse) && State() == t.value.state)
    {
      var added := AddToNode(d, ls.depth);
      if added.Err? {
        return Err(added.error);
      }
      return Ok((ls.(created := added.value), next));
    }

    /** One turn of the command loop: act on the command `s` was split on
        and say what is left to parse. */
    method HandleCommand(ls: LineState, s: Split) returns (r: Result<(LineState, string)>)
      requires Ready(syntax) && s.command.Some?
      modifies this
      ensures var h := Handle(syntax, old(State()), ls, s);
              (r.Ok? <==> h.Ok?) && (r.Err? ==> r.error == h.error)
              && (r.Ok? ==> r.value == (h.value.line, h.value.toParse) && State() == h.value.state)
    {
      match s.command.value.kind
      case NodeStart =>
        breaks := breaks - {ls.depth};
        if AnyLiteralIn(s.after, syntax.commands) {
          return Err(DialogueParse(NodeIdContainsCommand));
        }
        var created := CreateParsedNode(s.after, None, ls.depth);
        if created.Err? {
          return Err(created.error);
        }
        return Ok((ls, []));
      case Option =>
        breaks := breaks + {ls.depth};
        var top := TopNode(layers, ls.depth);
        if top.Err? {
          return Err(top.error);
        }
        var p := Place(ls.depth, |layers[ls.depth]| - 1);
        var anon := GetAnonNode();
        var sub := CreateParsedNode(anon, Some(p), ls.depth + 1);
        if sub.Err? {
          return Err(sub.error);
        }
        var n := NodeAt(layers, p);
        layers := WithNode(layers, p, OptionAdded(n, anon, s.after));
        return Ok((LineState(ls.depth + 1, OptionalAt(p), OptionCount(n)), s.next));
      case IdStart =>
        if ls.created.NoLine? {
          return Err(DialogueParse(IdsMustFollowLine));
        }
        var closing := SplitCommand(Some(s.next), syntax.escape, syntax.commands);
        if closing.Err? {
          return Err(closing.error);
        }
        var nextCommand := closing.value.command;
        if nextCommand.None? || nextCommand.value.kind != IdEnd {
          return Err(DialogueParse(UnclosedId));
        }
        if |nextCommand.value.literal| > |s.next| {
          return Err(ArgumentOutOfRange);
        }
        var withId := IdAdded(layers, ls, s.after);
        if withId.Err? {
          return Err(withId.error);
        }
        layers := withId.value;
        return Ok((ls, s.next[|nextCommand.value.literal|..]));
      case IdEnd =>
        return Err(DialogueParse(UnopenedId));
      case Comment =>
        return Ok((ls, []));
      case Dialogue =>
        r := AddLineCommand(ls, Draft(DialogueKind(s.before, s.after), [], []), s.next);
      case Goto =>
        r := AddLineCommand(ls, Draft(GotoKind(s.after), [], []), s.next);
      case Exec =>
        var call := FunctionCalls.GetFunctionAndParameters(s.after);
        if call.Err? {
          return Err(call.error);
        }
        r := AddLineCommand(ls, Draft(ExecKind(call.value.name, call.value.parameters), [], []), s.next);
      case _ =>
        return Ok((ls, []));
    }

    /** One turn of the command loop of `ParseNodes`: act on the command
        `s` was split on, then split what is left of the line. */
    method CommandTurn(ls: LineState, s: Split, ghost iterations: nat, ghost goal: Result<ParserState>)
      returns (r: Result<(LineState, Split)>)
      requires Ready(syntax) && s.command.Some? && iterations < MaxIterations
      requires LoopEndsIn(syntax, State(), ls, s, iterations, goal)
      modifies this
      ensures r.Err? ==> goal == Err(r.error)
      ensures r.Ok? ==> LoopEndsIn(syntax, State(), r.value.0, r.value.1, iterations + 1, goal)
    {
      assert goal == NextCommand(syntax, State(), ls, s, iterations);
      var turn := HandleCommand(ls, s);
      if turn.Err? {
        return Err(turn.error);
      }
      var split := SplitCommand(Some(turn.value.1), syntax.escape, syntax.commands);
      if split.Err? {
        return Err(split.error);
      }
      return Ok((turn.value.0, Trimmed(split.value)));
    }

    /** Parse one script line: its depth, then up to `MaxIterations` of its
        commands. */
    method ParseNodes(line: string) returns (r: Result<()>)
      requires Ready(syntax)
      modifies this
      ensures var s := LineParsed(syntax, old(State()), line);
              (r.Ok? <==> s.Ok?) && (r.Err? ==> r.error == s.error) && (r.Ok? ==> State() == s.value)
    {
      var indented := Indentations.GetIndentationLevel(line, Indentations.Indentations);
      if indented.Err? {
        return Err(indented.error);
      }
      var split := SplitCommand(Some(Trim(indented.value.rest)), syntax.escape, syntax.commands);
      if split.Err? {
        return Err(split.error);
      }
      r := RunCommands(LineState(indented.value.level, NoLine, -1), Trimmed(split.value), 0);
    }

    /** The command loop of `ParseNodes`: handle the line's commands one
        after the other, at most `MaxIterations` of them. */
    method RunCommands(ls: LineState, s: Split, iterations: nat) returns (r: Result<()>)
      requires Ready(syntax) && iterations <= MaxIterations
      modifies this
      ensures r.Ok? ==> LoopEndsIn(syntax, old(State()), ls, s, iterations, Ok(State()))
      ensures r.Err? ==> LoopEndsIn(syntax, old(State()), ls, s, iterations, Err(r.error))
    {
      ghost var goal := CommandLoop(syntax, State(), ls, s, iterations);
      var current, split, turns := ls, s, iterations;
      while split.command.Some? && turns < MaxIterations
        invariant turns <= MaxIterations
        invariant LoopEndsIn(syntax, State(), current, split, turns, goal)
        decreases MaxIterations - turns
      {
        var turn := CommandTurn(current, split, turns, goal);
        if turn.Err? {
          return Err(turn.error);
        }
        current, split, turns := turn.value.0, turn.value.1, turns + 1;
      }
      LoopDone(syntax, State(), current, split, turns);
      return Ok(());
    }

    /** Add a parsed node to the sequence: a node under its key, a line per
        parsed line, then its optional line or, failing that, the goto to
        the node after its parent. */
    method BuildSequence(node: ParsedNode, sequence: DialogueSequence) returns (r: Result<()>)
      requires sequence.Valid()
      requires node.parent.Some? ==> node.parent.value.layer < |layers|
      modifies sequence
      ensures sequence.Valid()
      ensures r.Ok? <==> node.key !in old(sequence.nodes) && Fits(old(sequence.idLines).Keys, NodeIds(node))
      ensures r.Err? ==> r.error == Argument(DuplicateKey)
      ensures forall k :: k in old(sequence.nodes) ==> k in sequence.nodes && sequence.nodes[k] == old(sequence.nodes[k])
      ensures r.Ok? ==> node.key in sequence.nodes
                        && sequence.nodes == old(sequence.nodes)[node.key := sequence.nodes[node.key]]
                        && fresh(sequence.nodes[node.key])
                        && Built(sequence.nodes[node.key].lines, NodeDrafts(layers, node))
                        && sequence.idLines.Keys == old(sequence.idLines).Keys + IdSet(NodeIds(node))
      ensures sequence.functionMap == old(sequence.functionMap) && sequence.invocations == old(sequence.invocations)
      ensures sequence.currentNode == old(sequence.currentNode) && sequence.lineIndex == old(sequence.lineIndex)
    {
      var added := sequence.AddNode(Some(node.key));
      if added.Err? {
        return Err(added.error);
      }
      NodeDraftsIds(layers, node);
      r := AddDrafts(sequence, node.key, NodeDrafts(layers, node));
    }

    /** Build node `i` of layer `l` into `sequence`, after the nodes before
        it. */
    method BuildNode(l: nat, i: nat, sequence: DialogueSequence) returns (r: Result<()>)
      requires Valid(State()) && At(layers, Place(l, i))
      requires sequence.Valid() && sequence.nodes.Keys == KeysBefore(State(), l, i) && AllBuilt(State(), sequence.nodes)
      requires IdTable(layers, l, i) == Some(sequence.idLines.Keys)
      modifies sequence
      ensures sequence.Valid()
      ensures r.Err? ==> r.error == Argument(DuplicateKey) && IdTable(layers, l, i + 1).None?
      ensures r.Ok? ==> sequence.nodes.Keys == KeysBefore(State(), l, i + 1) && AllBuilt(State(), sequence.nodes)
      ensures r.Ok? ==> IdTable(layers, l, i + 1) == Some(sequence.idLines.Keys)
      ensures sequence.functionMap == old(sequence.functionMap) && sequence.invocations == old(sequence.invocations)
      ensures sequence.currentNode == old(sequence.currentNode) && sequence.lineIndex == old(sequence.lineIndex)
    {
      ghost var st := State();
      var node := NodeAt(layers, Place(l, i));
      KeysBeforeStep(st, l, i);
      IdTableNext(layers, l, i, sequence.idLines.Keys);
      ghost var built := sequence.nodes;
      var added := BuildSequence(node, sequence);
      if added.Err? {
        return Err(added.error);
      }
      assert AllBuilt(st, built);
      assert st.nodes[node.key] == Place(l, i);
      AllBuiltStep(st, built, node.key, sequence.nodes[node.key]);
      assert State() == st;
      return Ok(());
    }

    /** Build the nodes of layer `l`, in order. */
    method BuildLayer(l: nat, sequence: DialogueSequence) returns (r: Result<()>)
      requires Valid(State()) && l < |layers|
      requires sequence.Valid() && sequence.nodes.Keys == KeysBefore(State(), l, 0) && AllBuilt(State(), sequence.nodes)
      requires IdTable(layers, l, 0) == Some(sequence.idLines.Keys)
      modifies sequence
      ensures sequence.Valid()
      ensures r.Err? ==> r.error == Argument(DuplicateKey) && !NoDuplicates(AllIds(layers))
      ensures r.Ok? ==> sequence.nodes.Keys == KeysBefore(State(), l + 1, 0) && AllBuilt(State(), sequence.nodes)
      ensures r.Ok? ==> IdTable(layers, l + 1, 0) == Some(sequence.idLines.Keys)
      ensures sequence.functionMap == old(sequence.functionMap) && sequence.invocations == old(sequence.invocations)
      ensures sequence.currentNode == old(sequence.currentNode) && sequence.lineIndex == old(sequence.lineIndex)
    {
      var i := 0;
      while i < |layers[l]|
        invariant 0 <= i <= |layers[l]|
        invariant sequence.Valid() && sequence.nodes.Keys == KeysBefore(State(), l, i) && AllBuilt(State(), sequence.nodes)
        invariant IdTable(layers, l, i) == Some(sequence.idLines.Keys)
        invariant sequence.functionMap == old(sequence.functionMap) && sequence.invocations == old(sequence.invocations)
        invariant sequence.currentNode == old(sequence.currentNode) && sequence.lineIndex == old(sequence.lineIndex)
      {
        var built := BuildNode(l, i, sequence);
        if built.Err? {
          IdTableClash(layers, l, i + 1);
          return built;
        }
        i := i + 1;
      }
      KeysBeforeNextLayer(State(), l);
      return Ok(());
    }

    /** The first pass of a parse: every line that is not blank, in order. */
    method ParseLines(lines: seq<string>) returns (r: Result<()>)
      requires Ready(syntax)
      modifies this
      ensures var p := ScriptParsed(syntax, old(State()), lines);
              (p.Err? ==> r == Err(p.error)) && (p.Ok? ==> r.Ok? && State() == p.value)
    {
      var k := 0;
      while k < |lines|
        invariant 0 <= k <= |lines|
        invariant ScriptParsed(syntax, State(), lines[k..]) == ScriptParsed(syntax, old(State()), lines)
      {
        assert lines[k..][1..] == lines[k + 1..];
        if Trim(lines[k]) != [] {
          var parsed := ParseNodes(lines[k]);
          if parsed.Err? {
            return Err(parsed.error);
          }
        }
        k := k + 1;
      }
      return Ok(());
    }

    /** Build every layer, in order, into the empty `sequence`. */
    method BuildLayers(sequence: DialogueSequence) returns (r: Result<()>)
      requires Valid(State()) && sequence.Valid()
      requires sequence.nodes == map[] && sequence.idLines == map[]
      modifies sequence
      ensures sequence.Valid()
      ensures r.Err? ==> r.error == Argument(DuplicateKey) && !NoDuplicates(AllIds(layers))
      ensures r.Ok? ==> sequence.nodes.Keys == KeysBefore(State(), |layers|, 0) && AllBuilt(State(), sequence.nodes)
      ensures r.Ok? ==> IdTable(layers, |layers|, 0) == Some(sequence.idLines.Keys)
      ensures sequence.functionMap == old(sequence.functionMap) && sequence.invocations == old(sequence.invocations)
      ensures sequence.currentNode == old(sequence.currentNode) && sequence.lineIndex == old(sequence.lineIndex)
    {
      KeysBeforeStart(State());
      var l := 0;
      while l < |layers|
        invariant 0 <= l <= |layers|
        invariant sequence.Valid()
        invariant sequence.nodes.Keys == KeysBefore(State(), l, 0) && AllBuilt(State(), sequence.nodes)
        invariant IdTable(layers, l, 0) == Some(sequence.idLines.Keys)
        invariant sequence.functionMap == old(sequence.functionMap) && sequence.invocations == old(sequence.invocations)
        invariant sequence.currentNode == old(sequence.currentNode) && sequence.lineIndex == old(sequence.lineIndex)
      {
        var built := BuildLayer(l, sequence);
        if built.Err? {
          return built;
        }
        l := l + 1;
      }
      return Ok(());
    }

    /** The second pass of a parse: every parsed node, layer by layer, into
        a new sequence that starts at the first node of the first layer. */
    method BuildAll() returns (r: Result<DialogueSequence>)
      requires Valid(State())
      ensures r.Ok? <==> layers != [] && NoDuplicates(AllIds(layers))
      ensures r.Err? ==> r.error == (if layers == [] then ArgumentOutOfRange else Argument(DuplicateKey))
      ensures r.Ok? ==> fresh(r.value) && r.value.Valid() && r.value.nodes.Keys == nodes.Keys
                        && r.value.idLines.Keys == IdSet(AllIds(layers))
                        && r.value.functionMap == map[] && r.value.invocations == []
                        && r.value.currentNode == Some(layers[0][0].key) && r.value.lineIndex == 0
      ensures r.Ok? ==> forall k :: k in nodes ==>
                          Built(r.value.nodes[k].lines, NodeDrafts(layers, NodeAt(layers, nodes[k])))
    {
      ghost var st := State();
      var sequence := new DialogueSequence();
      var built := BuildLayers(sequence);
      IdTableEnd(layers);
      if built.Err? {
        return Err(built.error);
      }
      KeysBeforeEnd(st);
      if layers == [] {
        return Err(ArgumentOutOfRange);
      }
      ghost var table := sequence.nodes;
      assert AllBuilt(st, table);
      assert nodes[NodeAt(layers, Place(0, 0)).key] == Place(0, 0);
      var started := sequence.SetCurrentNode(layers[0][0].key, 0);
      assert sequence.nodes == table;
      return Ok(sequence);
    }

    /** Parse a whole script: every line that is not blank in a first pass,
        then every parsed node, layer by layer, into a new sequence that
        starts at the first node of the first layer. */
    method Parse(input: Maybe<string>) returns (r: Result<DialogueSequence>)
      requires Ready(syntax) && Valid(State())
      modifies this
      ensures input.None? ==> r == Err(DialogueParse(NullInput)) && State() == old(State())
      ensures input.Some? ==>
                var p := ScriptParsed(syntax, old(State()), SplitOn(input.value, '\n'));
                (p.Err? ==> r == Err(p.error))
                && (p.Ok? ==> State() == p.value && Valid(p.value))
      ensures input.Some? && ScriptParsed(syntax, old(State()), SplitOn(input.value, '\n')).Ok? ==>
                (r.Ok? <==> layers != [] && NoDuplicates(AllIds(layers)))
                && (r.Err? ==> r.error == (if layers == [] then ArgumentOutOfRange else Argument(DuplicateKey)))
      ensures r.Ok? ==> Valid(State())
      ensures r.Ok? ==> fresh(r.value) && r.value.Valid() && r.value.nodes.Keys == nodes.Keys
                        && r.value.idLines.Keys == IdSet(AllIds(layers))
                        && r.value.functionMap == map[] && r.value.invocations == []
                        && r.value.currentNode == Some(layers[0][0].key) && r.value.lineIndex == 0
      ensures r.Ok? ==> forall k :: k in nodes ==>
                          Built(r.value.nodes[k].lines, NodeDrafts(layers, NodeAt(layers, nodes[k])))
    {
      if input.None? {
        return Err(DialogueParse(NullInput));
      }
      var lines := SplitOn(input.value, '\n');
      var parsed := ParseLines(lines);
      if parsed.Err? {
        return Err(parsed.error);
      }
      ScriptParsedValid(syntax, old(State()), lines);
      r := BuildAll();
    }
  }
}
