/** The dialogue sequence: the node table, the id table, the table of host
    functions, and a cursor (current node, line index) that a traversal
    moves through functional lines until it reaches a line to show.

    Host functions are opaque handles; invoking one appends it and its
    parameters to an invocation log.  Readers are replaced by the event a
    traversal ends in, and the callbacks readers would invoke become the
    operations `ResumeLine` and `Choose`.  The traversal of the source has
    no step bound, so a cycle of goto lines runs forever: here it is given
    fuel, and running out of fuel is an outcome of its own. */
module Sequences {
  import opened Wrappers
  import opened Lines

  /** The identity of a host delegate registered under a function key. */
  datatype Handler = Handler(handle: nat)

  /** One call of a host function, with the parameters it was given. */
  datatype Invocation = Invocation(handler: Handler, parameters: seq<string>)

  /** A position in the node table. */
  datatype Cursor = Cursor(node: string, index: int)

  /** How a traversal step ends: with a value, with an error, or having
      used up its fuel (a traversal that would not terminate). */
  datatype Outcome<+T> = Done(value: T) | Failed(error: Error) | OutOfFuel

  /** What the readers are shown at the end of an update. */
  datatype Event = ShowDialogue(line: Line) | ShowOptions(line: Line) | ShowEnd

  /** The classes of line a lookup by id can ask for. */
  datatype LineClass = AnyLine | Functional | DialogueClass | OptionalClass | GotoClass | ExecClass

  predicate InClass(kind: LineKind, cls: LineClass) {
    match cls
    case AnyLine => true
    case Functional => IsFunctional(kind)
    case DialogueClass => kind.DialogueKind?
    case OptionalClass => kind.OptionalKind?
    case GotoClass => kind.GotoKind?
    case ExecClass => kind.ExecKind?
  }

  /** The variants of a list of lines. */
  function Kinds(lines: seq<Line>): (r: seq<LineKind>)
    ensures |r| == |lines| && forall i :: 0 <= i < |lines| ==> r[i] == lines[i].kind
  {
    seq(|lines|, i requires 0 <= i < |lines| => lines[i].kind)
  }

  /** What a traversal sees of the node table: the variant of every line.
      Nothing else about a line, not its `enabled` flag nor its ids, can
      steer a traversal. */
  function ShapeOf(nodes: map<string, Node>): (r: map<string, seq<LineKind>>)
    reads nodes.Values
    ensures r.Keys == nodes.Keys
    ensures forall k :: k in nodes ==> r[k] == Kinds(nodes[k].lines)
  {
    map k | k in nodes :: Kinds(nodes[k].lines)
  }

  /** The cursor stands on a functional line. */
  predicate FunctionalAt(shape: map<string, seq<LineKind>>, c: Cursor) {
    c.node in shape && 0 <= c.index < |shape[c.node]| && IsFunctional(shape[c.node][c.index])
  }

  lemma AfterAfter(first: seq<Invocation>, second: seq<Invocation>, w: Walked)
    ensures After(first, After(second, w)) == After(first + second, w)
  {
    assert first + (second + w.calls) == (first + second) + w.calls;
  }

  /** The result of a traversal: where the cursor ends, the host calls made
      on the way, and how it ended. */
  datatype Walked = Walked(cursor: Cursor, calls: seq<Invocation>, outcome: Outcome<()>)

  /** The same traversal with `calls` made before it. */
  function After(calls: seq<Invocation>, w: Walked): Walked {
    Walked(w.cursor, calls + w.calls, w.outcome)
  }

  /** The traversal from `c`: while the cursor stands on a functional line,
      move past it and then run it.  A goto line moves the cursor to the
      start of its destination, or fails when there is no such node; an
      exec line calls its host function, or fails when it has no name or
      the name is not registered.  `fuel` bounds the number of functional
      lines run. */
  function Walk(shape: map<string, seq<LineKind>>, functions: map<string, Handler>, c: Cursor, fuel: nat): Walked
    requires c.node in shape
    decreases fuel, 1
  {
    if !FunctionalAt(shape, c) then Walked(c, [], Done(()))
    else if fuel == 0 then Walked(c, [], OutOfFuel)
    else Resume(shape, functions, c, fuel)
  }

  /** The traversal from a functional line: pass it, run it, and go on. */
  function Resume(shape: map<string, seq<LineKind>>, functions: map<string, Handler>, c: Cursor, fuel: nat): Walked
    requires FunctionalAt(shape, c) && fuel > 0
    decreases fuel, 0
  {
    var next := Cursor(c.node, c.index + 1);
    match shape[c.node][c.index]
    case GotoKind(destination) =>
      if destination !in shape then Walked(next, [], Failed(NodeNotFound(destination)))
      else Walk(shape, functions, Cursor(destination, 0), fuel - 1)
    case ExecKind(name, parameters) =>
      if name.None? then Walked(next, [], Failed(ArgumentNull))
      else if name.value !in functions then Walked(next, [], Failed(Argument(NoSuchFunction)))
      else After([Invocation(functions[name.value], parameters)], Walk(shape, functions, next, fuel - 1))
  }

  /** A traversal ends in a node of the table: on a line that is shown or
      past the end of its node when it finishes, on a functional line when
      its fuel runs out, and just after the functional line that failed
      when one fails. */
  lemma {:induction false} WalkEnds(shape: map<string, seq<LineKind>>, functions: map<string, Handler>, c: Cursor, fuel: nat)
    requires c.node in shape
    ensures var w := Walk(shape, functions, c, fuel);
            w.cursor.node in shape
            && (w.outcome.Done? ==> !FunctionalAt(shape, w.cursor))
            && (w.outcome.OutOfFuel? ==> FunctionalAt(shape, w.cursor))
            && (w.outcome.Failed? ==> w.cursor.index >= 1 && FunctionalAt(shape, Cursor(w.cursor.node, w.cursor.index - 1)))
    decreases fuel
  {
    if FunctionalAt(shape, c) && fuel > 0 {
      var next := Cursor(c.node, c.index + 1);
      match shape[c.node][c.index]
      case GotoKind(destination) =>
        if destination in shape {
          WalkEnds(shape, functions, Cursor(destination, 0), fuel - 1);
        }
      case ExecKind(name, parameters) =>
        if name.Some? && name.value in functions {
          WalkEnds(shape, functions, next, fuel - 1);
        }
    }
  }

  /** What the readers are shown for the line at the end of a traversal. */
  function Display(line: Maybe<Line>): (e: Event)
    ensures e.ShowEnd? <==> line.None? || IsFunctional(line.value.kind)
    ensures e.ShowDialogue? ==> line == Some(e.line) && e.line.kind.DialogueKind?
    ensures e.ShowOptions? ==> line == Some(e.line) && e.line.kind.OptionalKind?
  {
    match line
    case None => ShowEnd
    case Some(l) =>
      if l.kind.OptionalKind? then ShowOptions(l)
      else if l.kind.DialogueKind? then ShowDialogue(l)
      else ShowEnd
  }

  /** `ids` registered one after the other for `line`; the first id already
      present stops the registration, keeping the ones before it. */
  datatype Registered = Registered(table: map<string, Line>, clash: bool)

  function RegisterIds(table: map<string, Line>, ids: seq<string>, line: Line): (r: Registered)
    decreases |ids|
  {
    if ids == [] then Registered(table, false)
    else if ids[0] in table then Registered(table, true)
    else RegisterIds(table[ids[0] := line], ids[1..], line)
  }

  predicate NoDuplicates(ids: seq<string>) {
    forall i, j :: 0 <= i < j < |ids| ==> ids[i] != ids[j]
  }

  /** Registration succeeds exactly when the ids are new and distinct. */
  lemma {:induction false} RegisterIdsClash(table: map<string, Line>, ids: seq<string>, line: Line)
    ensures !RegisterIds(table, ids, line).clash <==>
              NoDuplicates(ids) && forall i :: 0 <= i < |ids| ==> ids[i] !in table
    decreases |ids|
  {
    if ids != [] {
      var rest := ids[1..];
      RegisterIdsClash(table[ids[0] := line], rest, line);
      assert forall i :: 0 <= i < |rest| ==> rest[i] == ids[i + 1];
    }
  }

  /** Registration keeps every entry it finds, and every id registered
      before a clash, and every id when there is none, names the line. */
  lemma {:induction false} RegisterIdsTable(table: map<string, Line>, ids: seq<string>, line: Line)
    ensures var r := RegisterIds(table, ids, line);
            (forall k :: k in table ==> k in r.table && r.table[k] == table[k])
            && (forall k :: k in r.table && k !in table ==> k in ids && r.table[k] == line)
            && (!r.clash ==> forall i :: 0 <= i < |ids| ==> ids[i] in r.table && r.table[ids[i]] == line)
    decreases |ids|
  {
    if ids != [] && ids[0] !in table {
      var rest := ids[1..];
      RegisterIdsTable(table[ids[0] := line], rest, line);
      assert forall i :: 0 <= i < |rest| ==> rest[i] == ids[i + 1];
    }
  }

  class DialogueSequence {
    var nodes: map<string, Node>
    var idLines: map<string, Line>
    var functionMap: map<string, Handler>
    var invocations: seq<Invocation>
    var currentNode: Maybe<string>
    var lineIndex: int

    /** Every key has a node object of its own. */
    predicate Valid()
      reads this
    {
      forall a, b :: a in nodes && b in nodes && a != b ==> nodes[a] != nodes[b]
    }

    /** A new sequence has no nodes, ids or functions and no current node. */
    constructor ()
      ensures Valid()
      ensures nodes == map[] && idLines == map[] && functionMap == map[]
      ensures invocations == [] && currentNode == None && lineIndex == 0
    {
      nodes := map[];
      idLines := map[];
      functionMap := map[];
      invocations := [];
      currentNode := None;
      lineIndex := 0;
    }

    /** Add a node without lines under a new key. */
    method AddNode(key: Maybe<string>) returns (r: Result<()>)
      requires Valid()
      modifies this
      ensures Valid()
      ensures key.None? ==> r == Err(ArgumentNull)
      ensures key.Some? && key.value in old(nodes) ==> r == Err(Argument(DuplicateKey))
      ensures r.Err? ==> nodes == old(nodes)
      ensures r.Ok? <==> key.Some? && key.value !in old(nodes)
      ensures r.Ok? ==> nodes.Keys == old(nodes.Keys) + {key.value}
                        && fresh(nodes[key.value]) && nodes[key.value].lines == []
                        && forall k :: k in old(nodes) ==> nodes[k] == old(nodes[k])
      ensures idLines == old(idLines) && functionMap == old(functionMap) && invocations == old(invocations)
      ensures currentNode == old(currentNode) && lineIndex == old(lineIndex)
    {
      if key.None? {
        return Err(ArgumentNull);
      }
      if key.value in nodes {
        return Err(Argument(DuplicateKey));
      }
      var node := new Node();
      nodes := nodes[key.value := node];
      return Ok(());
    }

    /** Add a line at the end of an existing node, registering its ids one
        by one first.  A registered id makes the addition fail after the
        ids before it were registered and before the line is added. */
    method AddLine(key: string, line: Line) returns (r: Result<()>)
      requires Valid()
      modifies this, if key in nodes then {nodes[key]} else {}
      ensures Valid() && nodes == old(nodes)
      ensures key !in nodes ==> r == Err(Argument(NodeDoesNotExist)) && idLines == old(idLines)
      ensures key in nodes ==>
                var reg := RegisterIds(old(idLines), line.ids, line);
                idLines == reg.table && (r.Ok? <==> !reg.clash)
                && (r.Err? ==> r.error == Argument(DuplicateKey))
      ensures r.Err? ==> forall k :: k in nodes ==> nodes[k].lines == old(nodes[k].lines)
      ensures r.Ok? ==> nodes[key].lines == old(nodes[key].lines) + [line]
                        && forall k :: k in nodes && k != key ==> nodes[k].lines == old(nodes[k].lines)
      ensures r.Ok? ==> forall id :: id in line.ids ==> GetLineWithID(id, AnyLine) == Ok(line)
      ensures functionMap == old(functionMap) && invocations == old(invocations)
      ensures currentNode == old(currentNode) && lineIndex == old(lineIndex)
    {
      if key !in nodes {
        return Err(Argument(NodeDoesNotExist));
      }
      var ids := line.ids;
      var k := 0;
      while k < |ids|
        invariant 0 <= k <= |ids| && nodes == old(nodes) && nodes[key].lines == old(nodes[key].lines)
        invariant functionMap == old(functionMap) && invocations == old(invocations)
        invariant currentNode == old(currentNode) && lineIndex == old(lineIndex)
        invariant RegisterIds(old(idLines), ids, line) == RegisterIds(idLines, ids[k..], line)
        invariant forall i :: 0 <= i < k ==> ids[i] in idLines && idLines[ids[i]] == line
      {
        assert ids[k..][1..] == ids[k + 1..];
        if ids[k] in idLines {
          return Err(Argument(DuplicateKey));
        }
        idLines := idLines[ids[k] := line];
        k := k + 1;
      }
      assert ids[k..] == [];
      var node := nodes[key];
      node.AddLine(line);
      assert forall k' :: k' in nodes && k' != key ==> nodes[k'] != node;
      return Ok(());
    }

    /** Move the cursor to a line of an existing node; an unknown node
        leaves the cursor where it was. */
    method SetCurrentNode(key: string, index: int) returns (r: Result<()>)
      modifies this
      ensures key !in nodes ==> r == Err(NodeNotFound(key)) && currentNode == old(currentNode) && lineIndex == old(lineIndex)
      ensures key in nodes ==> r == Ok(()) && currentNode == Some(key) && lineIndex == index
      ensures nodes == old(nodes) && idLines == old(idLines) && functionMap == old(functionMap)
      ensures invocations == old(invocations)
    {
      if key !in nodes {
        return Err(NodeNotFound(key));
      }
      currentNode := Some(key);
      lineIndex := index;
      return Ok(());
    }

    /** The line under the cursor, whatever its variant, or nothing when
        there is no current node or the index is out of range. */
    function GetCurrentVisibleLine(): (r: Maybe<Line>)
      reads this, nodes.Values
      ensures r.Some? <==> currentNode.Some? && currentNode.value in nodes
                           && 0 <= lineIndex < |nodes[currentNode.value].lines|
      ensures r.Some? ==> r.value == nodes[currentNode.value].lines[lineIndex]
    {
      if currentNode.None? || currentNode.value !in nodes then None
      else nodes[currentNode.value].GetLine(lineIndex)
    }

    /** Remove a host function; says whether there was one. */
    method RemoveFunction(key: string) returns (removed: bool)
      modifies this
      ensures removed == (key in old(functionMap))
      ensures functionMap == old(functionMap) - {key}
      ensures nodes == old(nodes) && idLines == old(idLines) && invocations == old(invocations)
      ensures currentNode == old(currentNode) && lineIndex == old(lineIndex)
    {
      if key in functionMap {
        functionMap := functionMap - {key};
        return true;
      }
      return false;
    }

    /** Register a host function under a new key. */
    method SetFunction(key: string, handler: Handler) returns (r: Result<()>)
      modifies this
      ensures r.Ok? <==> key !in old(functionMap)
      ensures r.Err? ==> r.error == Argument(DuplicateFunction) && functionMap == old(functionMap)
      ensures r.Ok? ==> functionMap == old(functionMap)[key := handler]
      ensures nodes == old(nodes) && idLines == old(idLines) && invocations == old(invocations)
      ensures currentNode == old(currentNode) && lineIndex == old(lineIndex)
    {
      if key in functionMap {
        return Err(Argument(DuplicateFunction));
      }
      functionMap := functionMap[key := handler];
      return Ok(());
    }

    /** Register or replace the host function under a key. */
    method UpdateFunction(key: string, handler: Handler)
      modifies this
      ensures functionMap == old(functionMap)[key := handler]
      ensures nodes == old(nodes) && idLines == old(idLines) && invocations == old(invocations)
      ensures currentNode == old(currentNode) && lineIndex == old(lineIndex)
    {
      functionMap := functionMap[key := handler];
    }

    /** Call the host function registered under a key with the given
        parameters. */
    method InvokeFunction(key: Maybe<string>, parameters: seq<string>) returns (r: Result<()>)
      modifies this
      ensures key.None? ==> r == Err(ArgumentNull)
      ensures key.Some? && key.value !in functionMap ==> r == Err(Argument(NoSuchFunction))
      ensures r.Err? ==> invocations == old(invocations)
      ensures r.Ok? <==> key.Some? && key.value in functionMap
      ensures r.Ok? ==> invocations == old(invocations) + [Invocation(functionMap[key.value], parameters)]
      ensures nodes == old(nodes) && idLines == old(idLines) && functionMap == old(functionMap)
      ensures currentNode == old(currentNode) && lineIndex == old(lineIndex)
    {
      if key.None? {
        return Err(ArgumentNull);
      }
      if key.value !in functionMap {
        return Err(Argument(NoSuchFunction));
      }
      invocations := invocations + [Invocation(functionMap[key.value], parameters)];
      return Ok(());
    }

    /** Run a functional line: a goto line moves the cursor to the start of
        its destination, an exec line calls its host function. */
    method Execute(line: Line) returns (r: Result<()>)
      requires IsFunctional(line.kind)
      modifies this
      ensures line.kind.GotoKind? ==>
                var destination := line.kind.destination;
                (destination !in nodes ==>
                   r == Err(NodeNotFound(destination)) && currentNode == old(currentNode) && lineIndex == old(lineIndex))
                && (destination in nodes ==> r == Ok(()) && currentNode == Some(destination) && lineIndex == 0)
                && invocations == old(invocations)
      ensures line.kind.ExecKind? ==>
                var name := line.kind.name;
                currentNode == old(currentNode) && lineIndex == old(lineIndex)
                && (name.None? ==> r == Err(ArgumentNull))
                && (name.Some? && name.value !in functionMap ==> r == Err(Argument(NoSuchFunction)))
                && (r.Err? ==> invocations == old(invocations))
                && (r.Ok? <==> name.Some? && name.value in functionMap)
                && (r.Ok? ==> invocations == old(invocations) + [Invocation(functionMap[name.value], line.kind.parameters)])
      ensures nodes == old(nodes) && idLines == old(idLines) && functionMap == old(functionMap)
    {
      match line.kind
      case GotoKind(destination) =>
        r := SetCurrentNode(destination, 0);
      case ExecKind(name, parameters) =>
        r := InvokeFunction(name, parameters);
    }

    /** One turn of the traversal loop: pass the functional line under the
        cursor, then run it. */
    method Pass(line: Line, ghost shape: map<string, seq<LineKind>>, ghost fuel: nat)
      returns (r: Result<()>, ghost calls: seq<Invocation>)
      requires shape == ShapeOf(nodes) && currentNode.Some? && currentNode.value in nodes && fuel > 0
      requires nodes[currentNode.value].GetLine(lineIndex) == Some(line) && IsFunctional(line.kind)
      modifies this
      ensures shape == ShapeOf(nodes)
      ensures nodes == old(nodes) && idLines == old(idLines) && functionMap == old(functionMap)
      ensures invocations == old(invocations) + calls
      ensures currentNode.Some? && currentNode.value in nodes
      ensures var w := Walk(shape, functionMap, Cursor(old(currentNode).value, old(lineIndex)), fuel);
              (r.Err? ==> calls == [] && w == Walked(Cursor(currentNode.value, lineIndex), [], Failed(r.error)))
              && (r.Ok? ==> w == After(calls, Walk(shape, functionMap, Cursor(currentNode.value, lineIndex), fuel - 1)))
    {
      assert line.kind == shape[currentNode.value][lineIndex];
      lineIndex := lineIndex + 1;
      r := Execute(line);
      calls := invocations[|old(invocations)|..];
      assert invocations == old(invocations) + calls;
    }

    /** The traversal loop: while the cursor stands on a functional line,
        pass it and run it. */
    method RunFunctionalLines(fuel: nat) returns (o: Outcome<()>, ghost calls: seq<Invocation>)
      requires currentNode.Some? && currentNode.value in nodes
      modifies this
      ensures nodes == old(nodes) && idLines == old(idLines) && functionMap == old(functionMap)
      ensures currentNode.Some? && invocations == old(invocations) + calls
      ensures Walk(ShapeOf(nodes), functionMap, Cursor(old(currentNode).value, old(lineIndex)), fuel)
              == Walked(Cursor(currentNode.value, lineIndex), calls, o)
    {
      ghost var shape := ShapeOf(nodes);
      ghost var start := Cursor(currentNode.value, lineIndex);
      calls := [];
      var line := nodes[currentNode.value].GetLine(lineIndex);
      var f := fuel;
      while line.Some? && IsFunctional(line.value.kind)
        invariant nodes == old(nodes) && idLines == old(idLines) && functionMap == old(functionMap)
        invariant shape == ShapeOf(nodes)
        invariant currentNode.Some? && currentNode.value in nodes
        invariant line == nodes[currentNode.value].GetLine(lineIndex)
        invariant invocations == old(invocations) + calls
        invariant Walk(shape, functionMap, start, fuel) ==
                  After(calls, Walk(shape, functionMap, Cursor(currentNode.value, lineIndex), f))
        decreases f
      {
        if f == 0 {
          assert calls + [] == calls;
          return OutOfFuel, calls;
        }
        var passed, made := Pass(line.value, shape, f);
        if passed.Err? {
          assert calls + [] == calls;
          return Failed(passed.error), calls;
        }
        AfterAfter(calls, made, Walk(shape, functionMap, Cursor(currentNode.value, lineIndex), f - 1));
        calls := calls + made;
        f := f - 1;
        line := nodes[currentNode.value].GetLine(lineIndex);
      }
      assert calls + [] == calls;
      return Done(()), calls;
    }

    /** Run functional lines from the cursor until it reaches a line that
        is shown, or runs off the end of its node.  Each functional line is
        passed before it is run, so a failing line leaves the cursor just
        after it. */
    method AdvanceToNextVisibleLine(fuel: nat) returns (r: Outcome<Maybe<Line>>)
      modifies this
      ensures nodes == old(nodes) && idLines == old(idLines) && functionMap == old(functionMap)
      ensures old(currentNode).None? ==> r == Failed(ArgumentNull) && unchanged(this)
      ensures old(currentNode).Some? && old(currentNode).value !in nodes ==> r == Failed(KeyNotFound) && unchanged(this)
      ensures old(currentNode).Some? && old(currentNode).value in nodes ==>
                var w := Walk(ShapeOf(nodes), functionMap, Cursor(old(currentNode).value, old(lineIndex)), fuel);
                currentNode == Some(w.cursor.node) && lineIndex == w.cursor.index
                && invocations == old(invocations) + w.calls
                && (r.Done? <==> w.outcome.Done?) && (r.OutOfFuel? <==> w.outcome.OutOfFuel?)
                && (r.Failed? ==> w.outcome == Failed(r.error))
                && (r.Done? ==> r.value == GetCurrentVisibleLine())
    {
      if currentNode.None? {
        return Failed(ArgumentNull);
      }
      if currentNode.value !in nodes {
        return Failed(KeyNotFound);
      }
      var o, calls := RunFunctionalLines(fuel);
      match o
      case Done(_) => r := Done(GetCurrentVisibleLine());
      case Failed(e) => r := Failed(e);
      case OutOfFuel => r := OutOfFuel;
    }

    /** Advance to the next line to show and show it. */
    method UpdateSequence(fuel: nat) returns (r: Outcome<Event>)
      modifies this
      ensures nodes == old(nodes) && idLines == old(idLines) && functionMap == old(functionMap)
      ensures old(currentNode).None? ==> r == Failed(ArgumentNull) && unchanged(this)
      ensures old(currentNode).Some? && old(currentNode).value !in nodes ==> r == Failed(KeyNotFound) && unchanged(this)
      ensures old(currentNode).Some? && old(currentNode).value in nodes ==>
                var w := Walk(ShapeOf(nodes), functionMap, Cursor(old(currentNode).value, old(lineIndex)), fuel);
                currentNode == Some(w.cursor.node) && lineIndex == w.cursor.index
                && invocations == old(invocations) + w.calls
                && (r.Done? <==> w.outcome.Done?) && (r.OutOfFuel? <==> w.outcome.OutOfFuel?)
                && (r.Failed? ==> w.outcome == Failed(r.error))
                && (r.Done? ==> r.value == Display(GetCurrentVisibleLine()))
    {
      var advanced := AdvanceToNextVisibleLine(fuel);
      match advanced
      case Done(line) => r := Done(Display(line));
      case Failed(e) => r := Failed(e);
      case OutOfFuel => r := OutOfFuel;
    }

    /** Start the traversal at the cursor set beforehand. */
    method StartSequence(fuel: nat) returns (r: Outcome<Event>)
      modifies this
      ensures nodes == old(nodes) && idLines == old(idLines) && functionMap == old(functionMap)
      ensures old(currentNode).None? ==> r == Failed(SequenceNotConfigured) && unchanged(this)
      ensures old(currentNode).Some? && old(currentNode).value !in nodes ==>
                r == Failed(NodeNotFound(old(currentNode).value)) && unchanged(this)
      ensures old(currentNode).Some? && old(currentNode).value in nodes ==>
                var w := Walk(ShapeOf(nodes), functionMap, Cursor(old(currentNode).value, old(lineIndex)), fuel);
                currentNode == Some(w.cursor.node) && lineIndex == w.cursor.index
                && invocations == old(invocations) + w.calls
                && (r.Done? <==> w.outcome.Done?) && (r.OutOfFuel? <==> w.outcome.OutOfFuel?)
                && (r.Failed? ==> w.outcome == Failed(r.error))
                && (r.Done? ==> r.value == Display(GetCurrentVisibleLine()))
    {
      if currentNode.None? {
        return Failed(SequenceNotConfigured);
      }
      if currentNode.value !in nodes {
        return Failed(NodeNotFound(currentNode.value));
      }
      r := UpdateSequence(fuel);
    }

    /** The action a reader runs when a shown dialogue line is dismissed:
        move past it and update. */
    method ResumeLine(fuel: nat) returns (r: Outcome<Event>)
      modifies this
      ensures nodes == old(nodes) && idLines == old(idLines) && functionMap == old(functionMap)
      ensures old(currentNode).Some? && old(currentNode).value in nodes ==>
                var w := Walk(ShapeOf(nodes), functionMap, Cursor(old(currentNode).value, old(lineIndex) + 1), fuel);
                currentNode == Some(w.cursor.node) && lineIndex == w.cursor.index
                && invocations == old(invocations) + w.calls
                && (r.Done? <==> w.outcome.Done?) && (r.OutOfFuel? <==> w.outcome.OutOfFuel?)
                && (r.Failed? ==> w.outcome == Failed(r.error))
                && (r.Done? ==> r.value == Display(GetCurrentVisibleLine()))
      ensures old(currentNode).None? ==> r == Failed(ArgumentNull)
      ensures old(currentNode).Some? && old(currentNode).value !in nodes ==> r == Failed(KeyNotFound)
    {
      lineIndex := lineIndex + 1;
      r := UpdateSequence(fuel);
    }

    /** The action a reader runs when an option leading to `target` is
        chosen: move to the start of that node and update. */
    method Choose(target: string, fuel: nat) returns (r: Outcome<Event>)
      modifies this
      ensures nodes == old(nodes) && idLines == old(idLines) && functionMap == old(functionMap)
      ensures target !in nodes ==>
                r == Failed(NodeNotFound(target)) && invocations == old(invocations)
                && currentNode == old(currentNode) && lineIndex == old(lineIndex)
      ensures target in nodes ==>
                var w := Walk(ShapeOf(nodes), functionMap, Cursor(target, 0), fuel);
                currentNode == Some(w.cursor.node) && lineIndex == w.cursor.index
                && invocations == old(invocations) + w.calls
                && (r.Done? <==> w.outcome.Done?) && (r.OutOfFuel? <==> w.outcome.OutOfFuel?)
                && (r.Failed? ==> w.outcome == Failed(r.error))
                && (r.Done? ==> r.value == Display(GetCurrentVisibleLine()))
    {
      var moved := SetCurrentNode(target, 0);
      if moved.Err? {
        return Failed(moved.error);
      }
      r := UpdateSequence(fuel);
    }

    /** The line registered under an id, provided it is of the class asked
        for. */
    function GetLineWithID(id: string, cls: LineClass): (r: Result<Line>)
      reads this
      ensures r.Ok? <==> id in idLines && InClass(idLines[id].kind, cls)
      ensures r.Ok? ==> r.value == idLines[id]
      ensures id !in idLines ==> r == Err(Argument(UnknownLineId))
      ensures id in idLines && !InClass(idLines[id].kind, cls) ==> r == Err(Argument(LineTypeMismatch))
    {
      if id !in idLines then Err(Argument(UnknownLineId))
      else if !InClass(idLines[id].kind, cls) then Err(Argument(LineTypeMismatch))
      else Ok(idLines[id])
    }
  }

  /** More fuel does not change a traversal that finished without running
      out of it. */
  lemma {:induction false} WalkFuelMonotone(shape: map<string, seq<LineKind>>, functions: map<string, Handler>,
                                            c: Cursor, fuel: nat, more: nat)
    requires c.node in shape && fuel <= more
    requires !Walk(shape, functions, c, fuel).outcome.OutOfFuel?
    ensures Walk(shape, functions, c, more) == Walk(shape, functions, c, fuel)
    decreases fuel
  {
    if FunctionalAt(shape, c) && fuel > 0 {
      var next := Cursor(c.node, c.index + 1);
      match shape[c.node][c.index]
      case GotoKind(destination) =>
        if destination in shape {
          WalkFuelMonotone(shape, functions, Cursor(destination, 0), fuel - 1, more - 1);
        }
      case ExecKind(name, parameters) =>
        if name.Some? && name.value in functions {
          WalkFuelMonotone(shape, functions, next, fuel - 1, more - 1);
        }
    }
  }

  /** A node whose first line is a goto to itself never reaches a line to
      show: every amount of fuel is used up. */
  lemma {:induction false} SelfGotoNeverStops(shape: map<string, seq<LineKind>>, functions: map<string, Handler>,
                                              node: string, fuel: nat)
    requires node in shape && |shape[node]| > 0 && shape[node][0] == GotoKind(node)
    ensures Walk(shape, functions, Cursor(node, 0), fuel) == Walked(Cursor(node, 0), [], OutOfFuel)
    decreases fuel
  {
    if fuel > 0 {
      SelfGotoNeverStops(shape, functions, node, fuel - 1);
    }
  }
}
