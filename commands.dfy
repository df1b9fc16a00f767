/** The command table of the dialogue script: the command kinds, the
    `Command` record with its priority order, the default tables and the
    per-kind overrides of `CommandSettings`. */
module Commands {
  import opened Wrappers

  datatype CommandType =
    | Dialogue | Option | NodeStart | NodeEnd | Exec | Goto | Comment | Escape
    | IdStart | IdEnd | FunctionStart | FunctionEnd | ParamDelim | FormatStart | FormatEnd

  /** A command: its kind and the literal that introduces it in a script.
      Both are fixed once the command is built. */
  datatype Command = Command(kind: CommandType, literal: string)

  // ---------------------------------------------------------------------
  // Priority order
  // ---------------------------------------------------------------------

  /** Ordinal string comparison: negative, zero or positive as `a` sorts
      before, together with or after `b`. */
  function CompareOrdinal(a: string, b: string): (r: int)
    ensures -1 <= r <= 1
  {
    if a == [] then (if b == [] then 0 else -1)
    else if b == [] then 1
    else if a[0] < b[0] then -1
    else if a[0] > b[0] then 1
    else CompareOrdinal(a[1..], b[1..])
  }

  /** `Command.CompareTo`: negative when `x` has priority over `y`.  The
      longer literal has priority; equal lengths fall back to string order. */
  function CompareTo(x: Command, y: Command): int {
    var compare := |y.literal| - |x.literal|;
    if compare != 0 then compare else CompareOrdinal(x.literal, y.literal)
  }

  lemma {:induction false} OrdinalZeroIff(a: string, b: string)
    ensures CompareOrdinal(a, b) == 0 <==> a == b
  {
    if a != [] && b != [] && a[0] == b[0] {
      OrdinalZeroIff(a[1..], b[1..]);
      assert a == [a[0]] + a[1..] && b == [b[0]] + b[1..];
    }
  }

  lemma {:induction false} OrdinalFlips(a: string, b: string)
    ensures CompareOrdinal(a, b) == -CompareOrdinal(b, a)
  {
    if a != [] && b != [] && a[0] == b[0] {
      OrdinalFlips(a[1..], b[1..]);
    }
  }

  lemma {:induction false} OrdinalTransitive(a: string, b: string, c: string)
    requires CompareOrdinal(a, b) <= 0 && CompareOrdinal(b, c) <= 0
    ensures CompareOrdinal(a, c) <= 0
  {
    if a != [] && b != [] && c != [] && a[0] == b[0] == c[0] {
      OrdinalTransitive(a[1..], b[1..], c[1..]);
    }
  }

  /** A command compares equal to itself, and only to commands with the
      same literal. */
  lemma CompareToZeroIff(x: Command, y: Command)
    ensures CompareTo(x, y) == 0 <==> x.literal == y.literal
    ensures CompareTo(x, x) == 0
  {
    OrdinalZeroIff(x.literal, y.literal);
    OrdinalZeroIff(x.literal, x.literal);
  }

  /** Swapping the arguments of `CompareTo` flips the sign of the result. */
  lemma CompareToFlips(x: Command, y: Command)
    ensures CompareTo(x, y) == -CompareTo(y, x)
  {
    OrdinalFlips(x.literal, y.literal);
  }

  /** A longer literal sorts first; literals of equal length sort by string
      order. */
  lemma CompareToByLengthThenText(x: Command, y: Command)
    ensures |x.literal| > |y.literal| ==> CompareTo(x, y) < 0
    ensures |x.literal| == |y.literal| ==> CompareTo(x, y) == CompareOrdinal(x.literal, y.literal)
  {
  }

  lemma CompareToTransitive(x: Command, y: Command, z: Command)
    requires CompareTo(x, y) <= 0 && CompareTo(y, z) <= 0
    ensures CompareTo(x, z) <= 0
  {
    if |x.literal| == |y.literal| == |z.literal| {
      OrdinalTransitive(x.literal, y.literal, z.literal);
    }
  }

  // ---------------------------------------------------------------------
  // Sorting
  // ---------------------------------------------------------------------

  predicate Sorted(s: seq<Command>) {
    forall i, j :: 0 <= i < j < |s| ==> CompareTo(s[i], s[j]) <= 0
  }

  function Insert(c: Command, s: seq<Command>): seq<Command> {
    if s == [] then [c]
    else if CompareTo(c, s[0]) <= 0 then [c] + s
    else [s[0]] + Insert(c, s[1..])
  }

  /** The order `List.Sort` puts the command table in. */
  function SortCommands(s: seq<Command>): seq<Command> {
    if s == [] then [] else Insert(s[0], SortCommands(s[1..]))
  }

  lemma {:induction false} InsertPermutes(c: Command, s: seq<Command>)
    ensures multiset(Insert(c, s)) == multiset(s) + multiset{c}
  {
    if s != [] && CompareTo(c, s[0]) > 0 {
      InsertPermutes(c, s[1..]);
      assert s == [s[0]] + s[1..];
    }
  }

  lemma {:induction false} InsertSorted(c: Command, s: seq<Command>)
    requires Sorted(s)
    ensures Sorted(Insert(c, s))
  {
    if s == [] {
    } else if CompareTo(c, s[0]) <= 0 {
      FrontSorted(c, s);
    } else {
      InsertSorted(c, s[1..]);
      HeadBelowInsert(c, s);
      ConsSorted(s[0], Insert(c, s[1..]));
    }
  }

  /** A command that sorts no later than the head of a sorted table can go
      in front of it. */
  lemma FrontSorted(c: Command, s: seq<Command>)
    requires Sorted(s) && s != [] && CompareTo(c, s[0]) <= 0
    ensures Sorted([c] + s)
  {
    var r := [c] + s;
    forall i, j | 0 <= i < j < |r| ensures CompareTo(r[i], r[j]) <= 0 {
      if i == 0 && j > 1 {
        CompareToTransitive(c, s[0], s[j - 1]);
      }
    }
  }

  /** The head of a sorted table that `c` goes after sorts no later than
      anything of the rest with `c` inserted. */
  lemma HeadBelowInsert(c: Command, s: seq<Command>)
    requires Sorted(s) && s != [] && CompareTo(c, s[0]) > 0
    ensures forall j :: 0 <= j < |Insert(c, s[1..])| ==> CompareTo(s[0], Insert(c, s[1..])[j]) <= 0
  {
    InsertPermutes(c, s[1..]);
    var r := Insert(c, s[1..]);
    CompareToFlips(c, s[0]);
    forall j | 0 <= j < |r| ensures CompareTo(s[0], r[j]) <= 0 {
      assert r[j] in multiset(s[1..]) + multiset{c};
      if r[j] != c {
        var k :| 0 <= k < |s[1..]| && s[1..][k] == r[j];
        assert s[k + 1] == r[j];
      }
    }
  }

  /** A command that sorts no later than everything of a sorted table can
      go in front of it. */
  lemma ConsSorted(x: Command, r: seq<Command>)
    requires Sorted(r) && forall j :: 0 <= j < |r| ==> CompareTo(x, r[j]) <= 0
    ensures Sorted([x] + r)
  {
    var t := [x] + r;
    forall i, j | 0 <= i < j < |t| ensures CompareTo(t[i], t[j]) <= 0 {
      if i > 0 {
        assert t[i] == r[i - 1] && t[j] == r[j - 1];
      }
    }
  }

  /** The sorted table is ordered by `CompareTo` and holds exactly the
      commands it was given. */
  lemma {:induction false} SortCommandsCorrect(s: seq<Command>)
    ensures Sorted(SortCommands(s))
    ensures multiset(SortCommands(s)) == multiset(s)
  {
    if s != [] {
      SortCommandsCorrect(s[1..]);
      InsertSorted(s[0], SortCommands(s[1..]));
      InsertPermutes(s[0], SortCommands(s[1..]));
      assert s == [s[0]] + s[1..];
    }
  }

  /** In a sorted table a command with a longer literal comes first. */
  lemma SortedLongerFirst(s: seq<Command>, i: nat, j: nat)
    requires Sorted(s) && i < |s| && j < |s|
    requires |s[i].literal| > |s[j].literal|
    ensures i < j
  {
    if j <= i {
      CompareToFlips(s[j], s[i]);
    }
  }

  // ---------------------------------------------------------------------
  // Overrides
  // ---------------------------------------------------------------------

  /** `List.RemoveAll(existing => existing.Type == kind)`. */
  function RemoveKind(cs: seq<Command>, kind: CommandType): (r: seq<Command>)
    ensures forall c :: c in r <==> c in cs && c.kind != kind
    ensures |r| <= |cs|
  {
    if cs == [] then []
    else if cs[0].kind == kind then RemoveKind(cs[1..], kind)
    else [cs[0]] + RemoveKind(cs[1..], kind)
  }

  /** Apply the user-defined commands in order: each one evicts every
      command of its kind and is then appended. */
  function Override(cs: seq<Command>, defined: seq<Command>): seq<Command>
    decreases |defined|
  {
    if defined == [] then cs
    else Override(RemoveKind(cs, defined[0].kind) + [defined[0]], defined[1..])
  }

  /** The first command of the given kind (`GetCommand`'s search). */
  function Lookup(cs: seq<Command>, kind: CommandType): (r: Maybe<Command>)
    ensures r.Some? ==> r.value in cs && r.value.kind == kind
    ensures r.None? ==> forall c :: c in cs ==> c.kind != kind
  {
    if cs == [] then None
    else if cs[0].kind == kind then Some(cs[0])
    else Lookup(cs[1..], kind)
  }

  /** The last command of the given kind in a list. */
  function LastOfKind(cs: seq<Command>, kind: CommandType): Maybe<Command> {
    if cs == [] then None
    else
      var rest := LastOfKind(cs[1..], kind);
      if rest.Some? then rest
      else if cs[0].kind == kind then Some(cs[0])
      else None
  }

  predicate OnePerKind(cs: seq<Command>) {
    forall i, j :: 0 <= i < j < |cs| ==> cs[i].kind != cs[j].kind
  }

  lemma {:induction false} LookupRemoveKind(cs: seq<Command>, removed: CommandType, kind: CommandType)
    ensures Lookup(RemoveKind(cs, removed), kind) == if kind == removed then None else Lookup(cs, kind)
  {
    if cs != [] {
      LookupRemoveKind(cs[1..], removed, kind);
    }
  }

  lemma {:induction false} LookupAppend(cs: seq<Command>, c: Command, kind: CommandType)
    ensures Lookup(cs + [c], kind) == if Lookup(cs, kind).Some? then Lookup(cs, kind)
                                       else if c.kind == kind then Some(c) else None
  {
    if cs != [] {
      assert (cs + [c])[1..] == cs[1..] + [c];
      LookupAppend(cs[1..], c, kind);
    }
  }

  /** The last definition of a kind wins; kinds nobody redefined keep their
      previous command. */
  lemma {:induction false} OverrideLastWins(cs: seq<Command>, defined: seq<Command>, kind: CommandType)
    ensures Lookup(Override(cs, defined), kind) ==
            if LastOfKind(defined, kind).Some? then LastOfKind(defined, kind) else Lookup(cs, kind)
    decreases |defined|
  {
    if defined != [] {
      var d := defined[0];
      var next := RemoveKind(cs, d.kind) + [d];
      OverrideLastWins(next, defined[1..], kind);
      LookupAppend(RemoveKind(cs, d.kind), d, kind);
      LookupRemoveKind(cs, d.kind, kind);
    }
  }

  lemma {:induction false} RemoveKindKeepsOnePerKind(cs: seq<Command>, kind: CommandType)
    requires OnePerKind(cs)
    ensures OnePerKind(RemoveKind(cs, kind))
  {
    if cs != [] {
      RemoveKindKeepsOnePerKind(cs[1..], kind);
      var rest := RemoveKind(cs[1..], kind);
      forall c | c in rest ensures c.kind != cs[0].kind {
        var k :| 0 <= k < |cs[1..]| && cs[1..][k] == c;
        assert cs[k + 1] == c;
      }
    }
  }

  /** Overriding never puts two commands of the same kind in the table. */
  lemma {:induction false} OverrideKeepsOnePerKind(cs: seq<Command>, defined: seq<Command>)
    requires OnePerKind(cs)
    ensures OnePerKind(Override(cs, defined))
    decreases |defined|
  {
    if defined != [] {
      var d := defined[0];
      var removed := RemoveKind(cs, d.kind);
      RemoveKindKeepsOnePerKind(cs, d.kind);
      var next := removed + [d];
      forall i, j | 0 <= i < j < |next| ensures next[i].kind != next[j].kind {
        if j == |removed| { assert next[i] in removed; }
      }
      OverrideKeepsOnePerKind(next, defined[1..]);
    }
  }

  lemma {:induction false} InsertLookup(c: Command, s: seq<Command>, kind: CommandType)
    requires c.kind == kind ==> Lookup(s, kind).None?
    ensures Lookup(Insert(c, s), kind) == if c.kind == kind then Some(c) else Lookup(s, kind)
  {
    if s != [] && CompareTo(c, s[0]) > 0 {
      InsertLookup(c, s[1..], kind);
    }
  }

  /** Sorting a table with one command per kind does not change which
      command a kind looks up. */
  lemma {:induction false} SortKeepsLookup(s: seq<Command>, kind: CommandType)
    requires OnePerKind(s)
    ensures Lookup(SortCommands(s), kind) == Lookup(s, kind)
  {
    if s != [] {
      assert OnePerKind(s[1..]) by {
        forall i, j | 0 <= i < j < |s[1..]| ensures s[1..][i].kind != s[1..][j].kind {
          assert s[1..][i] == s[i + 1] && s[1..][j] == s[j + 1];
        }
      }
      SortKeepsLookup(s[1..], kind);
      if s[0].kind == kind {
        forall c | c in s[1..] ensures c.kind != kind {
          var k :| 0 <= k < |s[1..]| && s[1..][k] == c;
          assert s[k + 1] == c;
        }
      }
      InsertLookup(s[0], SortCommands(s[1..]), kind);
    }
  }

  // ---------------------------------------------------------------------
  // Fixed tables
  // ---------------------------------------------------------------------

  const DefaultCommands: seq<Command> := [
    Command(Dialogue, ":"),
    Command(CommandType.Option, "->"),
    Command(NodeStart, "-"),
    Command(NodeEnd, "--"),
    Command(Exec, ">"),
    Command(Goto, "|"),
    Command(Comment, "#"),
    Command(Escape, "\\"),
    Command(IdStart, "["),
    Command(IdEnd, "]")
  ]

  /** The delimiters of a function call `name(a, b)`, in table order. */
  const FunctionParts: seq<Command> := [
    Command(Escape, "\\"),
    Command(FunctionStart, "("),
    Command(FunctionEnd, ")"),
    Command(ParamDelim, ",")
  ]

  /** The commands of the `$id(text)` formatting language, in the order the
      dictionary hands out its values. */
  const FormatCommands: seq<Command> := [
    Command(Escape, "\\"),
    Command(IdStart, "$"),
    Command(FormatStart, "("),
    Command(FormatEnd, ")")
  ]

  lemma DefaultsOnePerKind()
    ensures OnePerKind(DefaultCommands)
  {
  }

  /** With no overrides the table is the ten defaults, sorted, and the
      two-character literals `--` and `->` come before `-`. */
  lemma DefaultTableOrder()
    ensures multiset(SortCommands(Override(DefaultCommands, []))) == multiset(DefaultCommands)
    ensures |SortCommands(Override(DefaultCommands, []))| == 10
    ensures Sorted(SortCommands(Override(DefaultCommands, [])))
    ensures forall i, j ::
              (0 <= i < 10 && 0 <= j < 10
               && SortCommands(DefaultCommands)[i] == Command(CommandType.Option, "->")
               && SortCommands(DefaultCommands)[j] == Command(NodeStart, "-")) ==> i < j
    ensures forall i, j ::
              (0 <= i < 10 && 0 <= j < 10
               && SortCommands(DefaultCommands)[i] == Command(NodeEnd, "--")
               && SortCommands(DefaultCommands)[j] == Command(NodeStart, "-")) ==> i < j
  {
    var s := SortCommands(DefaultCommands);
    SortCommandsCorrect(DefaultCommands);
    assert |s| == |multiset(s)| == |multiset(DefaultCommands)| == 10;
    forall i, j | 0 <= i < 10 && 0 <= j < 10 && |s[i].literal| == 2 && s[j] == Command(NodeStart, "-")
      ensures i < j
    {
      SortedLongerFirst(s, i, j);
    }
  }

  /** In the active table a kind finds the command defined last for it,
      or the default one when it was never redefined. */
  lemma ActiveLookup(defined: seq<Command>, kind: CommandType)
    ensures Lookup(SortCommands(Override(DefaultCommands, defined)), kind) ==
            if LastOfKind(defined, kind).Some? then LastOfKind(defined, kind) else Lookup(DefaultCommands, kind)
  {
    DefaultsOnePerKind();
    OverrideKeepsOnePerKind(DefaultCommands, defined);
    SortKeepsLookup(Override(DefaultCommands, defined), kind);
    OverrideLastWins(DefaultCommands, defined, kind);
  }

  // ---------------------------------------------------------------------
  // CommandSettings
  // ---------------------------------------------------------------------

  /** The process-wide command settings: the user's command definitions on
      top of the fixed default table. */
  class CommandSettings {
    var definedCommands: seq<Command>

    constructor ()
      ensures definedCommands == []
    {
      definedCommands := [];
    }

    method DefineCommand(command: Command)
      modifies this
      ensures definedCommands == old(definedCommands) + [command]
    {
      definedCommands := definedCommands + [command];
    }

    /** The defaults with every definition applied, in priority order. */
    method GetCommands() returns (commands: seq<Command>)
      ensures commands == SortCommands(Override(DefaultCommands, definedCommands))
    {
      commands := DefaultCommands;
      var i := 0;
      while i < |definedCommands|
        invariant 0 <= i <= |definedCommands|
        invariant Override(commands, definedCommands[i..]) == Override(DefaultCommands, definedCommands)
      {
        var definedCommand := definedCommands[i];
        commands := RemoveKind(commands, definedCommand.kind) + [definedCommand];
        i := i + 1;
      }
      commands := SortCommands(commands);
    }

    /** The command of the given kind in the active table, if any: the one
        defined last for that kind, else the default one. */
    method GetCommand(kind: CommandType) returns (found: Maybe<Command>)
      ensures found == Lookup(SortCommands(Override(DefaultCommands, definedCommands)), kind)
      ensures found == if LastOfKind(definedCommands, kind).Some? then LastOfKind(definedCommands, kind)
                       else Lookup(DefaultCommands, kind)
    {
      var commands := GetCommands();
      ActiveLookup(definedCommands, kind);
      found := None;
      var i := 0;
      while i < |commands|
        invariant 0 <= i <= |commands|
        invariant Lookup(commands, kind) == Lookup(commands[i..], kind)
      {
        if commands[i].kind == kind {
          found := Some(commands[i]);
          return;
        }
        i := i + 1;
      }
    }
  }
}
