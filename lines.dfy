/** The line data model of a dialogue: the closed set of line variants
    (dialogue, optional, goto, exec), the options of an optional line, and
    nodes as ordered lists of lines.  Lines and options are objects whose
    `enabled` flags and ids are changed in place. */
module Lines {
  import opened Wrappers

  /** What a line is.  A dialogue line and an optional line are shown to
      the readers; a goto line and an exec line are functional and are run
      by the traversal instead. */
  datatype LineKind =
    | DialogueKind(speaker: string, text: string)
    | OptionalKind
    | GotoKind(destination: string)
    | ExecKind(name: Maybe<string>, parameters: seq<string>)

  /** The functional lines, which the traversal runs rather than shows. */
  predicate IsFunctional(kind: LineKind) {
    kind.GotoKind? || kind.ExecKind?
  }

  /** The text form of an option: `-> text | node`. */
  function OptionString(node: string, text: string): string {
    "-> " + text + " | " + node
  }

  /** The text form of a dialogue line: its class name, then `speaker: text`. */
  function DialogueString(speaker: string, text: string): string {
    "DialogueLine\n" + speaker + ": " + text
  }

  /** One choice of an optional line: the node it leads to and its text are
      fixed; its string id and its `enabled` flag can be changed. */
  class Option {
    const node: string
    const text: string
    var id: Maybe<string>
    var enabled: bool

    constructor (node: string, text: string)
      ensures this.node == node && this.text == text
      ensures id == None && enabled
    {
      this.node := node;
      this.text := text;
      id := None;
      enabled := true;
    }
  }

  /** The options whose `enabled` flag is set, in key order. */
  function EnabledOptions(options: seq<Option>): (r: seq<Option>)
    reads set o | o in options
    ensures |r| <= |options|
    ensures forall i :: 0 <= i < |r| ==> r[i] in options && r[i].enabled
    ensures forall i :: 0 <= i < |options| && options[i].enabled ==> options[i] in r
  {
    if options == [] then []
    else (if options[0].enabled then [options[0]] else []) + EnabledOptions(options[1..])
  }

  /** The text form of an optional line: its class name and one line per
      option. */
  function OptionalString(options: seq<Option>): string {
    if options == [] then "OptionalLine"
    else OptionalString(options[..|options| - 1]) + "\n"
         + OptionString(options[|options| - 1].node, options[|options| - 1].text)
  }

  /** No option object appears twice. */
  predicate Distinct(options: seq<Option>) {
    forall i, j :: 0 <= i < j < |options| ==> options[i] != options[j]
  }

  /** A line of any variant.  `options` are the options of an optional line,
      keyed by their position: keys are handed out densely from 0 and never
      removed. */
  class Line {
    const kind: LineKind
    var enabled: bool
    var ids: seq<string>
    var options: seq<Option>

    /** Every line starts enabled, without ids and without options. */
    constructor (kind: LineKind)
      ensures this.kind == kind && enabled && ids == [] && options == []
      ensures IsEnabled() && GetIds() == [] && CountOptions() == 0
    {
      this.kind := kind;
      enabled := true;
      ids := [];
      options := [];
    }

    predicate Valid()
      reads this
    {
      Distinct(options) && (!kind.OptionalKind? ==> options == [])
    }

    /** Switch the line on or off. */
    method Toggle(enabled: bool)
      modifies this
      ensures this.enabled == enabled && IsEnabled() == enabled
      ensures ids == old(ids) && options == old(options)
    {
      this.enabled := enabled;
    }

    /** Whether the line is switched on: the flag `Toggle` set last, on
        from construction. */
    function IsEnabled(): (r: bool)
      reads this
      ensures r <==> enabled
    {
      enabled
    }

    /** Add an id after the existing ones; duplicates are kept.  A missing
        id is refused and changes nothing. */
    method AddId(id: Maybe<string>) returns (r: Result<()>)
      modifies this
      ensures id.None? ==> r == Err(ArgumentNull) && ids == old(ids)
      ensures id.Some? ==> r == Ok(()) && ids == old(ids) + [id.value] && GetIds() == old(GetIds()) + [id.value]
      ensures enabled == old(enabled) && options == old(options)
    {
      if id.None? {
        return Err(ArgumentNull);
      }
      ids := ids + [id.value];
      return Ok(());
    }

    /** The ids added so far, in the order they were added. */
    function GetIds(): (r: seq<string>)
      reads this
      ensures r == ids
    {
      ids
    }

    /** Add a new, enabled option without an id; its key is the number of
        options there were before. */
    method AddOption(node: string, text: string) returns (key: nat)
      requires Valid() && kind.OptionalKind?
      modifies this
      ensures Valid()
      ensures key == |old(options)| && |options| == key + 1 && options[..key] == old(options)
      ensures CountOptions() == old(CountOptions()) + 1
      ensures fresh(options[key]) && options[key].node == node && options[key].text == text
      ensures options[key].id == None && options[key].enabled
      ensures GetOption(key) == Ok(options[key])
      ensures enabled == old(enabled) && ids == old(ids)
    {
      var newOption := new Option(node, text);
      key := |options|;
      options := options + [newOption];
    }

    /** The option with the given key. */
    function GetOption(key: int): (r: Result<Option>)
      reads this
      ensures r.Ok? <==> 0 <= key < |options|
      ensures r.Err? ==> r.error == Argument(UnknownOption)
    {
      if 0 <= key < |options| then Ok(options[key]) else Err(Argument(UnknownOption))
    }

    /** The option with the given key, or nothing. */
    function TryGetOption(key: int): (r: Maybe<Option>)
      reads this
      ensures r.Some? <==> GetOption(key).Ok?
      ensures r.Some? ==> r.value == GetOption(key).value
    {
      if 0 <= key < |options| then Some(options[key]) else None
    }

    /** The number of options: exactly the keys `GetOption` accepts are
        below it. */
    function CountOptions(): (r: nat)
      reads this
      ensures forall key :: GetOption(key).Ok? <==> 0 <= key < r
    {
      |options|
    }

    /** The options that are switched on, in key order. */
    method GetEnabledOptions() returns (list: seq<Option>)
      ensures list == EnabledOptions(options)
    {
      list := [];
      var k := 0;
      while k < |options|
        invariant 0 <= k <= |options|
        invariant list == EnabledOptions(options[..k])
      {
        var next := if options[k].enabled then [options[k]] else [];
        assert EnabledOptions(options[..k + 1]) == list + next by {
          assert options[..k + 1] == options[..k] + [options[k]];
          EnabledOptionsAppend(options[..k], [options[k]]);
        }
        list := list + next;
        k := k + 1;
      }
      assert options[..k] == options;
    }

    /** The node the option with the given key leads to. */
    function GetNodeFromSelection(key: int): (r: Result<string>)
      reads this
      ensures r.Ok? <==> GetOption(key).Ok?
      ensures r.Ok? ==> r.value == GetOption(key).value.node
      ensures r.Err? ==> r.error == Argument(UnknownOption)
    {
      if !(0 <= key < |options|) then Err(Argument(UnknownOption)) else Ok(options[key].node)
    }

    /** Switch one option, found by key, on or off; an unknown key changes
        nothing. */
    method ToggleOption(key: int, enabled: bool)
      requires Valid()
      modifies if 0 <= key < |options| then {options[key]} else {}
      ensures 0 <= key < |options| ==> options[key].enabled == enabled
      ensures forall k :: 0 <= k < |options| && k != key ==> options[k].enabled == old(options[k].enabled)
    {
      if 0 <= key < |options| {
        options[key].enabled := enabled;
      }
    }

    /** Switch on or off every option whose string id equals `stringId`
        (an absent id matches the options that have none). */
    method ToggleOptionsWithId(stringId: Maybe<string>, enabled: bool)
      requires Valid()
      modifies set o | o in options
      ensures forall k :: 0 <= k < |options| ==>
                options[k].enabled == (if old(options[k].id) == stringId then enabled else old(options[k].enabled))
      ensures forall k :: 0 <= k < |options| ==> options[k].id == old(options[k].id)
    {
      var k := 0;
      while k < |options|
        invariant 0 <= k <= |options|
        invariant forall m :: 0 <= m < |options| ==> options[m].id == old(options[m].id)
        invariant forall m :: 0 <= m < k ==>
                    options[m].enabled == (if old(options[m].id) == stringId then enabled else old(options[m].enabled))
        invariant forall m :: k <= m < |options| ==> options[m].enabled == old(options[m].enabled)
      {
        if options[k].id == stringId {
          options[k].enabled := enabled;
        }
        k := k + 1;
      }
    }

    /** The text form of this line, by variant.  Goto and exec lines do not
        override the default, which is the full name of their class. */
    method ToString() returns (s: string)
      ensures kind.DialogueKind? ==> s == DialogueString(kind.speaker, kind.text)
      ensures kind.OptionalKind? ==> s == OptionalString(options)
      ensures kind.GotoKind? ==> s == "DialogueSystem.GotoLine"
      ensures kind.ExecKind? ==> s == "DialogueSystem.ExecLine"
    {
      match kind
      case DialogueKind(speaker, text) =>
        s := DialogueString(speaker, text);
      case OptionalKind =>
        s := "OptionalLine";
        var k := 0;
        while k < |options|
          invariant 0 <= k <= |options|
          invariant s == OptionalString(options[..k])
        {
          assert options[..k + 1][..k] == options[..k];
          s := s + "\n" + OptionString(options[k].node, options[k].text);
          k := k + 1;
        }
        assert options[..|options|] == options;
      case GotoKind(_) =>
        s := "DialogueSystem.GotoLine";
      case ExecKind(_, _) =>
        s := "DialogueSystem.ExecLine";
    }
  }

  /** Filtering the enabled options distributes over concatenation: the
      filter keeps the key order of the options. */
  lemma {:induction false} EnabledOptionsAppend(a: seq<Option>, b: seq<Option>)
    ensures EnabledOptions(a + b) == EnabledOptions(a) + EnabledOptions(b)
    decreases |a|
  {
    if a != [] {
      assert (a + b)[1..] == a[1..] + b;
      EnabledOptionsAppend(a[1..], b);
    } else {
      assert a + b == b;
    }
  }

  /** The text of an option can be read back from its text form. */
  lemma OptionStringParts(node: string, text: string)
    ensures var s := OptionString(node, text);
            s[..3] == "-> " && s[3..3 + |text|] == text && s[|s| - |node|..] == node
            && s[3 + |text|..|s| - |node|] == " | "
  {
  }

  /** A dialogue line's speaker and text can be read back from its text
      form. */
  lemma DialogueStringParts(speaker: string, text: string)
    ensures var s := DialogueString(speaker, text);
            s[..13] == "DialogueLine\n" && s[13..13 + |speaker|] == speaker
            && s[13 + |speaker|..15 + |speaker|] == ": " && s[15 + |speaker|..] == text
  {
  }

  /** A node: its lines in order. */
  class Node {
    var lines: seq<Line>

    /** A new node has no lines. */
    constructor ()
      ensures lines == []
    {
      lines := [];
    }

    /** Add a line at the end. */
    method AddLine(line: Line)
      modifies this
      ensures lines == old(lines) + [line]
      ensures GetLine(|old(lines)|) == Some(line)
      ensures forall i :: 0 <= i < |old(lines)| ==> GetLine(i) == old(GetLine(i))
    {
      lines := lines + [line];
    }

    /** Insert a line at a position from 0 to the number of lines; the lines
        from there on move up by one.  Any other position is out of range
        and changes nothing. */
    method InsertLine(index: int, line: Line) returns (r: Result<()>)
      modifies this
      ensures r.Ok? <==> 0 <= index <= |old(lines)|
      ensures r.Err? ==> r.error == ArgumentOutOfRange && lines == old(lines)
      ensures r.Ok? ==> lines == old(lines)[..index] + [line] + old(lines)[index..]
      ensures r.Ok? ==> GetLine(index) == Some(line)
    {
      if index < 0 || index > |lines| {
        return Err(ArgumentOutOfRange);
      }
      lines := lines[..index] + [line] + lines[index..];
      return Ok(());
    }

    /** The line at a position, or nothing when the position is out of
        range. */
    function GetLine(index: int): (r: Maybe<Line>)
      reads this
      ensures r.Some? <==> 0 <= index < |lines|
      ensures r.Some? ==> r.value == lines[index]
    {
      if index < 0 || index >= |lines| then None else Some(lines[index])
    }
  }
}
