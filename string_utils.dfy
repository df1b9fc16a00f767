/** The string helpers every parser of the dialogue system is built on:
    splitting a text on its first command (with escapes), the one-word test,
    directional substring search and a clamping substring. */
module StringUtils {
  import opened Wrappers
  import opened Strings
  import opened Commands

  /** The three parts a text is split into, and the command it was split on
      (`None` when the text holds no unescaped command). */
  datatype Split = Split(before: string, after: string, next: string, command: Maybe<Command>)

  /** The literal of a command that may be absent; empty when it is. */
  function Literal(command: Maybe<Command>): string {
    if command.Some? then command.value.literal else []
  }

  /** The first command of the list whose literal the text starts with. */
  function StartCommand(text: string, commands: seq<Command>): (r: Maybe<Command>)
    ensures r.Some? ==> r.value.literal <= text
  {
    if commands == [] then None
    else if commands[0].literal <= text then Some(commands[0])
    else StartCommand(text, commands[1..])
  }

  /** The command found is the first of the list, in list order, whose
      literal the text starts with: every command before it fails to
      match.  When none is found, the text starts with no literal of the
      list. */
  lemma {:induction false} StartCommandFinds(text: string, commands: seq<Command>)
    ensures var r := StartCommand(text, commands);
            && (r.Some? ==> r.value in commands)
            && (r.Some? ==> exists k :: 0 <= k < |commands| && commands[k] == r.value &&
                                       forall j :: 0 <= j < k ==> !(commands[j].literal <= text))
            && (r.None? ==> forall i :: 0 <= i < |commands| ==> !(commands[i].literal <= text))
  {
    if commands != [] && !(commands[0].literal <= text) {
      var tail := commands[1..];
      StartCommandFinds(text, tail);
      var r := StartCommand(text, commands);
      if r.Some? {
        var k' :| 0 <= k' < |tail| && tail[k'] == r.value && forall j :: 0 <= j < k' ==> !(tail[j].literal <= text);
        assert commands[k' + 1] == r.value;
        forall j | 0 <= j < k' + 1
          ensures !(commands[j].literal <= text)
        {
          if j > 0 {
            assert commands[j] == tail[j - 1];
          }
        }
      } else {
        forall i | 0 < i < |commands|
          ensures !(commands[i].literal <= text)
        {
          assert commands[i] == tail[i - 1];
        }
      }
    } else if commands != [] {
      assert commands[0] == StartCommand(text, commands).value;
    }
  }

  /** The commands searched for: the given ones, plus the escape at the end
      when the list does not already hold it. */
  function SearchList(escape: Command, commands: seq<Command>): (r: seq<Command>)
    ensures escape in r
    ensures forall c :: c in r <==> c in commands || c == escape
  {
    if escape in commands then commands else commands + [escape]
  }

  function AppendTo(acc: Split, mode: nat, s: string): Split {
    if mode == 0 then acc.(before := acc.before + s)
    else if mode == 1 then acc.(after := acc.after + s)
    else acc.(next := acc.next + s)
  }

  /** Where the scan of `SplitCommand` stands: the position in the text,
      the part being filled (0 before the first command, 1 after it, 2 once
      the rest of the text has gone to `next`) and the parts so far. */
  datatype ScanState = ScanState(index: nat, mode: nat, parts: Split)

  predicate Running(text: string, st: ScanState) {
    st.index <= |text| && st.mode <= 2 && (st.mode == 2 ==> st.index == |text|)
  }

  /** One turn of the scanning loop at a position inside the text: an
      escape copies the command it escapes, the first command switches to
      `after`, the second sends the whole rest to `next`, and any other
      character is copied. */
  function Step(text: string, escape: Command, search: seq<Command>, st: ScanState): (r: Result<ScanState>)
    requires st.index < |text| && st.mode <= 1
    requires |escape.literal| > 0
    ensures r.Ok? ==> Running(text, r.value)
    ensures r.Ok? ==> st.index < r.value.index || (st.index == r.value.index && st.mode < r.value.mode)
  {
    var split := text[st.index..];
    match StartCommand(split, search)
    case None =>
      Ok(ScanState(st.index + 1, st.mode, AppendTo(st.parts, st.mode, [text[st.index]])))
    case Some(found) =>
      if found == escape then
        match StartCommand(split[|escape.literal|..], search)
        case None => Err(UnknownEscape)
        case Some(escaped) =>
          Ok(ScanState(st.index + |escape.literal| + |escaped.literal|, st.mode,
                       AppendTo(st.parts, st.mode, escaped.literal)))
      else if st.mode == 0 then
        Ok(ScanState(st.index + |found.literal|, 1, st.parts.(command := Some(found))))
      else
        Ok(ScanState(|text|, 2, AppendTo(st.parts, 2, split)))
  }

  /** The scan from a state to the end of the text. */
  function Scan(text: string, escape: Command, search: seq<Command>, st: ScanState): Result<Split>
    requires Running(text, st)
    requires |escape.literal| > 0
    decreases |text| - st.index, 2 - st.mode
  {
    if st.index == |text| then Ok(st.parts)
    else
      match Step(text, escape, search, st)
      case Err(e) => Err(e)
      case Ok(next) => Scan(text, escape, search, next)
  }

  const Unsplit := Split([], [], [], None)

  /** `SplitCommand` on a non-null text. */
  function SplitText(text: string, escape: Command, commands: seq<Command>): Result<Split>
    requires |escape.literal| > 0
  {
    Scan(text, escape, SearchList(escape, commands), ScanState(0, 0, Unsplit))
  }

  /** Split `text` on the first unescaped command of `allCommands`.  Escaped
      commands are copied without their escape into the part being built;
      the text from the second command on is returned untouched in `next`. */
  method SplitCommand(text: Maybe<string>, escape: Command, allCommands: seq<Command>)
    returns (r: Result<Split>)
    requires |escape.literal| > 0
    ensures text.None? ==> r == Err(ArgumentNull)
    ensures text.Some? ==> r == SplitText(text.value, escape, allCommands)
  {
    if text.None? {
      return Err(ArgumentNull);
    }
    var t := text.value;
    var searchCommands := allCommands;
    if escape !in allCommands {
      searchCommands := searchCommands + [escape];
    }
    var builders := Split([], [], [], None);
    var builderIndex: nat := 0;
    var index: nat := 0;
    while index < |t|
      invariant Running(t, ScanState(index, builderIndex, builders))
      invariant Scan(t, escape, searchCommands, ScanState(index, builderIndex, builders))
                == SplitText(t, escape, allCommands)
      decreases |t| - index, 2 - builderIndex
    {
      var turn := ScanTurn(t, escape, searchCommands, index, builderIndex, builders);
      if turn.Err? {
        return Err(turn.error);
      }
      index, builderIndex, builders := turn.value.index, turn.value.mode, turn.value.parts;
    }
    return Ok(builders);
  }

  /** One turn of the loop of `SplitCommand`, on the part `builderIndex`
      being built.  The source has the loop body inline; it is a method of
      its own here so that the loop's invariant stays small. */
  method ScanTurn(t: string, escape: Command, searchCommands: seq<Command>,
                  index: nat, builderIndex: nat, builders: Split) returns (turn: Result<ScanState>)
    requires index < |t| && builderIndex <= 1 && |escape.literal| > 0
    ensures turn == Step(t, escape, searchCommands, ScanState(index, builderIndex, builders))
  {
    var split := t[index..];
    var found := StartCommand(split, searchCommands);
    if found.Some? {
      if found.value == escape {
        var escapeLength := |escape.literal|;
        var afterEscape := split[escapeLength..];
        var escapedCommand := StartCommand(afterEscape, searchCommands);
        if escapedCommand.None? {
          return Err(UnknownEscape);
        }
        var escapedString := escapedCommand.value.literal;
        return Ok(ScanState(index + escapeLength + |escapedString|, builderIndex,
                            AppendTo(builders, builderIndex, escapedString)));
      } else if builderIndex == 0 {
        return Ok(ScanState(index + |found.value.literal|, builderIndex + 1, builders.(command := found)));
      } else {
        return Ok(ScanState(|t|, builderIndex + 1, AppendTo(builders, builderIndex + 1, split)));
      }
    } else {
      return Ok(ScanState(index + 1, builderIndex, AppendTo(builders, builderIndex, [t[index]])));
    }
  }

  // ---------------------------------------------------------------------
  // What a split promises
  // ---------------------------------------------------------------------

  /** The shape of the parts in each mode. */
  predicate ModeShape(parts: Split, mode: nat) {
    && (mode == 0 ==> parts.command.None? && parts.after == [] && parts.next == [])
    && (mode == 1 ==> parts.command.Some? && parts.next == [])
    && (mode == 2 ==> parts.command.Some?)
  }

  function Consumed(parts: Split): nat {
    |parts.before| + |Literal(parts.command)| + |parts.after| + |parts.next|
  }

  /** `next` is the untouched tail of the text and starts with a command
      other than the escape. */
  predicate TailStartingWithCommand(text: string, escape: Command, search: seq<Command>, next: string) {
    && |next| <= |text| && next == text[|text| - |next|..]
    && exists c :: c in search && c != escape && c.literal <= next
  }

  /** What every successful split satisfies. */
  predicate WellFormedSplit(text: string, escape: Command, search: seq<Command>, s: Split) {
    && (s.command.Some? ==> s.command.value in search && s.command.value != escape)
    && (s.command.None? ==> s.after == [] && s.next == [])
    && Consumed(s) <= |text|
    && (s.next != [] ==> TailStartingWithCommand(text, escape, search, s.next))
  }

  /** What holds of every state the scan passes through. */
  predicate ScanInvariant(text: string, escape: Command, search: seq<Command>, st: ScanState) {
    && Running(text, st)
    && ModeShape(st.parts, st.mode)
    && (st.parts.command.Some? ==> st.parts.command.value in search && st.parts.command.value != escape)
    && Consumed(st.parts) <= st.index
    && (st.parts.next != [] ==> st.mode == 2 && TailStartingWithCommand(text, escape, search, st.parts.next))
  }

  lemma {:induction false} StepKeepsInvariant(text: string, escape: Command, search: seq<Command>, st: ScanState)
    requires st.index < |text| && st.mode <= 1 && |escape.literal| > 0
    requires ScanInvariant(text, escape, search, st)
    ensures Step(text, escape, search, st).Ok? ==> ScanInvariant(text, escape, search, Step(text, escape, search, st).value)
    ensures Step(text, escape, search, st).Err? ==> Step(text, escape, search, st).error == UnknownEscape
  {
    var split := text[st.index..];
    StartCommandFinds(split, search);
    match StartCommand(split, search)
    case None =>
    case Some(found) =>
      if found == escape {
        StartCommandFinds(split[|escape.literal|..], search);
        match StartCommand(split[|escape.literal|..], search)
        case None =>
        case Some(escaped) =>
      } else if st.mode == 1 {
        assert TailStartingWithCommand(text, escape, search, split);
      }
  }

  lemma {:induction false} ScanWellFormed(text: string, escape: Command, search: seq<Command>, st: ScanState)
    requires |escape.literal| > 0
    requires ScanInvariant(text, escape, search, st)
    ensures Scan(text, escape, search, st).Ok? ==>
              WellFormedSplit(text, escape, search, Scan(text, escape, search, st).value)
    ensures Scan(text, escape, search, st).Err? ==> Scan(text, escape, search, st).error == UnknownEscape
    decreases |text| - st.index, 2 - st.mode
  {
    if st.index < |text| {
      StepKeepsInvariant(text, escape, search, st);
      if Step(text, escape, search, st).Ok? {
        ScanWellFormed(text, escape, search, Step(text, escape, search, st).value);
      }
    }
  }

  /** A split names a command of the searched list that is not the escape;
      without a command, `after` and `next` are empty; the parts never
      outgrow the text; `next` is the untouched tail of the text and starts
      with a command.  The only failure is an unknown escape. */
  lemma {:induction false} SplitWellFormed(text: string, escape: Command, commands: seq<Command>)
    requires |escape.literal| > 0
    ensures SplitText(text, escape, commands).Ok? ==>
              WellFormedSplit(text, escape, SearchList(escape, commands), SplitText(text, escape, commands).value)
    ensures SplitText(text, escape, commands).Err? ==>
              SplitText(text, escape, commands).error == UnknownEscape
  {
    ScanWellFormed(text, escape, SearchList(escape, commands), ScanState(0, 0, Unsplit));
  }

  /** The escape literal does not occur in `text` from `index` on. */
  predicate NoEscapeFrom(text: string, escape: Command, index: nat) {
    forall i :: index <= i <= |text| ==> !OccursAt(text, escape.literal, i)
  }

  function Reassemble(s: Split): string {
    s.before + Literal(s.command) + s.after + s.next
  }

  lemma {:induction false} StepReassembles(text: string, escape: Command, search: seq<Command>, st: ScanState)
    requires st.index < |text| && st.mode <= 1 && |escape.literal| > 0
    requires ModeShape(st.parts, st.mode)
    requires NoEscapeFrom(text, escape, st.index)
    requires Reassemble(st.parts) == text[..st.index]
    ensures Step(text, escape, search, st).Ok?
    ensures ModeShape(Step(text, escape, search, st).value.parts, Step(text, escape, search, st).value.mode)
    ensures Reassemble(Step(text, escape, search, st).value.parts) == text[..Step(text, escape, search, st).value.index]
  {
    var index, mode, parts := st.index, st.mode, st.parts;
    var split := text[index..];
    match StartCommand(split, search)
    case None =>
      assert text[..index + 1] == text[..index] + [text[index]];
    case Some(found) =>
      if found == escape {
        assert OccursAt(text, escape.literal, index) by {
          assert split[..|escape.literal|] == text[index..index + |escape.literal|];
        }
        assert false;
      } else if mode == 0 {
        assert parts.before == text[..index];
        assert text[..index + |found.literal|] == text[..index] + found.literal by {
          assert split[..|found.literal|] == found.literal;
        }
      } else {
        assert text == text[..index] + split;
      }
  }

  lemma {:induction false} ScanReassembles(text: string, escape: Command, search: seq<Command>, st: ScanState)
    requires Running(text, st) && |escape.literal| > 0
    requires ModeShape(st.parts, st.mode)
    requires NoEscapeFrom(text, escape, st.index)
    requires Reassemble(st.parts) == text[..st.index]
    ensures Scan(text, escape, search, st).Ok?
    ensures Reassemble(Scan(text, escape, search, st).value) == text
    decreases |text| - st.index, 2 - st.mode
  {
    if st.index == |text| {
      assert text[..st.index] == text;
    } else {
      StepReassembles(text, escape, search, st);
      ScanReassembles(text, escape, search, Step(text, escape, search, st).value);
    }
  }

  /** Without escapes, splitting loses nothing: before, the command, after
      and next glued back together are the text. */
  lemma {:induction false} SplitReassembles(text: string, escape: Command, commands: seq<Command>)
    requires |escape.literal| > 0
    requires NoEscapeFrom(text, escape, 0)
    ensures SplitText(text, escape, commands).Ok?
    ensures Reassemble(SplitText(text, escape, commands).value) == text
  {
    ScanReassembles(text, escape, SearchList(escape, commands), ScanState(0, 0, Unsplit));
  }

  // ---------------------------------------------------------------------
  // The split as a grammar
  // ---------------------------------------------------------------------

  /** One piece of a part: a character copied as it is, or an escape
      followed by the command it escapes. */
  datatype Unit = Plain(ch: char) | Escaped(command: Command)

  /** How a piece is written in the text. */
  function RawOf(escape: Command, u: Unit): string {
    match u
    case Plain(ch) => [ch]
    case Escaped(c) => escape.literal + c.literal
  }

  /** What a piece contributes to its part: the escape is dropped. */
  function ResolvedOf(u: Unit): string {
    match u
    case Plain(ch) => [ch]
    case Escaped(c) => c.literal
  }

  function Raw(escape: Command, us: seq<Unit>): string
    decreases |us|
  {
    if us == [] then [] else RawOf(escape, us[0]) + Raw(escape, us[1..])
  }

  function Resolved(us: seq<Unit>): string
    decreases |us|
  {
    if us == [] then [] else ResolvedOf(us[0]) + Resolved(us[1..])
  }

  /** `text` starts with the piece `u`: a character at which no command
      starts, or the escape (found as the first matching command) followed
      by a command. */
  predicate UnitStarts(escape: Command, search: seq<Command>, text: string, u: Unit) {
    match u
    case Plain(ch) => text != [] && text[0] == ch && StartCommand(text, search).None?
    case Escaped(c) =>
      && StartCommand(text, search) == Some(escape)
      && |escape.literal| <= |text|
      && StartCommand(text[|escape.literal|..], search) == Some(c)
  }

  /** The pieces `us`, one after the other, start `text`. */
  predicate Lexes(escape: Command, search: seq<Command>, text: string, us: seq<Unit>)
    decreases |us|
  {
    us == [] ||
    (&& UnitStarts(escape, search, text, us[0])
     && |RawOf(escape, us[0])| <= |text|
     && Lexes(escape, search, text[|RawOf(escape, us[0])|..], us[1..]))
  }

  /** `text` is a run of pieces that resolves to `resolved`, followed by
      `rest`. */
  ghost predicate LexesTo(escape: Command, search: seq<Command>, text: string, resolved: string, rest: string) {
    exists us :: RunOf(escape, search, text, us, resolved, rest)
  }

  /** `text` starts with a command other than the escape. */
  predicate OpensCommand(escape: Command, search: seq<Command>, text: string) {
    StartCommand(text, search).Some? && StartCommand(text, search).value != escape
  }

  /** `text` starts with the escape, and no command follows it. */
  predicate BadEscape(escape: Command, search: seq<Command>, text: string) {
    && StartCommand(text, search) == Some(escape)
    && |escape.literal| <= |text|
    && StartCommand(text[|escape.literal|..], search).None?
  }

  /** The split `s` of `text`: a run of pieces (resolved into `before`); then,
      if the text goes on, a command `c` other than the escape; then a run of
      pieces (resolved into `after`); then `next`, which is empty or starts
      with a second command other than the escape and is not looked into. */
  ghost predicate SplitsAs(escape: Command, search: seq<Command>, text: string, s: Split) {
    match s.command
    case None => s.after == [] && s.next == [] && LexesTo(escape, search, text, s.before, [])
    case Some(c) => exists rest :: LexesTo(escape, search, text, s.before, rest) && AfterCommand(escape, search, rest, s, c)
  }

  /** A run of pieces of `text` reaches an escape that no command follows. */
  ghost predicate RunsIntoBadEscape(escape: Command, search: seq<Command>, text: string) {
    exists resolved, rest :: LexesTo(escape, search, text, resolved, rest) && BadEscape(escape, search, rest)
  }

  /** The split of `text` fails: the escape that no command follows comes
      before the first command, or between the first and the second. */
  ghost predicate Fails(escape: Command, search: seq<Command>, text: string) {
    || RunsIntoBadEscape(escape, search, text)
    || exists before, rest ::
         && LexesTo(escape, search, text, before, rest)
         && OpensCommand(escape, search, rest)
         && |StartCommand(rest, search).value.literal| <= |rest|
         && RunsIntoBadEscape(escape, search, rest[|StartCommand(rest, search).value.literal|..])
  }

  lemma {:induction false} AppendToTwice(parts: Split, mode: nat, a: string, b: string)
    ensures AppendTo(AppendTo(parts, mode, a), mode, b) == AppendTo(parts, mode, a + b)
  {
    if mode == 0 {
      assert parts.before + a + b == parts.before + (a + b);
    } else if mode == 1 {
      assert parts.after + a + b == parts.after + (a + b);
    } else {
      assert parts.next + a + b == parts.next + (a + b);
    }
  }

  /** The scan from `a` ends where the scan from `b` ends. */
  ghost predicate ScansAlike(text: string, escape: Command, search: seq<Command>, a: ScanState, b: ScanState)
    requires Running(text, a) && Running(text, b) && |escape.literal| > 0
  {
    Scan(text, escape, search, a) == Scan(text, escape, search, b)
  }

  lemma {:induction false} ScansAlikeTrans(text: string, escape: Command, search: seq<Command>, a: ScanState, b: ScanState, c: ScanState)
    requires Running(text, a) && Running(text, b) && Running(text, c) && |escape.literal| > 0
    requires ScansAlike(text, escape, search, a, b) && ScansAlike(text, escape, search, b, c)
    ensures ScansAlike(text, escape, search, a, c)
  {
  }

  /** The scan state once the piece `u` has been copied. */
  function Past(escape: Command, st: ScanState, u: Unit): ScanState {
    ScanState(st.index + |RawOf(escape, u)|, st.mode, AppendTo(st.parts, st.mode, ResolvedOf(u)))
  }

  /** A piece at the scan's position is copied, resolved, into the part
      being built. */
  lemma {:induction false} ScanUnit(text: string, escape: Command, search: seq<Command>, st: ScanState, u: Unit)
    requires Running(text, st) && st.mode <= 1 && |escape.literal| > 0
    requires UnitStarts(escape, search, text[st.index..], u)
    ensures st.index < |text| && Running(text, Past(escape, st, u))
    ensures Step(text, escape, search, st) == Ok(Past(escape, st, u))
  {
    var split := text[st.index..];
    assert split != [];
  }

  /** Each step of the scan from `st` copies the next piece of `us`. */
  ghost predicate StepsOver(text: string, escape: Command, search: seq<Command>, st: ScanState, us: seq<Unit>)
    decreases |us|
  {
    us == [] ||
    (&& st.index < |text| && st.mode <= 1 && |escape.literal| > 0
     && Step(text, escape, search, st) == Ok(Past(escape, st, us[0]))
     && StepsOver(text, escape, search, Past(escape, st, us[0]), us[1..]))
  }

  /** The scan steps over a run of pieces, one piece a step. */
  lemma {:induction false} RunStepsOver(text: string, escape: Command, search: seq<Command>, st: ScanState, us: seq<Unit>)
    requires Running(text, st) && st.mode <= 1 && |escape.literal| > 0
    requires Lexes(escape, search, text[st.index..], us)
    ensures StepsOver(text, escape, search, st, us)
    decreases |us|
  {
    if us != [] {
      var n := |RawOf(escape, us[0])|;
      ScanUnit(text, escape, search, st, us[0]);
      var mid := Past(escape, st, us[0]);
      assert text[st.index..][n..] == text[mid.index..];
      RunStepsOver(text, escape, search, mid, us[1..]);
    }
  }

  /** Stepping over a run of pieces copies them, resolved, into the part
      being built: the scan goes on from `t` as it would have from `st`. */
  lemma {:induction false} StepsOverScan(text: string, escape: Command, search: seq<Command>, st: ScanState,
                                         us: seq<Unit>, t: ScanState)
    requires Running(text, st) && st.mode <= 1 && |escape.literal| > 0
    requires StepsOver(text, escape, search, st, us)
    requires t == ScanState(st.index + |Raw(escape, us)|, st.mode, AppendTo(st.parts, st.mode, Resolved(us)))
    ensures Running(text, t)
    ensures ScansAlike(text, escape, search, st, t)
    decreases |us|
  {
    if us == [] {
      assert t == st;
    } else {
      var mid := Past(escape, st, us[0]);
      AppendToTwice(st.parts, st.mode, ResolvedOf(us[0]), Resolved(us[1..]));
      assert t == ScanState(mid.index + |Raw(escape, us[1..])|, st.mode, AppendTo(mid.parts, st.mode, Resolved(us[1..])));
      StepsOverScan(text, escape, search, mid, us[1..], t);
      ScansAlikeTrans(text, escape, search, st, mid, t);
    }
  }

  /** A command other than the escape, met before the first one: the scan
      records it and moves on to `after`. */
  lemma {:induction false} ScanFirstCommand(text: string, escape: Command, search: seq<Command>, st: ScanState, c: Command)
    requires Running(text, st) && st.mode == 0 && |escape.literal| > 0
    requires text[st.index..] != [] && StartCommand(text[st.index..], search) == Some(c) && c != escape
    ensures st.index + |c.literal| <= |text|
    ensures ScansAlike(text, escape, search, st, ScanState(st.index + |c.literal|, 1, st.parts.(command := Some(c))))
  {
    assert Step(text, escape, search, st) == Ok(ScanState(st.index + |c.literal|, 1, st.parts.(command := Some(c))));
  }

  /** A command other than the escape, met after the first one: the rest of
      the text goes to `next` and the scan ends with the parts `r`. */
  lemma {:induction false} ScanSecondCommand(text: string, escape: Command, search: seq<Command>, st: ScanState, r: Split)
    requires Running(text, st) && st.mode == 1 && |escape.literal| > 0
    requires text[st.index..] != [] && OpensCommand(escape, search, text[st.index..])
    requires r == AppendTo(st.parts, 2, text[st.index..])
    ensures Scan(text, escape, search, st) == Ok(r)
  {
    var next := ScanState(|text|, 2, r);
    assert Step(text, escape, search, st) == Ok(next);
  }

  /** An escape that no command follows ends the scan in failure. */
  lemma {:induction false} ScanBadEscape(text: string, escape: Command, search: seq<Command>, st: ScanState)
    requires Running(text, st) && st.mode <= 1 && |escape.literal| > 0
    requires BadEscape(escape, search, text[st.index..])
    ensures Scan(text, escape, search, st) == Err(UnknownEscape)
  {
    assert text[st.index..] != [];
    assert Step(text, escape, search, st) == Err(UnknownEscape);
  }

  /** `text` is the run of pieces `us`, which resolves to `resolved`,
      followed by `rest`. */
  ghost predicate RunOf(escape: Command, search: seq<Command>, text: string, us: seq<Unit>, resolved: string, rest: string) {
    Lexes(escape, search, text, us) && text == Raw(escape, us) + rest && Resolved(us) == resolved
  }

  /** The scan steps over a run that starts at its position; what follows
      the run is at the position the scan reaches. */
  lemma {:induction false} RunSteps(text: string, escape: Command, search: seq<Command>, st: ScanState,
                 us: seq<Unit>, resolved: string, rest: string)
    requires Running(text, st) && st.mode <= 1 && |escape.literal| > 0
    requires RunOf(escape, search, text[st.index..], us, resolved, rest)
    ensures StepsOver(text, escape, search, st, us)
    ensures st.index + |Raw(escape, us)| <= |text| && text[st.index + |Raw(escape, us)|..] == rest
  {
    RunStepsOver(text, escape, search, st, us);
    assert text[st.index..][|Raw(escape, us)|..] == rest;
  }

  /** What the grammar says after the first command. */
  ghost predicate AfterCommand(escape: Command, search: seq<Command>, rest: string, s: Split, c: Command) {
    && rest != [] && StartCommand(rest, search) == Some(c) && c != escape
    && |c.literal| <= |rest|
    && LexesTo(escape, search, rest[|c.literal|..], s.after, s.next)
    && (s.next == [] || OpensCommand(escape, search, s.next))
  }

  /** The scan from `a` ends in `r` when it reaches, through `b`, a state
      `c` from which it ends in `r`. */
  lemma {:induction false} ScanEndsVia(text: string, escape: Command, search: seq<Command>, a: ScanState, b: ScanState, c: ScanState,
                    r: Result<Split>)
    requires Running(text, a) && Running(text, b) && Running(text, c) && |escape.literal| > 0
    requires ScansAlike(text, escape, search, a, b) && ScansAlike(text, escape, search, b, c)
    requires Scan(text, escape, search, c) == r
    ensures Scan(text, escape, search, a) == r
  {
  }

  /** At the end of the text the scan returns the parts built. */
  lemma {:induction false} ScanAtEnd(text: string, escape: Command, search: seq<Command>, st: ScanState)
    requires Running(text, st) && st.index == |text| && |escape.literal| > 0
    ensures Scan(text, escape, search, st) == Ok(st.parts)
  {
  }

  /** The scan from the first command through the pieces `us` that follow
      it: from `first` it goes on as from `filled`, once the command is
      recorded (`started`) and the pieces are copied into `after`. */
  lemma {:induction false} ScanThroughAfter(text: string, escape: Command, search: seq<Command>, c: Command, us: seq<Unit>,
                         first: ScanState, started: ScanState, filled: ScanState)
    requires Running(text, first) && first.mode == 0 && |escape.literal| > 0
    requires text[first.index..] != [] && StartCommand(text[first.index..], search) == Some(c) && c != escape
    requires started == ScanState(first.index + |c.literal|, 1, first.parts.(command := Some(c)))
    requires StepsOver(text, escape, search, started, us)
    requires filled == ScanState(started.index + |Raw(escape, us)|, 1, AppendTo(started.parts, 1, Resolved(us)))
    ensures Running(text, filled)
    ensures ScansAlike(text, escape, search, first, filled)
  {
    ScanFirstCommand(text, escape, search, first, c);
    StepsOverScan(text, escape, search, started, us, filled);
    ScansAlikeTrans(text, escape, search, first, started, filled);
  }

  /** The scan from the first command on, when the pieces `us` follow it and
      then `next`, empty or opening a second command. */
  lemma {:induction false} ScanAfterCommand(text: string, escape: Command, search: seq<Command>, c: Command, us: seq<Unit>,
                         first: ScanState, started: ScanState, filled: ScanState, s: Split)
    requires Running(text, first) && first.mode == 0 && |escape.literal| > 0
    requires text[first.index..] != [] && StartCommand(text[first.index..], search) == Some(c) && c != escape
    requires started == ScanState(first.index + |c.literal|, 1, first.parts.(command := Some(c)))
    requires StepsOver(text, escape, search, started, us)
    requires filled == ScanState(started.index + |Raw(escape, us)|, 1, AppendTo(started.parts, 1, Resolved(us)))
    requires filled.index <= |text|
    requires s == AppendTo(filled.parts, 2, text[filled.index..])
    requires text[filled.index..] == [] || OpensCommand(escape, search, text[filled.index..])
    ensures Scan(text, escape, search, first) == Ok(s)
  {
    ScanThroughAfter(text, escape, search, c, us, first, started, filled);
    if text[filled.index..] != [] {
      ScanSecondCommand(text, escape, search, filled, s);
    } else {
      assert s == filled.parts;
    }
  }

  /** The scan from the first command on, when the pieces `us` follow it and
      then an escape that no command follows. */
  lemma {:induction false} ScanAfterCommandFails(text: string, escape: Command, search: seq<Command>, c: Command, us: seq<Unit>,
                              first: ScanState, started: ScanState, filled: ScanState)
    requires Running(text, first) && first.mode == 0 && |escape.literal| > 0
    requires text[first.index..] != [] && StartCommand(text[first.index..], search) == Some(c) && c != escape
    requires started == ScanState(first.index + |c.literal|, 1, first.parts.(command := Some(c)))
    requires StepsOver(text, escape, search, started, us)
    requires filled == ScanState(started.index + |Raw(escape, us)|, 1, AppendTo(started.parts, 1, Resolved(us)))
    requires filled.index <= |text|
    requires BadEscape(escape, search, text[filled.index..])
    ensures Scan(text, escape, search, first) == Err(UnknownEscape)
  {
    ScanThroughAfter(text, escape, search, c, us, first, started, filled);
    ScanBadEscape(text, escape, search, filled);
  }

  /** A run at the start of the text: the scan copies it into `before` and
      goes on, still before any command, from `first`, where the rest is. */
  lemma {:induction false} ScanLeadRun(text: string, escape: Command, search: seq<Command>, us: seq<Unit>, resolved: string, rest: string,
                    first: ScanState)
    requires |escape.literal| > 0
    requires RunOf(escape, search, text, us, resolved, rest)
    requires first == ScanState(|Raw(escape, us)|, 0, Split(resolved, [], [], None))
    ensures Running(text, first) && text[first.index..] == rest
    ensures ScansAlike(text, escape, search, ScanState(0, 0, Unsplit), first)
  {
    var st0 := ScanState(0, 0, Unsplit);
    assert text[st0.index..] == text;
    RunSteps(text, escape, search, st0, us, resolved, rest);
    assert first == ScanState(st0.index + |Raw(escape, us)|, 0, AppendTo(st0.parts, 0, Resolved(us)));
    StepsOverScan(text, escape, search, st0, us, first);
  }

  /** A run just after the first command: the scan steps over it, from
      `started` to `filled`, where the rest is. */
  lemma {:induction false} ScanRunAfter(text: string, escape: Command, search: seq<Command>, us: seq<Unit>, resolved: string, rest: string,
                     started: ScanState, filled: ScanState)
    requires |escape.literal| > 0 && Running(text, started) && started.mode == 1
    requires RunOf(escape, search, text[started.index..], us, resolved, rest)
    requires filled == ScanState(started.index + |Raw(escape, us)|, 1, AppendTo(started.parts, 1, Resolved(us)))
    ensures StepsOver(text, escape, search, started, us)
    ensures Running(text, filled) && text[filled.index..] == rest
  {
    RunSteps(text, escape, search, started, us, resolved, rest);
  }

  /** A text that is one run: the scan returns it, resolved, as `before`. */
  lemma {:induction false} SplitsAsOkPlain(text: string, escape: Command, search: seq<Command>, us: seq<Unit>, s: Split)
    requires |escape.literal| > 0
    requires RunOf(escape, search, text, us, s.before, []) && s == Split(s.before, [], [], None)
    ensures Scan(text, escape, search, ScanState(0, 0, Unsplit)) == Ok(s)
  {
    var first := ScanState(|Raw(escape, us)|, 0, Split(s.before, [], [], None));
    ScanLeadRun(text, escape, search, us, s.before, [], first);
    ScanAtEnd(text, escape, search, first);
  }

  /** From the first command `c` on, a run and then `s.next`: the scan
      returns the split `s`. */
  lemma {:induction false} ScanFromCommand(text: string, escape: Command, search: seq<Command>, s: Split, c: Command, us: seq<Unit>,
                        first: ScanState)
    requires Running(text, first) && first.mode == 0 && |escape.literal| > 0
    requires first.parts == Split(s.before, [], [], None) && s.command == Some(c)
    requires text[first.index..] != [] && StartCommand(text[first.index..], search) == Some(c) && c != escape
    requires first.index + |c.literal| <= |text|
    requires RunOf(escape, search, text[first.index + |c.literal|..], us, s.after, s.next)
    requires s.next == [] || OpensCommand(escape, search, s.next)
    ensures Scan(text, escape, search, first) == Ok(s)
  {
    var started := ScanState(first.index + |c.literal|, 1, first.parts.(command := Some(c)));
    var filled := ScanState(started.index + |Raw(escape, us)|, 1, AppendTo(started.parts, 1, Resolved(us)));
    ScanRunAfter(text, escape, search, us, s.after, s.next, started, filled);
    assert s == AppendTo(filled.parts, 2, text[filled.index..]);
    ScanAfterCommand(text, escape, search, c, us, first, started, filled, s);
  }

  /** A run, the first command `c`, a run and `s.next`: the scan returns
      the split `s`. */
  lemma {:induction false} SplitsAsOkCommand(text: string, escape: Command, search: seq<Command>, s: Split, c: Command, rest: string,
                          us1: seq<Unit>, us2: seq<Unit>)
    requires |escape.literal| > 0 && s.command == Some(c)
    requires RunOf(escape, search, text, us1, s.before, rest)
    requires rest != [] && StartCommand(rest, search) == Some(c) && c != escape && |c.literal| <= |rest|
    requires RunOf(escape, search, rest[|c.literal|..], us2, s.after, s.next)
    requires s.next == [] || OpensCommand(escape, search, s.next)
    ensures Scan(text, escape, search, ScanState(0, 0, Unsplit)) == Ok(s)
  {
    var first := ScanState(|Raw(escape, us1)|, 0, Split(s.before, [], [], None));
    ScanLeadRun(text, escape, search, us1, s.before, rest, first);
    assert text[first.index + |c.literal|..] == rest[|c.literal|..];
    ScanFromCommand(text, escape, search, s, c, us2, first);
  }

  /** A split that follows the grammar is the one `SplitCommand` returns. */
  lemma {:induction false} SplitsAsOk(text: string, escape: Command, commands: seq<Command>, s: Split)
    requires |escape.literal| > 0
    requires SplitsAs(escape, SearchList(escape, commands), text, s)
    ensures SplitText(text, escape, commands) == Ok(s)
  {
    var search := SearchList(escape, commands);
    match s.command
    case None =>
      var us :| RunOf(escape, search, text, us, s.before, []);
      SplitsAsOkPlain(text, escape, search, us, s);
    case Some(c) =>
      var rest :| LexesTo(escape, search, text, s.before, rest) && AfterCommand(escape, search, rest, s, c);
      var us1 :| RunOf(escape, search, text, us1, s.before, rest);
      var us2 :| RunOf(escape, search, rest[|c.literal|..], us2, s.after, s.next);
      SplitsAsOkCommand(text, escape, search, s, c, rest, us1, us2);
  }

  /** A run, then an escape that no command follows: the scan fails. */
  lemma {:induction false} FailsBeforeCommand(text: string, escape: Command, search: seq<Command>, us: seq<Unit>, resolved: string,
                           rest: string)
    requires |escape.literal| > 0
    requires RunOf(escape, search, text, us, resolved, rest) && BadEscape(escape, search, rest)
    ensures Scan(text, escape, search, ScanState(0, 0, Unsplit)) == Err(UnknownEscape)
  {
    var first := ScanState(|Raw(escape, us)|, 0, Split(resolved, [], [], None));
    ScanLeadRun(text, escape, search, us, resolved, rest, first);
    ScanBadEscape(text, escape, search, first);
  }

  /** A run, the first command `c`, a run, then an escape that no command
      follows: the scan fails. */
  lemma {:induction false} FailsAfterCommand(text: string, escape: Command, search: seq<Command>, c: Command,
                          us1: seq<Unit>, before: string, rest: string, us2: seq<Unit>, after: string, rest2: string)
    requires |escape.literal| > 0
    requires RunOf(escape, search, text, us1, before, rest)
    requires rest != [] && StartCommand(rest, search) == Some(c) && c != escape && |c.literal| <= |rest|
    requires RunOf(escape, search, rest[|c.literal|..], us2, after, rest2) && BadEscape(escape, search, rest2)
    ensures Scan(text, escape, search, ScanState(0, 0, Unsplit)) == Err(UnknownEscape)
  {
    var first := ScanState(|Raw(escape, us1)|, 0, Split(before, [], [], None));
    ScanLeadRun(text, escape, search, us1, before, rest, first);
    FailsFromCommand(text, escape, search, c, rest, us2, after, rest2, first);
  }

  /** From the first command `c`, a run, then an escape that no command
      follows: the scan fails. */
  lemma {:induction false} FailsFromCommand(text: string, escape: Command, search: seq<Command>, c: Command,
                                            lead: string, us: seq<Unit>, after: string, rest: string, first: ScanState)
    requires Running(text, first) && first.mode == 0 && |escape.literal| > 0 && text[first.index..] == lead
    requires lead != [] && StartCommand(lead, search) == Some(c) && c != escape && |c.literal| <= |lead|
    requires RunOf(escape, search, lead[|c.literal|..], us, after, rest) && BadEscape(escape, search, rest)
    ensures Scan(text, escape, search, first) == Err(UnknownEscape)
  {
    assert text[first.index + |c.literal|..] == lead[|c.literal|..];
    var started := ScanState(first.index + |c.literal|, 1, first.parts.(command := Some(c)));
    var filled := ScanState(started.index + |Raw(escape, us)|, 1, AppendTo(started.parts, 1, Resolved(us)));
    ScanRunAfter(text, escape, search, us, after, rest, started, filled);
    ScanAfterCommandFails(text, escape, search, c, us, first, started, filled);
  }

  /** A text that runs into an escape no command follows fails to split. */
  lemma {:induction false} FailsErr(text: string, escape: Command, commands: seq<Command>)
    requires |escape.literal| > 0
    requires Fails(escape, SearchList(escape, commands), text)
    ensures SplitText(text, escape, commands) == Err(UnknownEscape)
  {
    var search := SearchList(escape, commands);
    if RunsIntoBadEscape(escape, search, text) {
      var resolved, rest :| LexesTo(escape, search, text, resolved, rest) && BadEscape(escape, search, rest);
      var us :| RunOf(escape, search, text, us, resolved, rest);
      FailsBeforeCommand(text, escape, search, us, resolved, rest);
    } else {
      var before, rest :| && LexesTo(escape, search, text, before, rest)
                          && OpensCommand(escape, search, rest)
                          && |StartCommand(rest, search).value.literal| <= |rest|
                          && RunsIntoBadEscape(escape, search, rest[|StartCommand(rest, search).value.literal|..]);
      var c := StartCommand(rest, search).value;
      var us1 :| RunOf(escape, search, text, us1, before, rest);
      var after, rest2 :| LexesTo(escape, search, rest[|c.literal|..], after, rest2) && BadEscape(escape, search, rest2);
      var us2 :| RunOf(escape, search, rest[|c.literal|..], us2, after, rest2);
      FailsAfterCommand(text, escape, search, c, us1, before, rest, us2, after, rest2);
    }
  }

  /** A piece followed by a run is a run. */
  lemma {:induction false} LexesCons(escape: Command, search: seq<Command>, text: string, u: Unit, us: seq<Unit>, resolved: string, rest: string)
    requires UnitStarts(escape, search, text, u)
    requires |RawOf(escape, u)| <= |text| ==> RunOf(escape, search, text[|RawOf(escape, u)|..], us, resolved, rest)
    ensures |RawOf(escape, u)| <= |text|
    ensures RunOf(escape, search, text, [u] + us, ResolvedOf(u) + resolved, rest)
    ensures Resolved([u] + us) == ResolvedOf(u) + resolved
  {
    var n := |RawOf(escape, u)|;
    RawStarts(escape, search, text, u);
    assert RunOf(escape, search, text[n..], us, resolved, rest);
    LexesConsStep(escape, search, text, u, us);
    ConsUnfolds(escape, u, us);
    JoinAt(text, n, RawOf(escape, u), Raw(escape, us), rest);
  }

  lemma {:induction false} JoinAt(text: string, n: nat, a: string, b: string, c: string)
    requires n <= |text| && text[..n] == a && text[n..] == b + c
    ensures text == a + b + c
  {
    assert text == text[..n] + text[n..];
  }

  /** The raw text of a piece that starts `text` is a prefix of it. */
  lemma {:induction false} RawStarts(escape: Command, search: seq<Command>, text: string, u: Unit)
    requires UnitStarts(escape, search, text, u)
    ensures |RawOf(escape, u)| <= |text| && text[..|RawOf(escape, u)|] == RawOf(escape, u)
  {
    if u.Escaped? {
      var e := |escape.literal|;
      assert text[..e] == escape.literal;
      assert text[e..][..|u.command.literal|] == u.command.literal;
      assert text[..e + |u.command.literal|] == text[..e] + text[e..][..|u.command.literal|];
    }
  }

  lemma {:induction false} LexesConsStep(escape: Command, search: seq<Command>, text: string, u: Unit, us: seq<Unit>)
    requires UnitStarts(escape, search, text, u) && |RawOf(escape, u)| <= |text|
    requires Lexes(escape, search, text[|RawOf(escape, u)|..], us)
    ensures Lexes(escape, search, text, [u] + us)
  {
    assert ([u] + us)[0] == u && ([u] + us)[1..] == us;
  }

  lemma {:induction false} ConsUnfolds(escape: Command, u: Unit, us: seq<Unit>)
    ensures Raw(escape, [u] + us) == RawOf(escape, u) + Raw(escape, us)
    ensures Resolved([u] + us) == ResolvedOf(u) + Resolved(us)
  {
    assert ([u] + us)[0] == u && ([u] + us)[1..] == us;
  }

  /** The longest run of pieces that starts `text`, and what follows it:
      nothing, a command other than the escape, or an escape that no
      command follows. */
  ghost function Lex(escape: Command, search: seq<Command>, text: string): (r: (seq<Unit>, string))
    requires |escape.literal| > 0
    ensures RunOf(escape, search, text, r.0, Resolved(r.0), r.1)
    ensures r.1 == [] || OpensCommand(escape, search, r.1) || BadEscape(escape, search, r.1)
    decreases |text|, 1
  {
    if text == [] then ([], [])
    else if StartCommand(text, search).None? then
      LexAfter(escape, search, text, Plain(text[0]))
    else if StartCommand(text, search).value != escape then ([], text)
    else if StartCommand(text[|escape.literal|..], search).None? then ([], text)
    else LexAfter(escape, search, text, Escaped(StartCommand(text[|escape.literal|..], search).value))
  }

  /** `Lex` past a piece at the start of the text. */
  ghost function LexAfter(escape: Command, search: seq<Command>, text: string, u: Unit): (r: (seq<Unit>, string))
    requires |escape.literal| > 0 && UnitStarts(escape, search, text, u)
    ensures RunOf(escape, search, text, r.0, Resolved(r.0), r.1)
    ensures r.1 == [] || OpensCommand(escape, search, r.1) || BadEscape(escape, search, r.1)
    decreases |text|, 0
  {
    var n := |RawOf(escape, u)|;
    var more := if n <= |text| then Lex(escape, search, text[n..]) else ([], []);
    LexesCons(escape, search, text, u, more.0, Resolved(more.0), more.1);
    ([u] + more.0, more.1)
  }

  /** Every text either splits by the grammar or fails by it. */
  lemma {:induction false} SplitOrFail(text: string, escape: Command, search: seq<Command>)
    requires |escape.literal| > 0
    ensures (exists s :: SplitsAs(escape, search, text, s)) || Fails(escape, search, text)
  {
    var (us1, rest1) := Lex(escape, search, text);
    assert LexesTo(escape, search, text, Resolved(us1), rest1);
    if rest1 == [] {
      assert SplitsAs(escape, search, text, Split(Resolved(us1), [], [], None));
    } else if BadEscape(escape, search, rest1) {
      assert RunsIntoBadEscape(escape, search, text);
    } else {
      var c := StartCommand(rest1, search).value;
      var tail := rest1[|c.literal|..];
      var (us2, rest2) := Lex(escape, search, tail);
      assert LexesTo(escape, search, tail, Resolved(us2), rest2);
      if rest2 == [] || OpensCommand(escape, search, rest2) {
        assert SplitsAs(escape, search, text, Split(Resolved(us1), Resolved(us2), rest2, Some(c)));
      } else {
        assert RunsIntoBadEscape(escape, search, tail);
      }
    }
  }

  /** `SplitCommand` answers by the grammar, both ways: it returns `s`
      exactly when `s` is the grammar's split of the text, and fails exactly
      when the text runs into an escape that no command follows before its
      second command.  So the text is cut at its first unescaped command,
      and `next` starts at its second. */
  lemma {:induction false} SplitTextMeans(text: string, escape: Command, commands: seq<Command>)
    requires |escape.literal| > 0
    ensures SplitText(text, escape, commands).Ok? ==>
              SplitsAs(escape, SearchList(escape, commands), text, SplitText(text, escape, commands).value)
    ensures forall s :: SplitsAs(escape, SearchList(escape, commands), text, s) ==> SplitText(text, escape, commands) == Ok(s)
    ensures SplitText(text, escape, commands).Err? <==> Fails(escape, SearchList(escape, commands), text)
  {
    var search := SearchList(escape, commands);
    forall s | SplitsAs(escape, search, text, s)
      ensures SplitText(text, escape, commands) == Ok(s)
    {
      SplitsAsOk(text, escape, commands, s);
    }
    if Fails(escape, search, text) {
      FailsErr(text, escape, commands);
    }
    SplitOrFail(text, escape, search);
  }

  /** A run cannot start where a command other than the escape starts:
      it is empty. */
  lemma {:induction false} RunAtCommand(escape: Command, search: seq<Command>, text: string,
                                        us: seq<Unit>, resolved: string, rest: string)
    requires OpensCommand(escape, search, text) && RunOf(escape, search, text, us, resolved, rest)
    ensures us == [] && resolved == [] && rest == text
  {
    if us != [] {
      assert false;
    }
  }

  /** A text that starts with a command other than the escape splits with
      nothing before the command, and the command is the one it starts
      with. */
  lemma {:induction false} SplitAtCommand(text: string, escape: Command, commands: seq<Command>)
    requires |escape.literal| > 0 && OpensCommand(escape, SearchList(escape, commands), text)
    requires SplitText(text, escape, commands).Ok?
    ensures SplitText(text, escape, commands).value.before == []
    ensures SplitText(text, escape, commands).value.command.Some? ==>
              SplitText(text, escape, commands).value.command == StartCommand(text, SearchList(escape, commands))
  {
    SplitTextMeans(text, escape, commands);
    var search := SearchList(escape, commands);
    var s := SplitText(text, escape, commands).value;
    match s.command
    case None =>
      var us :| RunOf(escape, search, text, us, s.before, []);
      RunAtCommand(escape, search, text, us, s.before, []);
    case Some(c) =>
      var rest :| LexesTo(escape, search, text, s.before, rest) && AfterCommand(escape, search, rest, s, c);
      var us :| RunOf(escape, search, text, us, s.before, rest);
      RunAtCommand(escape, search, text, us, s.before, rest);
  }

  /** What a split becomes when `p` is put in front of `before`. */
  function PrefixBefore(p: string, r: Result<Split>): Result<Split> {
    match r
    case Ok(s) => Ok(s.(before := p + s.before))
    case Err(e) => Err(e)
  }

  /** A piece at the start of the text goes, resolved, to the front of
      `before`; the rest of the text splits as it would alone. */
  lemma {:induction false} UnitCopied(text: string, escape: Command, commands: seq<Command>, u: Unit)
    requires |escape.literal| > 0
    requires UnitStarts(escape, SearchList(escape, commands), text, u)
    ensures |RawOf(escape, u)| <= |text|
    ensures SplitText(text, escape, commands)
            == PrefixBefore(ResolvedOf(u), SplitText(text[|RawOf(escape, u)|..], escape, commands))
  {
    var search := SearchList(escape, commands);
    LexesCons(escape, search, text, u, [], [], text[|RawOf(escape, u)|..]);
    var tail := text[|RawOf(escape, u)|..];
    SplitTextMeans(tail, escape, commands);
    match SplitText(tail, escape, commands)
    case Ok(s) =>
      SplitsAsCons(escape, search, text, u, s);
      SplitsAsOk(text, escape, commands, s.(before := ResolvedOf(u) + s.before));
    case Err(e) =>
      SplitWellFormed(tail, escape, commands);
      FailsCons(escape, search, text, u);
      FailsErr(text, escape, commands);
  }

  /** A piece in front of a text that splits by the grammar: the split
      gains the piece, resolved, at the front of `before`. */
  lemma {:induction false} SplitsAsCons(escape: Command, search: seq<Command>, text: string, u: Unit, s: Split)
    requires UnitStarts(escape, search, text, u) && |RawOf(escape, u)| <= |text|
    requires SplitsAs(escape, search, text[|RawOf(escape, u)|..], s)
    ensures SplitsAs(escape, search, text, s.(before := ResolvedOf(u) + s.before))
  {
    var tail := text[|RawOf(escape, u)|..];
    match s.command
    case None =>
      var us :| RunOf(escape, search, tail, us, s.before, []);
      SplitsAsConsPlain(escape, search, text, u, us, s);
    case Some(c) =>
      var rest :| LexesTo(escape, search, tail, s.before, rest) && AfterCommand(escape, search, rest, s, c);
      var us :| RunOf(escape, search, tail, us, s.before, rest);
      var us2 :| RunOf(escape, search, rest[|c.literal|..], us2, s.after, s.next);
      SplitsAsConsCommand(escape, search, text, u, s, c, rest, us, us2);
  }

  lemma {:induction false} SplitsAsConsPlain(escape: Command, search: seq<Command>, text: string, u: Unit, us: seq<Unit>, s: Split)
    requires UnitStarts(escape, search, text, u) && |RawOf(escape, u)| <= |text|
    requires RunOf(escape, search, text[|RawOf(escape, u)|..], us, s.before, [])
    requires s.command == None && s.after == [] && s.next == []
    ensures SplitsAs(escape, search, text, s.(before := ResolvedOf(u) + s.before))
  {
    LexesCons(escape, search, text, u, us, s.before, []);
    assert RunOf(escape, search, text, [u] + us, ResolvedOf(u) + s.before, []);
  }

  lemma {:induction false} SplitsAsConsCommand(escape: Command, search: seq<Command>, text: string, u: Unit, s: Split, c: Command,
                            rest: string, us: seq<Unit>, us2: seq<Unit>)
    requires UnitStarts(escape, search, text, u) && |RawOf(escape, u)| <= |text|
    requires RunOf(escape, search, text[|RawOf(escape, u)|..], us, s.before, rest)
    requires s.command == Some(c)
    requires rest != [] && StartCommand(rest, search) == Some(c) && c != escape && |c.literal| <= |rest|
    requires RunOf(escape, search, rest[|c.literal|..], us2, s.after, s.next)
    requires s.next == [] || OpensCommand(escape, search, s.next)
    ensures SplitsAs(escape, search, text, s.(before := ResolvedOf(u) + s.before))
  {
    LexesCons(escape, search, text, u, us, s.before, rest);
    var s' := s.(before := ResolvedOf(u) + s.before);
    assert RunOf(escape, search, text, [u] + us, s'.before, rest);
    assert RunOf(escape, search, rest[|c.literal|..], us2, s'.after, s'.next);
    assert AfterCommand(escape, search, rest, s', c);
  }

  /** A piece in front of a text that fails by the grammar: the longer text
      fails too. */
  lemma {:induction false} FailsCons(escape: Command, search: seq<Command>, text: string, u: Unit)
    requires UnitStarts(escape, search, text, u) && |RawOf(escape, u)| <= |text|
    requires Fails(escape, search, text[|RawOf(escape, u)|..])
    ensures Fails(escape, search, text)
  {
    var tail := text[|RawOf(escape, u)|..];
    if RunsIntoBadEscape(escape, search, tail) {
      var resolved, rest :| LexesTo(escape, search, tail, resolved, rest) && BadEscape(escape, search, rest);
      var us :| RunOf(escape, search, tail, us, resolved, rest);
      FailsConsEarly(escape, search, text, u, us, resolved, rest);
    } else {
      var before, rest :| && LexesTo(escape, search, tail, before, rest)
                          && OpensCommand(escape, search, rest)
                          && |StartCommand(rest, search).value.literal| <= |rest|
                          && RunsIntoBadEscape(escape, search, rest[|StartCommand(rest, search).value.literal|..]);
      var us :| RunOf(escape, search, tail, us, before, rest);
      FailsConsLate(escape, search, text, u, us, before, rest);
    }
  }

  lemma {:induction false} FailsConsEarly(escape: Command, search: seq<Command>, text: string, u: Unit, us: seq<Unit>,
                       resolved: string, rest: string)
    requires UnitStarts(escape, search, text, u) && |RawOf(escape, u)| <= |text|
    requires RunOf(escape, search, text[|RawOf(escape, u)|..], us, resolved, rest) && BadEscape(escape, search, rest)
    ensures RunsIntoBadEscape(escape, search, text)
  {
    LexesCons(escape, search, text, u, us, resolved, rest);
    assert RunOf(escape, search, text, [u] + us, ResolvedOf(u) + resolved, rest);
    assert LexesTo(escape, search, text, ResolvedOf(u) + resolved, rest);
  }

  lemma {:induction false} FailsConsLate(escape: Command, search: seq<Command>, text: string, u: Unit, us: seq<Unit>,
                      before: string, rest: string)
    requires UnitStarts(escape, search, text, u) && |RawOf(escape, u)| <= |text|
    requires RunOf(escape, search, text[|RawOf(escape, u)|..], us, before, rest)
    requires OpensCommand(escape, search, rest) && |StartCommand(rest, search).value.literal| <= |rest|
    requires RunsIntoBadEscape(escape, search, rest[|StartCommand(rest, search).value.literal|..])
    ensures Fails(escape, search, text)
  {
    LexesCons(escape, search, text, u, us, before, rest);
    assert RunOf(escape, search, text, [u] + us, ResolvedOf(u) + before, rest);
    assert LexesTo(escape, search, text, ResolvedOf(u) + before, rest);
  }

  /** An escape followed by a command `c` (the escape being the first
      command the text starts with) puts the literal of `c`, without the
      escape, at the front of `before`, and the split goes on after `c` as
      if the text started there. */
  lemma {:induction false} EscapeCopiesCommand(text: string, escape: Command, commands: seq<Command>, c: Command)
    requires |escape.literal| > 0
    requires StartCommand(text, SearchList(escape, commands)) == Some(escape)
    requires StartCommand(text[|escape.literal|..], SearchList(escape, commands)) == Some(c)
    ensures |escape.literal| + |c.literal| <= |text|
    ensures SplitText(text, escape, commands)
            == PrefixBefore(c.literal, SplitText(text[|escape.literal| + |c.literal|..], escape, commands))
  {
    var u := Escaped(c);
    assert UnitStarts(escape, SearchList(escape, commands), text, u);
    assert |RawOf(escape, u)| == |escape.literal| + |c.literal|;
    CopiedAs(text, escape, commands, u, |escape.literal| + |c.literal|, c.literal);
  }

  /** `UnitCopied`, with the length of the piece and its resolved text
      given as `n` and `p`. */
  lemma {:induction false} CopiedAs(text: string, escape: Command, commands: seq<Command>, u: Unit, n: nat, p: string)
    requires |escape.literal| > 0
    requires UnitStarts(escape, SearchList(escape, commands), text, u)
    requires n == |RawOf(escape, u)| && p == ResolvedOf(u)
    ensures n <= |text|
    ensures SplitText(text, escape, commands) == PrefixBefore(p, SplitText(text[n..], escape, commands))
  {
    UnitCopied(text, escape, commands, u);
  }

  /** A character at which no command starts is copied to the front of
      `before`. */
  lemma {:induction false} PlainCharCopied(text: string, escape: Command, commands: seq<Command>)
    requires |escape.literal| > 0
    requires text != [] && StartCommand(text, SearchList(escape, commands)).None?
    ensures SplitText(text, escape, commands) == PrefixBefore([text[0]], SplitText(text[1..], escape, commands))
  {
    UnitCopied(text, escape, commands, Plain(text[0]));
  }

  /** A piece is written as what it resolves to unless it is escaped. */
  lemma {:induction false} PlainRunReassembles(escape: Command, search: seq<Command>, text: string, us: seq<Unit>)
    requires |escape.literal| > 0 && Lexes(escape, search, text, us)
    requires forall i :: 0 <= i < |Raw(escape, us)| ==> !OccursAt(text, escape.literal, i)
    ensures Raw(escape, us) == Resolved(us)
    decreases |us|
  {
    if us != [] {
      var u := us[0];
      if u.Escaped? {
        assert text[..|escape.literal|] == escape.literal;
        assert OccursAt(text, escape.literal, 0);
        assert false;
      }
      var tail := text[1..];
      forall i | 0 <= i < |Raw(escape, us[1..])|
        ensures !OccursAt(tail, escape.literal, i)
      {
        OccursShift(text, 1, escape.literal, i);
      }
      PlainRunReassembles(escape, search, tail, us[1..]);
    }
  }

  /** An occurrence in a tail of the text is an occurrence in the text. */
  lemma {:induction false} OccursShift(text: string, offset: nat, search: string, i: int)
    requires offset <= |text|
    ensures OccursAt(text[offset..], search, i) ==> OccursAt(text, search, offset + i)
  {
    if OccursAt(text[offset..], search, i) {
      assert text[offset + i..offset + i + |search|] == text[offset..][i..i + |search|];
    }
  }

  /** A grammar split loses nothing when the escape does not occur before
      `next`. */
  lemma {:induction false} SplitsAsReassembles(escape: Command, search: seq<Command>, text: string, s: Split)
    requires |escape.literal| > 0 && SplitsAs(escape, search, text, s)
    requires |s.next| <= |text|
    requires forall i :: 0 <= i < |text| - |s.next| ==> !OccursAt(text, escape.literal, i)
    ensures Reassemble(s) == text
  {
    match s.command
    case None =>
      var us :| RunOf(escape, search, text, us, s.before, []);
      PlainRunReassembles(escape, search, text, us);
    case Some(c) =>
      var rest :| LexesTo(escape, search, text, s.before, rest) && AfterCommand(escape, search, rest, s, c);
      var us1 :| RunOf(escape, search, text, us1, s.before, rest);
      var us2 :| RunOf(escape, search, rest[|c.literal|..], us2, s.after, s.next);
      CommandSplitReassembles(escape, search, text, s, c, rest, us1, us2);
  }

  /** `SplitsAsReassembles` for a split on the command `c`, given the runs
      before and after it. */
  lemma {:induction false} CommandSplitReassembles(escape: Command, search: seq<Command>, text: string, s: Split,
                                                   c: Command, rest: string, us1: seq<Unit>, us2: seq<Unit>)
    requires |escape.literal| > 0 && s.command == Some(c)
    requires RunOf(escape, search, text, us1, s.before, rest)
    requires c.literal <= rest
    requires RunOf(escape, search, rest[|c.literal|..], us2, s.after, s.next)
    requires forall i :: 0 <= i < |text| - |s.next| ==> !OccursAt(text, escape.literal, i)
    ensures Reassemble(s) == text
  {
    var tail := rest[|c.literal|..];
    PlainRunReassembles(escape, search, text, us1);
    var off := |Raw(escape, us1)| + |c.literal|;
    assert tail == text[off..];
    forall i | 0 <= i < |Raw(escape, us2)|
      ensures !OccursAt(tail, escape.literal, i)
    {
      OccursShift(text, off, escape.literal, i);
    }
    PlainRunReassembles(escape, search, tail, us2);
    PrefixThenRest(c.literal, rest);
    ReassembleParts(s, c, text, rest, tail);
  }

  /** The parts of a split on `c`, glued back together. */
  lemma {:induction false} ReassembleParts(s: Split, c: Command, text: string, rest: string, tail: string)
    requires s.command == Some(c)
    requires text == s.before + rest && rest == c.literal + tail && tail == s.after + s.next
    ensures Reassemble(s) == text
  {
    assert s.before + c.literal + s.after + s.next == s.before + (c.literal + (s.after + s.next));
  }

  /** A text that starts with `p` is `p` followed by the rest. */
  lemma {:induction false} PrefixThenRest(p: string, text: string)
    requires p <= text
    ensures text == p + text[|p|..]
  {
    assert text[..|p|] == p;
    assert text == text[..|p|] + text[|p|..];
  }

  /** Splitting loses nothing when the escape does not occur before
      `next`: before, the command, after and next glued back together are
      the text. */
  lemma {:induction false} SplitReassemblesBeforeNext(text: string, escape: Command, commands: seq<Command>)
    requires |escape.literal| > 0
    ensures var r := SplitText(text, escape, commands);
            r.Ok? && (forall i :: 0 <= i < |text| - |r.value.next| ==> !OccursAt(text, escape.literal, i))
            ==> Reassemble(r.value) == text
  {
    var r := SplitText(text, escape, commands);
    if r.Ok? && (forall i :: 0 <= i < |text| - |r.value.next| ==> !OccursAt(text, escape.literal, i)) {
      SplitTextMeans(text, escape, commands);
      SplitWellFormed(text, escape, commands);
      SplitsAsReassembles(escape, SearchList(escape, commands), text, r.value);
    }
  }

  // ---------------------------------------------------------------------
  // Other helpers
  // ---------------------------------------------------------------------

  /** True exactly for a non-null, non-empty text of letters and digits. */
  function IsOneWordWithoutSymbols(text: Maybe<string>): (r: bool)
    ensures r <==> text.Some? && text.value != [] && forall i :: 0 <= i < |text.value| ==> IsLetterOrDigit(text.value[i])
  {
    if text.None? || text.value == [] then false
    else if exists i :: 0 <= i < |text.value| && IsWhiteSpace(text.value[i]) then false
    else if exists i :: 0 <= i < |text.value| && !IsLetterOrDigit(text.value[i]) then false
    else true
  }

  /** `search` occurs in `text` at position `i`. */
  predicate OccursAt(text: string, search: string, i: int) {
    0 <= i && i + |search| <= |text| && text[i..i + |search|] == search
  }

  /** The start of the last occurrence of `search` that ends at or before
      `startIndex` (clamped to the text), or -1; an empty search answers
      `startIndex` itself. */
  method IndexOfBefore(text: string, search: string, startIndex: int) returns (r: int)
    ensures search == [] ==> r == startIndex
    ensures search != [] ==> -1 <= r
    ensures search != [] && r >= 0 ==>
              OccursAt(text, search, r) && r + |search| <= startIndex
              && forall j :: r < j && j + |search| <= startIndex ==> !OccursAt(text, search, j)
    ensures search != [] && r == -1 ==>
              forall j :: 0 <= j && j + |search| <= startIndex ==> !OccursAt(text, search, j)
  {
    if search == [] {
      return startIndex;
    }
    var start := startIndex;
    if start > |text| {
      start := |text|;
    }
    var i := start - 1;
    while i >= 0
      invariant i < start <= |text|
      invariant forall j :: i < j && j + |search| <= startIndex ==> !OccursAt(text, search, j)
    {
      var sub := text[i..start];
      if search <= sub {
        assert |search| <= |sub| && search == sub[..|search|];
        assert text[i..i + |search|] == search;
        return i;
      }
      if i + |search| <= start {
        assert sub[..|search|] == text[i..i + |search|];
      }
      i := i - 1;
    }
    return -1;
  }

  /** The start of the first occurrence of `search` after `startIndex`
      (clamped to -1), or -1; an empty search answers `startIndex` itself. */
  method IndexOfAfter(text: string, search: string, startIndex: int) returns (r: int)
    ensures search == [] ==> r == startIndex
    ensures search != [] ==> -1 <= r
    ensures search != [] && r >= 0 ==>
              OccursAt(text, search, r) && startIndex < r
              && forall j :: startIndex < j < r ==> !OccursAt(text, search, j)
    ensures search != [] && r == -1 ==>
              forall j :: startIndex < j ==> !OccursAt(text, search, j)
  {
    if search == [] {
      return startIndex;
    }
    var start := startIndex;
    if start < -1 {
      start := -1;
    }
    var i := start + 1;
    while i < |text|
      invariant start + 1 <= i
      invariant forall j :: startIndex < j < i ==> !OccursAt(text, search, j)
    {
      var sub := text[i..];
      if search <= sub {
        assert text[i..i + |search|] == sub[..|search|];
        return i;
      }
      i := i + 1;
    }
    return -1;
  }

  /** A substring whose bounds are first clamped to the text; bounds that
      cross after clamping are out of range. */
  function UnboundedSubstring(str: string, start: int, endIndex: int): (r: Result<string>)
    ensures r.Err? <==> (if start < 0 then 0 else start) > (if endIndex > |str| then |str| else endIndex)
    ensures r.Err? ==> r.error == ArgumentOutOfRange
    ensures r.Ok? ==> |r.value| == (if endIndex > |str| then |str| else endIndex) - (if start < 0 then 0 else start)
    ensures r.Ok? ==> forall k :: 0 <= k < |r.value| ==> r.value[k] == str[k + (if start < 0 then 0 else start)]
  {
    var s := if start < 0 then 0 else start;
    var e := if endIndex > |str| then |str| else endIndex;
    if s > e then Err(ArgumentOutOfRange) else Ok(str[s..e])
  }

  /** Within range the clamping changes nothing: it is the plain slice. */
  lemma {:induction false} UnboundedSubstringInRange(str: string, start: int, endIndex: int)
    requires 0 <= start <= endIndex <= |str|
    ensures UnboundedSubstring(str, start, endIndex) == Ok(str[start..endIndex])
  {
  }

  /** Clamped substrings the repository's tests expect. */
  lemma {:induction false} UnboundedSubstringExamples()
    ensures UnboundedSubstring("abcdefghi", -100, 3) == Ok("abc")
    ensures UnboundedSubstring("abcdefghi", 6, 100) == Ok("ghi")
    ensures UnboundedSubstring("abcdefghi", 5, 2) == Err(ArgumentOutOfRange)
  {
    assert "abcdefghi"[0..3] == "abc";
    assert "abcdefghi"[6..9] == "ghi";
  }
}
