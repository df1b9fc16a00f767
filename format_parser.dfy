/** The `$id(text)` formatting language: `Format` copies a text to its
    output with every `$id(text)` replaced by `text`, and labels that
    stretch of the output with `id`.  `\` escapes a command character. */
module FormatParsing {
  import opened Wrappers
  import opened Strings
  import opened Commands
  import opened StringUtils
  import opened IdentifiedStrings

  /** The escape of the formatting language. */
  const FormatEscape := Command(Escape, "\\")

  /** A label found in the text: its id and its stretch of the output. */
  datatype Tag = Tag(id: string, start: int, end: int)

  /** The variables of the loop of `Format`: the text still to parse, which
      part of `$id(text)` comes next (0 the `$`, 1 the `(`, 2 the `)`), the
      output so far, where the text of the open label starts, and the labels
      found so far. */
  datatype FormatState = FormatState(parse: string, part: nat, output: string, startId: int, tags: seq<Tag>)

  /** Every command of the language is one character long. */
  lemma FormatLiterals()
    ensures forall c :: c in FormatCommands ==> |c.literal| == 1
    ensures FormatEscape in FormatCommands
    ensures SearchList(FormatEscape, FormatCommands) == FormatCommands
  {
  }

  /** A split of a text on the format commands never outgrows the text,
      and its command is one character long. */
  lemma FormatSplitSizes(text: string)
    ensures SplitText(text, FormatEscape, FormatCommands).Ok? ==>
              var s := SplitText(text, FormatEscape, FormatCommands).value;
              Consumed(s) <= |text| && (s.command.Some? ==> |s.command.value.literal| == 1)
  {
    FormatLiterals();
    SplitWellFormed(text, FormatEscape, FormatCommands);
  }

  /** One turn of the loop of `Format`: split the text on its first command
      and act on it according to the part expected. */
  function FormatStep(st: FormatState): (r: Result<FormatState>)
    requires st.parse != [] && st.part <= 2
    ensures r.Ok? ==> |r.value.parse| < |st.parse| && r.value.part <= 2
  {
    FormatSplitSizes(st.parse);
    match SplitText(st.parse, FormatEscape, FormatCommands)
    case Err(e) => Err(e)
    case Ok(s) =>
      if s.command.None? then
        Ok(st.(parse := [], output := st.output + s.before))
      else if st.part == 0 then
        if s.command.value.kind != IdStart then Err(FormatParse(IdMustBeginWithDollar))
        else Ok(st.(output := st.output + s.before, part := 1, parse := s.after + s.next,
                    startId := |st.output + s.before|))
      else if st.part == 1 then
        if s.command.value.kind != FormatStart then Err(FormatParse(IdMustBeFollowedByOpen))
        else
          var id := Trim(s.before);
          if !IsOneWordWithoutSymbols(Some(id)) then Err(FormatParse(IdNotOneWord))
          else Ok(st.(output := st.output + s.after,
                      tags := st.tags + [Tag(id, st.startId, st.startId + |s.after|)],
                      part := 2, parse := s.next))
      else
        if s.command.value.kind != FormatEnd then Err(FormatParse(TextMustBeClosed))
        else Ok(st.(parse := st.parse[|s.command.value.literal|..], part := 0))
  }

  /** The loop of `Format` from a state until no text is left. */
  function FormatLoop(st: FormatState): Result<FormatState>
    requires st.part <= 2
    decreases |st.parse|, 1
  {
    if st.parse == [] then Ok(st) else FormatLoopTurn(st)
  }

  /** The loop of `Format` while text is left: one turn, then the loop
      from where the turn stopped. */
  function FormatLoopTurn(st: FormatState): Result<FormatState>
    requires st.parse != [] && st.part <= 2
    decreases |st.parse|, 0
  {
    match FormatStep(st)
    case Err(e) => Err(e)
    case Ok(next) => FormatLoop(next)
  }

  /** The labels added one after the other to the dictionary of a text of
      `length` characters. */
  function AddAllBounds(c: Chunks, length: int, tags: seq<Tag>): Result<Chunks>
    decreases |tags|
  {
    if tags == [] then Ok(c)
    else
      match AddBoundsTo(c, length, tags[0].id, tags[0].start, tags[0].end)
      case Err(e) => Err(e)
      case Ok(added) => AddAllBounds(added, length, tags[1..])
  }

  /** The output text and its labels. */
  datatype Formatted = Formatted(text: string, chunks: Chunks)

  function Initial(text: string): FormatState {
    FormatState(text, 0, [], -1, [])
  }

  /** What `Format` makes of a text. */
  function FormatText(text: string): Result<Formatted> {
    match FormatLoop(Initial(text))
    case Err(e) => Err(e)
    case Ok(last) =>
      if last.part != 0 then Err(FormatParse(UnfinishedId))
      else
        match AddAllBounds(NoChunks, |last.output|, last.tags)
        case Err(e) => Err(e)
        case Ok(c) => Ok(Formatted(last.output, c))
  }

  /** Format `text` into an identified string. */
  method Format(text: string) returns (r: Result<IdentifiedString>)
    ensures FormatText(text).Err? ==> r == Err(FormatText(text).error)
    ensures FormatText(text).Ok? ==> r.Ok? && fresh(r.value) && r.value.Valid()
                                     && r.value.text == FormatText(text).value.text
                                     && r.value.chunks == FormatText(text).value.chunks
  {
    var escape := FormatEscape;
    var commands := FormatCommands;
    var parse := text;
    var parsePart: nat := 0;
    var output: string := [];
    var startId := -1;
    var ids: seq<Tag> := [];
    while |parse| > 0
      invariant parsePart <= 2
      invariant FormatLoop(FormatState(parse, parsePart, output, startId, ids)) == FormatLoop(Initial(text))
      decreases |parse|
    {
      var turn := FormatTurn(FormatState(parse, parsePart, output, startId, ids));
      if turn.Err? {
        return Err(turn.error);
      }
      parse, parsePart, output, startId, ids :=
        turn.value.parse, turn.value.part, turn.value.output, turn.value.startId, turn.value.tags;
    }
    if parsePart != 0 {
      return Err(FormatParse(UnfinishedId));
    }
    var identified := new IdentifiedString(output);
    var i := 0;
    while i < |ids|
      invariant 0 <= i <= |ids|
      invariant fresh(identified) && identified.Valid() && identified.text == output
      invariant AddAllBounds(identified.chunks, |output|, ids[i..]) == AddAllBounds(NoChunks, |output|, ids)
    {
      var added := identified.AddBounds(ids[i].id, ids[i].start, ids[i].end);
      if added.Err? {
        return Err(added.error);
      }
      assert ids[i..][1..] == ids[i + 1..];
      i := i + 1;
    }
    assert ids[i..] == [];
    return Ok(identified);
  }

  /** One turn of the loop of `Format`, on its variables.  The source has
      the loop body inline; it is a method of its own here so that the
      loop's invariant stays small. */
  method FormatTurn(st: FormatState) returns (r: Result<FormatState>)
    requires st.parse != [] && st.part <= 2
    ensures r == FormatStep(st)
  {
    var parse, parsePart, output, startId, ids := st.parse, st.part, st.output, st.startId, st.tags;
    var split := SplitCommand(Some(parse), FormatEscape, FormatCommands);
    if split.Err? {
      return Err(split.error);
    }
    var before, after, next, command := split.value.before, split.value.after, split.value.next, split.value.command;
    if command.None? {
      output := output + before;
      parse := [];
    } else if parsePart == 0 {
      if command.value.kind != IdStart {
        return Err(FormatParse(IdMustBeginWithDollar));
      }
      output := output + before;
      parsePart := parsePart + 1;
      parse := after + next;
      startId := |output|;
    } else if parsePart == 1 {
      if command.value.kind != FormatStart {
        return Err(FormatParse(IdMustBeFollowedByOpen));
      }
      output := output + after;
      var id := Trim(before);
      if !IsOneWordWithoutSymbols(Some(id)) {
        return Err(FormatParse(IdNotOneWord));
      }
      var idText := after;
      var endId := startId + |idText|;
      ids := ids + [Tag(id, startId, endId)];
      parsePart := parsePart + 1;
      parse := next;
    } else {
      if command.value.kind != FormatEnd {
        return Err(FormatParse(TextMustBeClosed));
      }
      FormatSplitSizes(parse);
      parse := parse[|command.value.literal|..];
      parsePart := 0;
    }
    return Ok(FormatState(parse, parsePart, output, startId, ids));
  }

  // ---------------------------------------------------------------------
  // Labels lie inside the output; only a repeated id is refused
  // ---------------------------------------------------------------------

  /** What holds of every state of the loop: an open label starts inside
      the output, and every label lies inside the output. */
  predicate Sound(st: FormatState) {
    && st.part <= 2
    && (st.part == 1 ==> 0 <= st.startId <= |st.output|)
    && Inside(st.tags, |st.output|)
  }

  /** Every label lies inside a text of `length` characters. */
  predicate Inside(tags: seq<Tag>, length: int) {
    forall k :: 0 <= k < |tags| ==> 0 <= tags[k].start <= tags[k].end <= length
  }

  /** The errors of the loop: an unknown escape, or a malformed label. */
  predicate LoopError(e: Error) {
    e == UnknownEscape || e.FormatParse?
  }

  lemma FormatStepSound(st: FormatState)
    requires st.parse != [] && Sound(st)
    ensures FormatStep(st).Ok? ==> Sound(FormatStep(st).value)
    ensures FormatStep(st).Err? ==> LoopError(FormatStep(st).error)
  {
    SplitWellFormed(st.parse, FormatEscape, FormatCommands);
  }

  /** The loop keeps its invariant and stops with no text left; it fails
      only for an unknown escape or a malformed label. */
  lemma {:induction false} FormatLoopSound(st: FormatState)
    requires Sound(st)
    ensures FormatLoop(st).Ok? ==> Sound(FormatLoop(st).value) && FormatLoop(st).value.parse == []
    ensures FormatLoop(st).Err? ==> LoopError(FormatLoop(st).error)
    decreases |st.parse|
  {
    if st.parse != [] {
      FormatStepSound(st);
      if FormatStep(st).Ok? {
        FormatLoopSound(FormatStep(st).value);
      }
    }
  }

  function TagIds(tags: seq<Tag>): (r: seq<string>)
    ensures |r| == |tags| && forall k :: 0 <= k < |tags| ==> r[k] == tags[k].id
  {
    if tags == [] then [] else [tags[0].id] + TagIds(tags[1..])
  }

  /** Listing the first label's id after `ids`, then the other labels' ids,
      lists every label's id after `ids`. */
  lemma TagIdsAfter(ids: seq<string>, tags: seq<Tag>)
    requires tags != []
    ensures (ids + [tags[0].id]) + TagIds(tags[1..]) == ids + TagIds(tags)
  {
    var more := TagIds(tags[1..]);
    assert TagIds(tags) == [tags[0].id] + more;
    assert (ids + [tags[0].id]) + more == ids + ([tags[0].id] + more);
  }

  /** No id of the labels repeats, and none is among `keys`. */
  predicate FreshIds(tags: seq<Tag>, keys: set<string>)
    decreases |tags|
  {
    tags == [] || (tags[0].id !in keys && FreshIds(tags[1..], keys + {tags[0].id}))
  }

  /** Fresh ids are ids listed once, none of them among `keys`. */
  lemma FreshIdsMeans(tags: seq<Tag>, keys: set<string>)
    ensures FreshIds(tags, keys) <==> ListedOnce(TagIds(tags)) && forall k :: 0 <= k < |tags| ==> tags[k].id !in keys
  {
    if FreshIds(tags, keys) {
      FreshIdsListed(tags, keys);
    }
    if ListedOnce(TagIds(tags)) && forall k :: 0 <= k < |tags| ==> tags[k].id !in keys {
      ListedFreshIds(tags, keys);
    }
  }

  lemma {:induction false} FreshIdsListed(tags: seq<Tag>, keys: set<string>)
    requires FreshIds(tags, keys)
    ensures ListedOnce(TagIds(tags)) && forall k :: 0 <= k < |tags| ==> tags[k].id !in keys
    decreases |tags|
  {
    var ids := TagIds(tags);
    if tags != [] {
      var rest := TagIds(tags[1..]);
      FreshIdsListed(tags[1..], keys + {tags[0].id});
      ListedOnceMeans(rest);
      forall i, j | 0 <= i < j < |ids|
        ensures ids[i] != ids[j]
      {
        if i > 0 {
          assert ids[i] == rest[i - 1] && ids[j] == rest[j - 1];
        } else {
          assert ids[j] == tags[1..][j - 1].id;
        }
      }
      ListedOnceMeans(ids);
      forall k | 0 < k < |tags|
        ensures tags[k].id !in keys
      {
        assert tags[k] == tags[1..][k - 1];
      }
    }
  }

  lemma {:induction false} ListedFreshIds(tags: seq<Tag>, keys: set<string>)
    requires ListedOnce(TagIds(tags)) && forall k :: 0 <= k < |tags| ==> tags[k].id !in keys
    ensures FreshIds(tags, keys)
    decreases |tags|
  {
    var ids := TagIds(tags);
    if tags != [] {
      var rest := TagIds(tags[1..]);
      ListedOnceMeans(ids);
      forall k | 0 <= k < |tags| - 1
        ensures tags[1..][k].id !in keys + {tags[0].id}
      {
        assert tags[1..][k] == tags[k + 1];
        assert ids[0] != ids[k + 1];
      }
      forall i, j | 0 <= i < j < |rest|
        ensures rest[i] != rest[j]
      {
        assert ids[i + 1] != ids[j + 1];
      }
      ListedOnceMeans(rest);
      ListedFreshIds(tags[1..], keys + {tags[0].id});
    }
  }

  /** Labels lying inside the text are all added exactly when no id repeats,
      among them or in the dictionary.  The only failure is a repeated id. */
  lemma {:induction false} AddAllBoundsOutcome(c: Chunks, length: int, tags: seq<Tag>)
    requires Inside(tags, length)
    ensures AddAllBounds(c, length, tags).Ok? <==> FreshIds(tags, c.bounds.Keys)
    ensures AddAllBounds(c, length, tags).Err? ==> AddAllBounds(c, length, tags).error == Argument(DuplicateKey)
    decreases |tags|
  {
    if tags != [] {
      var t := tags[0];
      if t.id !in c.bounds {
        var added := AddBoundsTo(c, length, t.id, t.start, t.end).value;
        assert added.bounds.Keys == c.bounds.Keys + {t.id};
        AddAllBoundsOutcome(added, length, tags[1..]);
      }
    }
  }

  /** Labels lying inside the text keep a well-formed dictionary well
      formed. */
  lemma {:induction false} AddAllBoundsKeepsWellFormed(c: Chunks, length: int, tags: seq<Tag>)
    requires WellFormed(c, length)
    requires Inside(tags, length)
    ensures AddAllBounds(c, length, tags).Ok? ==> WellFormed(AddAllBounds(c, length, tags).value, length)
    decreases |tags|
  {
    if tags != [] {
      var t := tags[0];
      if AddBoundsTo(c, length, t.id, t.start, t.end).Ok? {
        AddBoundsKeepsWellFormed(c, length, t.id, t.start, t.end);
        AddAllBoundsKeepsWellFormed(AddBoundsTo(c, length, t.id, t.start, t.end).value, length, tags[1..]);
      }
    }
  }

  /** Labels with fresh ids are all added, listed after the ids already
      present, which keep their bounds. */
  lemma {:induction false} AddAllBoundsKeeps(c: Chunks, length: int, tags: seq<Tag>)
    requires Inside(tags, length)
    requires FreshIds(tags, c.bounds.Keys)
    ensures AddAllBounds(c, length, tags).Ok?
    ensures AddAllBounds(c, length, tags).value.ids == c.ids + TagIds(tags)
    ensures forall id :: id in c.bounds ==>
              id in AddAllBounds(c, length, tags).value.bounds
              && AddAllBounds(c, length, tags).value.bounds[id] == c.bounds[id]
    decreases |tags|
  {
    if tags == [] {
      assert c.ids + TagIds(tags) == c.ids;
    } else {
      var t := tags[0];
      AddBoundsThenGet(c, length, t.id, t.start, t.end);
      var added := AddBoundsTo(c, length, t.id, t.start, t.end).value;
      AddAllBoundsKeeps(added, length, tags[1..]);
      var r := AddAllBounds(added, length, tags[1..]).value;
      assert AddAllBounds(c, length, tags) == Ok(r);
      TagIdsAfter(c.ids, tags);
    }
  }

  /** Labels with fresh ids are all added, each with its bounds. */
  lemma {:induction false} AddAllBoundsAdded(c: Chunks, length: int, tags: seq<Tag>)
    requires Inside(tags, length)
    requires FreshIds(tags, c.bounds.Keys)
    ensures AddAllBounds(c, length, tags).Ok?
    ensures forall k :: 0 <= k < |tags| ==>
              tags[k].id in AddAllBounds(c, length, tags).value.bounds
              && AddAllBounds(c, length, tags).value.bounds[tags[k].id] == Bounds(tags[k].start, tags[k].end)
    decreases |tags|
  {
    if tags != [] {
      var t := tags[0];
      AddBoundsThenGet(c, length, t.id, t.start, t.end);
      var added := AddBoundsTo(c, length, t.id, t.start, t.end).value;
      AddAllBoundsAdded(added, length, tags[1..]);
      AddAllBoundsKeeps(added, length, tags[1..]);
      var r := AddAllBounds(added, length, tags[1..]).value;
      assert AddAllBounds(c, length, tags) == Ok(r);
      forall k | 0 < k < |tags|
        ensures tags[k].id in r.bounds && r.bounds[tags[k].id] == Bounds(tags[k].start, tags[k].end)
      {
        assert tags[k] == tags[1..][k - 1];
      }
    }
  }

  /** A formatted text carries a well-formed dictionary: every id once, and
      every label inside the output.  `Format` fails for a repeated id with
      `Argument(DuplicateKey)`, and never for a label out of range. */
  lemma FormatTextWellFormed(text: string)
    ensures FormatText(text).Ok? ==> WellFormed(FormatText(text).value.chunks, |FormatText(text).value.text|)
    ensures FormatText(text).Err? ==>
              FormatText(text).error != ArgumentOutOfRange && FormatText(text).error != Argument(StartAfterEnd)
  {
    FormatLoopSound(Initial(text));
    if FormatLoop(Initial(text)).Ok? {
      var last := FormatLoop(Initial(text)).value;
      AddAllBoundsOutcome(NoChunks, |last.output|, last.tags);
      AddAllBoundsKeepsWellFormed(NoChunks, |last.output|, last.tags);
    }
  }

  // ---------------------------------------------------------------------
  // How a text splits on the commands of the language
  // ---------------------------------------------------------------------

  /** The characters of the commands: `\`, `$`, `(` and `)`. */
  predicate IsFormatChar(c: char) {
    c == '\\' || c == '$' || c == '(' || c == ')'
  }

  /** A text holding no command character. */
  predicate Unformatted(s: string) {
    forall i :: 0 <= i < |s| ==> !IsFormatChar(s[i])
  }

  /** The command written as the character `c`. */
  function CommandFor(c: char): (r: Command)
    requires IsFormatChar(c)
    ensures r in FormatCommands && r.literal == [c]
  {
    if c == '\\' then FormatEscape
    else if c == '$' then Command(IdStart, "$")
    else if c == '(' then Command(FormatStart, "(")
    else Command(FormatEnd, ")")
  }

  /** A text starts with a command exactly when its first character is a
      command character, and then with that command. */
  lemma StartCommandAt(text: string)
    requires text != []
    ensures StartCommand(text, FormatCommands) == if IsFormatChar(text[0]) then Some(CommandFor(text[0])) else None
  {
    assert [text[0]] <= text;
    StartCommandFinds(text, FormatCommands);
  }

  // ---------------------------------------------------------------------
  // Escaped text
  // ---------------------------------------------------------------------

  /** `s` written so that it reads back as itself: each command character
      is preceded by the escape `\`. */
  function EscapeFormat(s: string): (r: string)
    decreases |s|
  {
    if s == [] then [] else (if IsFormatChar(s[0]) then ['\\', s[0]] else [s[0]]) + EscapeFormat(s[1..])
  }

  /** Text with no command character needs no escape. */
  lemma {:induction false} EscapeUnformatted(s: string)
    requires Unformatted(s)
    ensures EscapeFormat(s) == s
    decreases |s|
  {
    if s != [] {
      assert !IsFormatChar(s[0]);
      EscapeUnformatted(s[1..]);
      assert [s[0]] + s[1..] == s;
    }
  }

  /** Escaping two texts one after the other escapes the whole. */
  lemma {:induction false} EscapeAppend(s: string, t: string)
    ensures EscapeFormat(s + t) == EscapeFormat(s) + EscapeFormat(t)
    decreases |s|
  {
    if s != [] {
      assert (s + t)[0] == s[0] && (s + t)[1..] == s[1..] + t;
      EscapeAppend(s[1..], t);
    } else {
      assert s + t == t;
    }
  }

  /** The piece in which the character `ch` is written. */
  function UnitFor(ch: char): (u: Unit)
    ensures ResolvedOf(u) == [ch]
    ensures u.Escaped? <==> IsFormatChar(ch)
  {
    if IsFormatChar(ch) then Escaped(CommandFor(ch)) else Plain(ch)
  }

  /** The pieces in which `s` is written, one per character. */
  function UnitsFor(s: string): (us: seq<Unit>)
    ensures |us| == |s|
    decreases |s|
  {
    if s == [] then [] else [UnitFor(s[0])] + UnitsFor(s[1..])
  }

  /** The first character of `s` and its piece, written ahead of the rest. */
  lemma {:induction false} EscapeCons(s: string, rest: string)
    requires s != []
    ensures EscapeFormat(s) + rest == RawOf(FormatEscape, UnitFor(s[0])) + (EscapeFormat(s[1..]) + rest)
  {
  }

  /** A text that starts with the piece of `ch`. */
  lemma {:induction false} UnitForStarts(ch: char, text: string)
    requires text != [] && text[0] == (if IsFormatChar(ch) then '\\' else ch)
    requires IsFormatChar(ch) ==> |text| > 1 && text[1] == ch
    ensures UnitStarts(FormatEscape, FormatCommands, text, UnitFor(ch))
  {
    StartCommandAt(text);
    if IsFormatChar(ch) {
      StartCommandAt(text[1..]);
    }
  }

  /** Escaped text, followed by anything, is a run of pieces that resolves
      back to the text. */
  lemma {:induction false} EscapedRun(s: string, rest: string)
    ensures RunOf(FormatEscape, FormatCommands, EscapeFormat(s) + rest, UnitsFor(s), s, rest)
    decreases |s|
  {
    if s == [] {
      assert EscapeFormat(s) + rest == rest;
    } else {
      var u := UnitFor(s[0]);
      var text := EscapeFormat(s) + rest;
      var n := |RawOf(FormatEscape, u)|;
      EscapeCons(s, rest);
      assert text[n..] == EscapeFormat(s[1..]) + rest;
      UnitForStarts(s[0], text);
      EscapedRun(s[1..], rest);
      LexesCons(FormatEscape, FormatCommands, text, u, UnitsFor(s[1..]), s[1..], rest);
      assert [u] + UnitsFor(s[1..]) == UnitsFor(s);
      assert [s[0]] + s[1..] == s;
    }
  }

  /** Escaped text splits into itself alone. */
  lemma {:induction false} SplitEscaped(t: string)
    ensures SplitText(EscapeFormat(t), FormatEscape, FormatCommands) == Ok(Split(t, [], [], None))
  {
    FormatLiterals();
    EscapedRun(t, []);
    assert EscapeFormat(t) + [] == EscapeFormat(t);
    SplitsAsOkPlain(EscapeFormat(t), FormatEscape, FormatCommands, UnitsFor(t), Split(t, [], [], None));
  }

  /** `P c Q R`, where `P` and `Q` are `p` and `q` escaped, `c` is a command
      other than the escape and `R` is empty or starts with one: the escapes
      are dropped from `p` before `c` and `q` after it, and `R` is left
      untouched. */
  lemma {:induction false} SplitAroundEscaped(p: string, c: char, q: string, rest: string, text: string)
    requires IsFormatChar(c) && c != '\\'
    requires rest == [] || (IsFormatChar(rest[0]) && rest[0] != '\\')
    requires text == EscapeFormat(p) + [c] + EscapeFormat(q) + rest
    ensures SplitText(text, FormatEscape, FormatCommands) == Ok(Split(p, q, rest, Some(CommandFor(c))))
  {
    var tail := [c] + (EscapeFormat(q) + rest);
    assert text == EscapeFormat(p) + tail;
    EscapedRun(p, tail);
    CommandThenRun(c, q, rest, tail);
    OpensOrEnds(rest);
    SplitAroundRuns(text, tail, p, c, q, rest);
  }

  /** A command character, then escaped `q`, then `rest`: the text starts
      with the command, and a run resolving to `q` follows it. */
  lemma {:induction false} CommandThenRun(c: char, q: string, rest: string, tail: string)
    requires IsFormatChar(c) && tail == [c] + (EscapeFormat(q) + rest)
    ensures tail != [] && StartCommand(tail, FormatCommands) == Some(CommandFor(c))
    ensures RunOf(FormatEscape, FormatCommands, tail[1..], UnitsFor(q), q, rest)
  {
    StartCommandAt(tail);
    assert tail[1..] == EscapeFormat(q) + rest;
    EscapedRun(q, rest);
  }

  /** Text that is empty or starts with a command character other than
      the escape ends the run before it. */
  lemma {:induction false} OpensOrEnds(rest: string)
    requires rest == [] || (IsFormatChar(rest[0]) && rest[0] != '\\')
    ensures rest == [] || OpensCommand(FormatEscape, FormatCommands, rest)
  {
    if rest != [] {
      StartCommandAt(rest);
    }
  }

  /** A run resolving to `p`, the command `c`, then a run resolving to `q`
      and `rest`: the split that `SplitAroundEscaped` promises. */
  lemma {:induction false} SplitAroundRuns(text: string, tail: string, p: string, c: char, q: string, rest: string)
    requires IsFormatChar(c) && c != '\\'
    requires RunOf(FormatEscape, FormatCommands, text, UnitsFor(p), p, tail)
    requires tail != [] && StartCommand(tail, FormatCommands) == Some(CommandFor(c))
    requires RunOf(FormatEscape, FormatCommands, tail[1..], UnitsFor(q), q, rest)
    requires rest == [] || OpensCommand(FormatEscape, FormatCommands, rest)
    ensures SplitText(text, FormatEscape, FormatCommands) == Ok(Split(p, q, rest, Some(CommandFor(c))))
  {
    FormatLiterals();
    SplitsAsOkCommand(text, FormatEscape, FormatCommands, Split(p, q, rest, Some(CommandFor(c))), CommandFor(c),
                      tail, UnitsFor(p), UnitsFor(q));
  }

  // ---------------------------------------------------------------------
  // One turn of the loop on each part of `$id(text)`
  // ---------------------------------------------------------------------

  /** The loop from `st` ends where the loop from `next` ends. */
  ghost predicate SameOutcome(st: FormatState, next: FormatState)
    requires st.part <= 2 && next.part <= 2
  {
    FormatLoop(st) == FormatLoop(next)
  }

  /** The loop from `st` ends in `r`. */
  ghost predicate EndsIn(st: FormatState, r: Result<FormatState>)
    requires st.part <= 2
  {
    FormatLoop(st) == r
  }

  /** The loop ends in `r` from a state whose outcome it shares with one
      from which it ends in `r`. */
  lemma OutcomeThrough(st: FormatState, next: FormatState, r: Result<FormatState>)
    requires st.part <= 2 && next.part <= 2
    requires SameOutcome(st, next) && EndsIn(next, r)
    ensures EndsIn(st, r)
  {
  }

  /** A turn that succeeds hands the rest of the work to the loop. */
  lemma {:induction false} LoopTurn(st: FormatState, next: FormatState)
    requires st.parse != [] && st.part <= 2 && FormatStep(st) == Ok(next)
    ensures SameOutcome(st, next)
  {
  }

  /** Text before `$` goes to the output without its escapes; the label
      opens at the end of it.  The text between `$` and the next command is
      parsed again with its escapes already dropped. */
  lemma {:induction false} StepDollar(p: string, q: string, rest: string, output: string, startId: int, tags: seq<Tag>)
    requires rest == [] || (IsFormatChar(rest[0]) && rest[0] != '\\')
    ensures FormatStep(FormatState(EscapeFormat(p) + "$" + EscapeFormat(q) + rest, 0, output, startId, tags))
            == Ok(FormatState(q + rest, 1, output + p, |output| + |p|, tags))
    ensures SameOutcome(FormatState(EscapeFormat(p) + "$" + EscapeFormat(q) + rest, 0, output, startId, tags),
                        FormatState(q + rest, 1, output + p, |output| + |p|, tags))
  {
    SplitAroundEscaped(p, '$', q, rest, EscapeFormat(p) + "$" + EscapeFormat(q) + rest);
    LoopTurn(FormatState(EscapeFormat(p) + "$" + EscapeFormat(q) + rest, 0, output, startId, tags),
             FormatState(q + rest, 1, output + p, |output| + |p|, tags));
  }

  /** The turn of part 1 on a split at `(`, with the split given. */
  lemma {:induction false} OpenOnSplit(st: FormatState, q: string, id: string, body: string, rest: string,
                                       next: FormatState)
    requires st.parse != [] && st.part == 1
    requires SplitText(st.parse, FormatEscape, FormatCommands) == Ok(Split(q, body, rest, Some(CommandFor('('))))
    requires Trim(q) == id && IsOneWordWithoutSymbols(Some(id))
    requires next == FormatState(rest, 2, st.output + body, st.startId, st.tags + [Tag(id, st.startId, st.startId + |body|)])
    ensures FormatStep(st) == Ok(next) && SameOutcome(st, next)
  {
    LoopTurn(st, next);
  }

  /** The id before `(` is trimmed; the text after it goes to the output
      without its escapes, labelled with the id. */
  lemma {:induction false} StepOpen(q: string, id: string, body: string, rest: string, output: string, startId: int, tags: seq<Tag>)
    requires Unformatted(q)
    requires rest == [] || (IsFormatChar(rest[0]) && rest[0] != '\\')
    requires Trim(q) == id && IsOneWordWithoutSymbols(Some(id))
    ensures FormatStep(FormatState(q + ("(" + (EscapeFormat(body) + rest)), 1, output, startId, tags))
            == Ok(FormatState(rest, 2, output + body, startId, tags + [Tag(id, startId, startId + |body|)]))
    ensures SameOutcome(FormatState(q + ("(" + (EscapeFormat(body) + rest)), 1, output, startId, tags),
                        FormatState(rest, 2, output + body, startId, tags + [Tag(id, startId, startId + |body|)]))
  {
    var text := q + ("(" + (EscapeFormat(body) + rest));
    OpenPieces(q, body, rest, text);
    OpenTurnAt(text, q, id, body, rest, FormatState(text, 1, output, startId, tags),
               FormatState(rest, 2, output + body, startId, tags + [Tag(id, startId, startId + |body|)]));
  }

  lemma {:induction false} OpenPieces(q: string, body: string, rest: string, text: string)
    requires Unformatted(q) && text == q + ("(" + (EscapeFormat(body) + rest))
    ensures text == EscapeFormat(q) + "(" + EscapeFormat(body) + rest
  {
    EscapeUnformatted(q);
  }

  /** `StepOpen` on the text as the split reads it. */
  lemma {:induction false} OpenTurnAt(text: string, q: string, id: string, body: string, rest: string,
                                      st: FormatState, next: FormatState)
    requires Unformatted(q)
    requires rest == [] || (IsFormatChar(rest[0]) && rest[0] != '\\')
    requires Trim(q) == id && IsOneWordWithoutSymbols(Some(id))
    requires text == EscapeFormat(q) + "(" + EscapeFormat(body) + rest
    requires st.parse == text && st.part == 1
    requires next == FormatState(rest, 2, st.output + body, st.startId, st.tags + [Tag(id, st.startId, st.startId + |body|)])
    ensures FormatStep(st) == Ok(next) && SameOutcome(st, next)
  {
    SplitAroundEscaped(q, '(', body, rest, text);
    OpenOnSplit(st, q, id, body, rest, next);
  }

  /** An id that does not trim to one word stops the loop. */
  lemma {:induction false} StepBadId(q: string, body: string, rest: string, output: string, startId: int, tags: seq<Tag>)
    requires Unformatted(q)
    requires rest == [] || (IsFormatChar(rest[0]) && rest[0] != '\\')
    requires !IsOneWordWithoutSymbols(Some(Trim(q)))
    ensures FormatStep(FormatState(q + ("(" + (EscapeFormat(body) + rest)), 1, output, startId, tags))
            == Err(FormatParse(IdNotOneWord))
    ensures EndsIn(FormatState(q + ("(" + (EscapeFormat(body) + rest)), 1, output, startId, tags),
                   Err(FormatParse(IdNotOneWord)))
  {
    var text := q + ("(" + (EscapeFormat(body) + rest));
    EscapeUnformatted(q);
    assert text == EscapeFormat(q) + "(" + EscapeFormat(body) + rest;
    SplitAroundEscaped(q, '(', body, rest, text);
  }

  /** `)` closes the label; what follows is parsed afresh. */
  lemma {:induction false} StepClose(q: string, rest: string, output: string, startId: int, tags: seq<Tag>)
    requires rest == [] || (IsFormatChar(rest[0]) && rest[0] != '\\')
    ensures FormatStep(FormatState(")" + (EscapeFormat(q) + rest), 2, output, startId, tags))
            == Ok(FormatState(EscapeFormat(q) + rest, 0, output, startId, tags))
    ensures SameOutcome(FormatState(")" + (EscapeFormat(q) + rest), 2, output, startId, tags),
                        FormatState(EscapeFormat(q) + rest, 0, output, startId, tags))
  {
    var text := ")" + (EscapeFormat(q) + rest);
    assert EscapeFormat([]) + [')'] + EscapeFormat(q) + rest == text;
    SplitAroundEscaped([], ')', q, rest, text);
    assert text[1..] == EscapeFormat(q) + rest;
    LoopTurn(FormatState(text, 2, output, startId, tags), FormatState(EscapeFormat(q) + rest, 0, output, startId, tags));
  }

  /** Text with no unescaped command goes to the output without its
      escapes, and the loop stops. */
  lemma {:induction false} StepPlain(st: FormatState, t: string)
    requires st.parse != [] && st.part <= 2 && st.parse == EscapeFormat(t)
    ensures FormatStep(st) == Ok(st.(parse := [], output := st.output + t))
  {
    SplitEscaped(t);
  }

  // ---------------------------------------------------------------------
  // Round trip: written labels are read back
  // ---------------------------------------------------------------------

  /** A piece of formatted text: `lead`, then `$name(body)`, where the
      name is written so that it reads as `id`.  Lead and body may hold any
      character; they are written escaped. */
  datatype Segment = Segment(lead: string, name: string, id: string, body: string)

  /** A segment reads back as written: the name holds no command
      character and trims to `id`, a single word of letters and digits. */
  predicate WritableSegment(g: Segment) {
    Unformatted(g.name) && Trim(g.name) == g.id && IsOneWordWithoutSymbols(Some(g.id))
  }

  /** A one-word id padded with any white space makes a writable segment. */
  lemma {:induction false} PaddedWritable(lead: string, pre: string, id: string, post: string, body: string)
    requires AllWhiteSpace(pre) && AllWhiteSpace(post) && IsOneWordWithoutSymbols(Some(id))
    ensures WritableSegment(Segment(lead, pre + id + post, id, body))
  {
    var n := pre + id + post;
    forall i | 0 <= i < |n|
      ensures !IsFormatChar(n[i])
    {
      if i < |pre| {
        assert n[i] == pre[i];
      } else if i < |pre| + |id| {
        assert n[i] == id[i - |pre|];
      } else {
        assert n[i] == post[i - |pre| - |id|];
      }
    }
    TrimPadded(pre, id, post);
  }

  /** Every segment is writable. */
  predicate Writable(segs: seq<Segment>)
    decreases |segs|
  {
    segs == [] || (WritableSegment(segs[0]) && Writable(segs[1..]))
  }

  /** The formatted text: each segment as `lead$name(body)`, then `tail`,
      with every command character in lead, body and tail escaped. */
  function Written(segs: seq<Segment>, tail: string): string
    decreases |segs|
  {
    if segs == [] then EscapeFormat(tail)
    else
      var g := segs[0];
      EscapeFormat(g.lead) + "$" + g.name + "(" + EscapeFormat(g.body) + ")" + Written(segs[1..], tail)
  }

  /** What the reader sees: each segment as `lead` then `body`, then `tail`. */
  function Shown(segs: seq<Segment>, tail: string): string
    decreases |segs|
  {
    if segs == [] then tail else segs[0].lead + segs[0].body + Shown(segs[1..], tail)
  }

  /** The label of each segment: its id over its body in the shown text,
      which begins at `offset`. */
  function TagsOf(segs: seq<Segment>, offset: int): (r: seq<Tag>)
    ensures |r| == |segs| && forall k :: 0 <= k < |segs| ==> r[k].id == segs[k].id
    decreases |segs|
  {
    if segs == [] then []
    else
      var g := segs[0];
      [Tag(g.id, offset + |g.lead|, offset + |g.lead| + |g.body|)]
      + TagsOf(segs[1..], offset + |g.lead| + |g.body|)
  }

  /** The written text of segments, the first one split off at `$`. */
  lemma {:induction false} WrittenCons(segs: seq<Segment>, tail: string)
    requires segs != []
    ensures var g := segs[0];
            Written(segs, tail)
            == EscapeFormat(g.lead) + "$" + g.name + ("(" + (EscapeFormat(g.body) + (")" + Written(segs[1..], tail))))
  {
  }

  /** The written text after a segment: escaped text, then either nothing
      or the `$` of the next segment. */
  lemma {:induction false} WrittenHead(segs: seq<Segment>, tail: string) returns (q: string, rest: string)
    ensures Written(segs, tail) == EscapeFormat(q) + rest && (rest == [] || rest[0] == '$')
  {
    if segs == [] {
      q, rest := tail, [];
    } else {
      var g := segs[0];
      q := g.lead;
      rest := "$" + g.name + ("(" + (EscapeFormat(g.body) + (")" + Written(segs[1..], tail))));
      WrittenCons(segs, tail);
      assert Written(segs, tail) == EscapeFormat(q) + rest;
    }
  }

  /** The shown text with its first segment split off. */
  lemma {:induction false} ShownCons(segs: seq<Segment>, tail: string, output: string)
    requires segs != []
    ensures output + segs[0].lead + segs[0].body + Shown(segs[1..], tail) == output + Shown(segs, tail)
  {
  }

  /** The labels of segments with the first one split off. */
  lemma {:induction false} TagsOfCons(segs: seq<Segment>, output: string, tags: seq<Tag>)
    requires segs != []
    ensures var g := segs[0];
            var start := |output| + |g.lead|;
            tags + [Tag(g.id, start, start + |g.body|)] + TagsOf(segs[1..], |output + g.lead + g.body|)
            == tags + TagsOf(segs, |output|)
  {
    var g := segs[0];
    var start := |output| + |g.lead|;
    var made := Tag(g.id, start, start + |g.body|);
    assert |output + g.lead + g.body| == |output| + |g.lead| + |g.body|;
    AppendOne(tags, made, TagsOf(segs[1..], |output| + |g.lead| + |g.body|));
  }

  lemma {:induction false} AppendOne<T>(a: seq<T>, x: T, b: seq<T>)
    ensures a + [x] + b == a + ([x] + b)
  {
  }

  /** The state the loop stops in after reading segments, then `tail`,
      from a state with `output`, open label start `startId` and `tags`. */
  function Reading(segs: seq<Segment>, tail: string, output: string, startId: int, tags: seq<Tag>): FormatState
    decreases |segs|
  {
    if segs == [] then FormatState([], 0, output + tail, startId, tags)
    else
      var g := segs[0];
      var start := |output| + |g.lead|;
      Reading(segs[1..], tail, output + g.lead + g.body, start, tags + [Tag(g.id, start, start + |g.body|)])
  }

  /** Reading segments adds the shown text to the output and one label per
      segment, over its body, to the labels. */
  lemma {:induction false} ReadingShows(segs: seq<Segment>, tail: string, output: string, startId: int, tags: seq<Tag>)
    ensures Reading(segs, tail, output, startId, tags).parse == []
    ensures Reading(segs, tail, output, startId, tags).part == 0
    ensures Reading(segs, tail, output, startId, tags).output == output + Shown(segs, tail)
    ensures Reading(segs, tail, output, startId, tags).tags == tags + TagsOf(segs, |output|)
    decreases |segs|
  {
    if segs != [] {
      var g := segs[0];
      var start := |output| + |g.lead|;
      var made := Tag(g.id, start, start + |g.body|);
      ReadingShows(segs[1..], tail, output + g.lead + g.body, start, tags + [made]);
      ShownCons(segs, tail, output);
      TagsOfCons(segs, output, tags);
    }
  }

  /** The turn at the `$` of a segment: the lead goes to the output and
      the label opens at the end of it. */
  lemma {:induction false} SegmentDollar(g: Segment, after: string, output: string, startId: int, tags: seq<Tag>)
    requires WritableSegment(g)
    ensures SameOutcome(FormatState(EscapeFormat(g.lead) + "$" + g.name
                                      + ("(" + (EscapeFormat(g.body) + (")" + after))), 0, output, startId, tags),
                        FormatState(g.name + ("(" + (EscapeFormat(g.body) + (")" + after))), 1,
                                    output + g.lead, |output| + |g.lead|, tags))
  {
    var rest := "(" + (EscapeFormat(g.body) + (")" + after));
    DollarNamePieces(g.lead, g.name, rest);
    StepDollar(g.lead, g.name, rest, output, startId, tags);
  }

  lemma {:induction false} DollarNamePieces(lead: string, name: string, rest: string)
    requires Unformatted(name)
    ensures EscapeFormat(lead) + "$" + name + rest == EscapeFormat(lead) + "$" + EscapeFormat(name) + rest
  {
    EscapeUnformatted(name);
  }

  /** The turn at the `(` of a writable segment: the body goes to the
      output, labelled with the id. */
  lemma {:induction false} SegmentOpen(g: Segment, after: string, output: string, startId: int, tags: seq<Tag>)
    requires WritableSegment(g)
    ensures SameOutcome(FormatState(g.name + ("(" + (EscapeFormat(g.body) + (")" + after))), 1,
                                    output, startId, tags),
                        FormatState(")" + after, 2, output + g.body, startId,
                                    tags + [Tag(g.id, startId, startId + |g.body|)]))
  {
    StepOpen(g.name, g.id, g.body, ")" + after, output, startId, tags);
  }

  /** Escaped text goes to the output without its escapes. */
  lemma {:induction false} FormatLoopPlain(st: FormatState, t: string)
    requires st.part <= 2 && st.parse == EscapeFormat(t)
    ensures EndsIn(st, Ok(FormatState([], st.part, st.output + t, st.startId, st.tags)))
  {
    if st.parse == [] {
      assert |t| <= |EscapeFormat(t)| by {
        EscapeNoShorter(t);
      }
      assert st.output + t == st.output;
    } else {
      StepPlain(st, t);
      LoopTurn(st, st.(parse := [], output := st.output + t));
    }
  }

  /** Escaping never shortens a text. */
  lemma {:induction false} EscapeNoShorter(s: string)
    ensures |s| <= |EscapeFormat(s)|
    decreases |s|
  {
    if s != [] {
      EscapeNoShorter(s[1..]);
    }
  }

  /** The three turns that read a writable segment, followed by escaped
      text and then nothing or the `$` of the next segment: the lead and
      the body go to the output, and the body is labelled with the id. */
  lemma {:induction false} SegmentTurns(g: Segment, q: string, rest: string, after: string, written: string,
                                        output: string, startId: int, tags: seq<Tag>, next: FormatState)
    requires WritableSegment(g)
    requires rest == [] || (IsFormatChar(rest[0]) && rest[0] != '\\')
    requires after == EscapeFormat(q) + rest
    requires written == EscapeFormat(g.lead) + "$" + g.name + ("(" + (EscapeFormat(g.body) + (")" + after)))
    requires next == FormatState(after, 0, output + g.lead + g.body, |output| + |g.lead|,
                                 tags + [Tag(g.id, |output| + |g.lead|, |output| + |g.lead| + |g.body|)])
    ensures SameOutcome(FormatState(written, 0, output, startId, tags), next)
  {
    var made := tags + [Tag(g.id, |output| + |g.lead|, |output| + |g.lead| + |g.body|)];
    var closing := FormatState(")" + after, 2, output + g.lead + g.body, |output| + |g.lead|, made);
    SegmentLabel(g, after, output, startId, tags);
    CloseTurn(q, rest, after, output + g.lead + g.body, |output| + |g.lead|, made);
    SameOutcomeChain(FormatState(written, 0, output, startId, tags), closing, next);
  }

  /** Sharing an outcome is transitive. */
  lemma SameOutcomeChain(a: FormatState, b: FormatState, c: FormatState)
    requires a.part <= 2 && b.part <= 2 && c.part <= 2
    requires SameOutcome(a, b) && SameOutcome(b, c)
    ensures SameOutcome(a, c)
  {
  }

  /** The turns at the `$` and the `(` of a writable segment: the lead and
      the body go to the output, and the body is labelled with the id. */
  lemma {:induction false} SegmentLabel(g: Segment, after: string, output: string, startId: int, tags: seq<Tag>)
    requires WritableSegment(g)
    ensures SameOutcome(FormatState(EscapeFormat(g.lead) + "$" + g.name
                                      + ("(" + (EscapeFormat(g.body) + (")" + after))), 0, output, startId, tags),
                        FormatState(")" + after, 2, output + g.lead + g.body, |output| + |g.lead|,
                                    tags + [Tag(g.id, |output| + |g.lead|, |output| + |g.lead| + |g.body|)]))
  {
    SegmentDollar(g, after, output, startId, tags);
    SegmentOpen(g, after, output + g.lead, |output| + |g.lead|, tags);
  }

  /** `StepClose`, on the escaped text after the `)` given as `after`. */
  lemma {:induction false} CloseTurn(q: string, rest: string, after: string, output: string, startId: int, tags: seq<Tag>)
    requires rest == [] || (IsFormatChar(rest[0]) && rest[0] != '\\')
    requires after == EscapeFormat(q) + rest
    ensures SameOutcome(FormatState(")" + after, 2, output, startId, tags), FormatState(after, 0, output, startId, tags))
  {
    StepClose(q, rest, output, startId, tags);
  }

  /** With no segment left, the loop reads the tail back. */
  lemma WrittenTail(segs: seq<Segment>, tail: string, output: string, startId: int, tags: seq<Tag>)
    requires segs == []
    ensures EndsIn(FormatState(Written(segs, tail), 0, output, startId, tags),
                   Ok(Reading(segs, tail, output, startId, tags)))
  {
    FormatLoopPlain(FormatState(EscapeFormat(tail), 0, output, startId, tags), tail);
  }

  /** The turns that read the first of written segments. */
  lemma {:induction false} WrittenTurns(segs: seq<Segment>, tail: string, output: string, startId: int, tags: seq<Tag>,
                                        next: FormatState)
    requires segs != [] && Writable(segs)
    requires next == FormatState(Written(segs[1..], tail), 0, output + segs[0].lead + segs[0].body,
                                 |output| + |segs[0].lead|,
                                 tags + [Tag(segs[0].id, |output| + |segs[0].lead|,
                                             |output| + |segs[0].lead| + |segs[0].body|)])
    ensures SameOutcome(FormatState(Written(segs, tail), 0, output, startId, tags), next)
  {
    WrittenCons(segs, tail);
    var q, rest := WrittenHead(segs[1..], tail);
    SegmentTurns(segs[0], q, rest, Written(segs[1..], tail), Written(segs, tail), output, startId, tags, next);
  }

  /** The loop reads written segments back from state 0. */
  lemma {:induction false} FormatLoopWritten(segs: seq<Segment>, tail: string, output: string, startId: int, tags: seq<Tag>)
    requires Writable(segs)
    ensures EndsIn(FormatState(Written(segs, tail), 0, output, startId, tags),
                   Ok(Reading(segs, tail, output, startId, tags)))
    decreases |segs|
  {
    if segs == [] {
      WrittenTail(segs, tail, output, startId, tags);
    } else {
      var g, more := segs[0], segs[1..];
      var start := |output| + |g.lead|;
      var made := tags + [Tag(g.id, start, start + |g.body|)];
      var next := FormatState(Written(more, tail), 0, output + g.lead + g.body, start, made);
      WrittenTurns(segs, tail, output, startId, tags, next);
      FormatLoopWritten(more, tail, output + g.lead + g.body, start, made);
      assert Reading(segs, tail, output, startId, tags) == Reading(more, tail, output + g.lead + g.body, start, made);
      OutcomeThrough(FormatState(Written(segs, tail), 0, output, startId, tags), next,
                     Ok(Reading(segs, tail, output, startId, tags)));
    }
  }

  /** The labels of segments: the first one's, then the others' after its
      body. */
  lemma {:induction false} TagsOfHead(segs: seq<Segment>, offset: int)
    requires segs != []
    ensures var g := segs[0];
            var tags := TagsOf(segs, offset);
            tags[0] == Tag(g.id, offset + |g.lead|, offset + |g.lead| + |g.body|)
            && tags[1..] == TagsOf(segs[1..], offset + |g.lead| + |g.body|)
  {
    var g := segs[0];
    var rest := TagsOf(segs[1..], offset + |g.lead| + |g.body|);
    assert TagsOf(segs, offset) == [Tag(g.id, offset + |g.lead|, offset + |g.lead| + |g.body|)] + rest;
  }

  /** A body placed after `before` is found again at `|before|`. */
  lemma {:induction false} BodyAt(before: string, body: string, after: string)
    ensures |before| + |body| <= |before + body + after|
    ensures (before + body + after)[|before|..|before| + |body|] == body
  {
  }

  /** The label of segment `k` marks its body in the shown text, which
      begins after `output`. */
  ghost predicate MarkAt(segs: seq<Segment>, tail: string, output: string, k: nat)
    requires k < |segs|
  {
    var t := TagsOf(segs, |output|)[k];
    0 <= t.start <= t.end <= |output + Shown(segs, tail)|
    && (output + Shown(segs, tail))[t.start..t.end] == segs[k].body
  }

  /** The first label marks the first body. */
  lemma {:induction false} FirstMarksBody(segs: seq<Segment>, tail: string, output: string)
    requires segs != []
    ensures MarkAt(segs, tail, output, 0)
  {
    var g, more := segs[0], segs[1..];
    ShownCons(segs, tail, output);
    TagsOfHead(segs, |output|);
    BodyAt(output + g.lead, g.body, Shown(more, tail));
    assert |output + g.lead| == |output| + |g.lead|;
  }

  /** A later label marks its body as it does after the first segment. */
  lemma {:induction false} LaterMarksBody(segs: seq<Segment>, tail: string, output: string, k: nat)
    requires 0 < k < |segs|
    requires MarkAt(segs[1..], tail, output + segs[0].lead + segs[0].body, k - 1)
    ensures MarkAt(segs, tail, output, k)
  {
    var g, more := segs[0], segs[1..];
    var next := output + g.lead + g.body;
    var tags := TagsOf(segs, |output|);
    ShownCons(segs, tail, output);
    assert next + Shown(more, tail) == output + Shown(segs, tail);
    TagsOfHead(segs, |output|);
    assert |next| == |output| + |g.lead| + |g.body|;
    var after := tags[1..];
    assert after == TagsOf(more, |next|);
    assert tags[k] == after[k - 1];
    assert segs[k] == more[k - 1];
  }

  /** The label of segment `k` marks its body in the shown text. */
  lemma {:induction false} TagMarksBody(segs: seq<Segment>, tail: string, output: string, k: nat)
    requires k < |segs|
    ensures MarkAt(segs, tail, output, k)
    decreases k
  {
    if k == 0 {
      FirstMarksBody(segs, tail, output);
    } else {
      TagMarksBody(segs[1..], tail, output + segs[0].lead + segs[0].body, k - 1);
      LaterMarksBody(segs, tail, output, k);
    }
  }

  /** Each label marks the body of its segment in the shown text. */
  lemma {:induction false} TagsMarkBodies(segs: seq<Segment>, tail: string, output: string)
    ensures forall k :: 0 <= k < |segs| ==>
              var t := TagsOf(segs, |output|)[k];
              0 <= t.start <= t.end <= |output + Shown(segs, tail)|
              && (output + Shown(segs, tail))[t.start..t.end] == segs[k].body
  {
    forall k | 0 <= k < |segs|
      ensures var t := TagsOf(segs, |output|)[k];
              0 <= t.start <= t.end <= |output + Shown(segs, tail)|
              && (output + Shown(segs, tail))[t.start..t.end] == segs[k].body
    {
      TagMarksBody(segs, tail, output, k);
      assert MarkAt(segs, tail, output, k);
    }
  }

  /** What `Format` gives for written segments when no id repeats: the
      shown text, with every id listed in the order written and labelling
      the body of its segment. */
  ghost predicate ReadsBack(segs: seq<Segment>, tail: string, f: Formatted) {
    && f.text == Shown(segs, tail)
    && f.chunks.ids == TagIds(TagsOf(segs, 0))
    && forall k :: 0 <= k < |segs| ==>
         && segs[k].id in f.chunks.bounds
         && f.chunks.bounds[segs[k].id] == Bounds(TagsOf(segs, 0)[k].start, TagsOf(segs, 0)[k].end)
         && 0 <= f.chunks.bounds[segs[k].id].start <= f.chunks.bounds[segs[k].id].end <= |f.text|
         && f.text[f.chunks.bounds[segs[k].id].start..f.chunks.bounds[segs[k].id].end] == segs[k].body
  }

  /** The round trip of the formatting language: `Format` reads written
      segments back, unless an id is used twice, which fails with
      `Argument(DuplicateKey)`. */
  lemma {:induction false} FormatWritten(segs: seq<Segment>, tail: string)
    requires Writable(segs)
    ensures ListedOnce(TagIds(TagsOf(segs, 0))) ==>
              FormatText(Written(segs, tail)).Ok? && ReadsBack(segs, tail, FormatText(Written(segs, tail)).value)
    ensures !ListedOnce(TagIds(TagsOf(segs, 0))) ==>
              FormatText(Written(segs, tail)) == Err(Argument(DuplicateKey))
  {
    var text := Written(segs, tail);
    var last := Reading(segs, tail, [], -1, []);
    var tags := TagsOf(segs, 0);
    FormatLoopWritten(segs, tail, [], -1, []);
    assert FormatLoop(Initial(text)) == Ok(last);
    ReadingShows(segs, tail, [], -1, []);
    assert last.output == Shown(segs, tail) && last.tags == tags && last.part == 0;
    TagsMarkBodies(segs, tail, []);
    assert [] + Shown(segs, tail) == Shown(segs, tail);
    var length := |last.output|;
    assert Inside(tags, length);
    AddAllBoundsOutcome(NoChunks, length, tags);
    FreshIdsMeans(tags, NoChunks.bounds.Keys);
    if ListedOnce(TagIds(tags)) {
      AddAllBoundsKeeps(NoChunks, length, tags);
      AddAllBoundsAdded(NoChunks, length, tags);
      var c := AddAllBounds(NoChunks, length, tags).value;
      assert FormatText(text) == Ok(Formatted(last.output, c));
      assert c.ids == TagIds(tags);
      forall k | 0 <= k < |segs|
        ensures segs[k].id in c.bounds && c.bounds[segs[k].id] == Bounds(tags[k].start, tags[k].end)
      {
        assert tags[k].id == segs[k].id;
      }
    }
  }

  /** Escaped text comes out without its escapes, with no label; text with
      no command character comes out as it is. */
  lemma {:induction false} FormatPlain(text: string)
    ensures FormatText(EscapeFormat(text)) == Ok(Formatted(text, NoChunks))
    ensures Unformatted(text) ==> FormatText(text) == Ok(Formatted(text, NoChunks))
  {
    FormatLoopPlain(Initial(EscapeFormat(text)), text);
    assert [] + text == text;
    assert FormatLoop(Initial(EscapeFormat(text))) == Ok(FormatState([], 0, text, -1, []));
    if Unformatted(text) {
      EscapeUnformatted(text);
    }
  }

  // ---------------------------------------------------------------------
  // The examples of the formatting language
  // ---------------------------------------------------------------------

  /** A single written segment, then a tail: the lead, the body and the
      tail are shown, and the id labels the body. */
  lemma {:induction false} FormatOneSegment(lead: string, name: string, id: string, body: string, tail: string,
                                            text: string, shown: string, start: int, end: int)
    requires WritableSegment(Segment(lead, name, id, body))
    requires text == EscapeFormat(lead) + "$" + name + "(" + EscapeFormat(body) + ")" + EscapeFormat(tail)
    requires shown == lead + body + tail && start == |lead| && end == |lead| + |body|
    ensures var r := FormatText(text);
            && r.Ok? && r.value.text == shown
            && id in r.value.chunks.bounds && r.value.chunks.bounds[id] == Bounds(start, end)
  {
    var g := Segment(lead, name, id, body);
    var segs := [g];
    assert segs[1..] == [];
    assert Written(segs, tail) == text;
    assert Writable(segs);
    var tags := TagsOf(segs, 0);
    assert tags == [Tag(id, start, end)];
    assert TagIds(tags) == [id];
    assert ListedOnce([id]) by {
      assert [id][..0] == [];
    }
    FormatWritten(segs, tail);
    assert Shown(segs, tail) == shown;
  }

  /** `Hello $id(World)!` is `Hello `, then `$id(World)`, then `!`, none
      of which needs an escape. */
  lemma ExampleSimpleWritten(text: string, lead: string, body: string, tail: string)
    requires text == "Hello $id(World)!" && lead == "Hello " && body == "World" && tail == "!"
    ensures text == EscapeFormat(lead) + "$" + "id" + "(" + EscapeFormat(body) + ")" + EscapeFormat(tail)
  {
    JoinSimple(text, lead, body, tail);
    UnformattedSimple(lead, body, tail);
    WrittenPlain(text, lead, "id", body, tail);
  }

  /** The simple example, cut into its pieces. */
  lemma JoinSimple(text: string, lead: string, body: string, tail: string)
    requires text == "Hello $id(World)!" && lead == "Hello " && body == "World" && tail == "!"
    ensures text == lead + "$" + "id" + "(" + body + ")" + tail
  {
  }

  /** The lead, body and tail of the simple example hold no command
      character. */
  lemma UnformattedSimple(lead: string, body: string, tail: string)
    requires lead == "Hello " && body == "World" && tail == "!"
    ensures Unformatted(lead) && Unformatted(body) && Unformatted(tail)
  {
  }

  /** A segment whose lead, body and tail hold no command character is
      written as it is. */
  lemma {:induction false} WrittenPlain(text: string, lead: string, name: string, body: string, tail: string)
    requires Unformatted(lead) && Unformatted(body) && Unformatted(tail)
    requires text == lead + "$" + name + "(" + body + ")" + tail
    ensures text == EscapeFormat(lead) + "$" + name + "(" + EscapeFormat(body) + ")" + EscapeFormat(tail)
  {
    EscapeUnformatted(lead);
    EscapeUnformatted(body);
    EscapeUnformatted(tail);
  }

  /** Text with no command character, then one command character: only
      the last one is escaped. */
  lemma EscapeLastCommand(s: string, c: char, t: string, escaped: string)
    requires Unformatted(s) && IsFormatChar(c) && t == s + [c] && escaped == s + ['\\', c]
    ensures EscapeFormat(t) == escaped
  {
    EscapeUnformatted(s);
    EscapeAppend(s, [c]);
    assert [c][1..] == [];
  }

  /** `Hello \$$id (World\))!` is `Hello $` escaped, then `$id (`, then
      `World)` escaped, then `)` and `!`. */
  lemma ExampleEscapedWritten(text: string, lead: string, body: string, tail: string)
    requires text == "Hello \\$$id (World\\))!" && lead == "Hello $" && body == "World)" && tail == "!"
    ensures text == EscapeFormat(lead) + "$" + "id " + "(" + EscapeFormat(body) + ")" + EscapeFormat(tail)
  {
    var el, eb := "Hello \\$", "World\\)";
    EscapedPieces(lead, body, tail, el, eb);
    JoinEscaped(text, el, eb, tail);
    WrittenEscaped(text, lead, "id ", body, tail, el, eb);
  }

  /** The lead and body of the escaped example each end in a command
      character, which is escaped; the tail holds none. */
  lemma EscapedPieces(lead: string, body: string, tail: string, el: string, eb: string)
    requires lead == "Hello $" && body == "World)" && tail == "!" && el == "Hello \\$" && eb == "World\\)"
    ensures EscapeFormat(lead) == el && EscapeFormat(body) == eb && Unformatted(tail)
  {
    EscapeLastCommand("Hello ", '$', lead, el);
    EscapeLastCommand("World", ')', body, eb);
  }

  /** The escaped example, cut into its written pieces. */
  lemma JoinEscaped(text: string, el: string, eb: string, tail: string)
    requires text == "Hello \\$$id (World\\))!" && el == "Hello \\$" && eb == "World\\)" && tail == "!"
    ensures text == el + "$" + "id " + "(" + eb + ")" + tail
  {
  }

  /** A segment written from its escaped pieces. */
  lemma {:induction false} WrittenEscaped(text: string, lead: string, name: string, body: string, tail: string,
                                          el: string, eb: string)
    requires EscapeFormat(lead) == el && EscapeFormat(body) == eb && Unformatted(tail)
    requires text == el + "$" + name + "(" + eb + ")" + tail
    ensures text == EscapeFormat(lead) + "$" + name + "(" + EscapeFormat(body) + ")" + EscapeFormat(tail)
  {
    EscapeUnformatted(tail);
  }

  /** The name `id` reads as the one-word id `id`. */
  lemma ExampleId(lead: string, name: string, body: string)
    requires name == "id"
    ensures WritableSegment(Segment(lead, name, "id", body))
  {
    PaddedWritable(lead, "", "id", "", body);
    assert "" + "id" + "" == name;
  }

  /** The name `id` followed by a space trims to the one-word id `id`. */
  lemma ExamplePaddedId(lead: string, name: string, body: string)
    requires name == "id "
    ensures WritableSegment(Segment(lead, name, "id", body))
  {
    PaddedWritable(lead, "", "id", " ", body);
    assert "" + "id" + " " == name;
  }

  /** The shown text of the escaped example, in its three pieces. */
  lemma ShownEscaped(lead: string, body: string, tail: string, shown: string)
    requires lead == "Hello $" && body == "World)" && tail == "!" && shown == "Hello $World)!"
    ensures shown == lead + body + tail
  {
  }

  /** The shown text of the simple example, in its three pieces. */
  lemma ShownSimple(lead: string, body: string, tail: string, shown: string)
    requires lead == "Hello " && body == "World" && tail == "!" && shown == "Hello World!"
    ensures shown == lead + body + tail
  {
  }

  /** `Hello $id(World)!` shows `Hello World!` with `id` over 6 to 11. */
  lemma {:induction false} FormatExampleSimple(text: string)
    requires text == "Hello $id(World)!"
    ensures var r := FormatText(text);
            && r.Ok? && r.value.text == "Hello World!"
            && "id" in r.value.chunks.bounds && r.value.chunks.bounds["id"] == Bounds(6, 11)
  {
    var lead, body, tail := "Hello ", "World", "!";
    ExampleSimpleWritten(text, lead, body, tail);
    ExampleId(lead, "id", body);
    ShownSimple(lead, body, tail, "Hello World!");
    FormatOneSegment(lead, "id", "id", body, tail, text, "Hello World!", 6, 11);
  }

  /** `Hello \$$id (World\))!`: the escaped `$` and `)` are shown as they
      are, and `id` labels `World)` at 7 to 13 of `Hello $World)!`. */
  lemma {:induction false} FormatExampleEscaped(text: string)
    requires text == "Hello \\$$id (World\\))!"
    ensures var r := FormatText(text);
            && r.Ok? && r.value.text == "Hello $World)!"
            && "id" in r.value.chunks.bounds && r.value.chunks.bounds["id"] == Bounds(7, 13)
  {
    var lead, body, tail := "Hello $", "World)", "!";
    ExampleEscapedWritten(text, lead, body, tail);
    ExamplePaddedId(lead, "id ", body);
    ShownEscaped(lead, body, tail, "Hello $World)!");
    FormatOneSegment(lead, "id ", "id", body, tail, text, "Hello $World)!", 7, 13);
  }

  // ---------------------------------------------------------------------
  // The errors of a malformed label
  // ---------------------------------------------------------------------

  /** A turn whose split finds a command other than the one its part
      expects stops the loop with that part's error. */
  lemma {:induction false} MisplacedOnSplit(st: FormatState, p: string, c: char, q: string, rest: string, e: Error)
    requires st.parse != [] && st.part <= 2 && IsFormatChar(c) && c != '\\'
    requires SplitText(st.parse, FormatEscape, FormatCommands) == Ok(Split(p, q, rest, Some(CommandFor(c))))
    requires st.part == 0 ==> c != '$' && e == FormatParse(IdMustBeginWithDollar)
    requires st.part == 1 ==> c != '(' && e == FormatParse(IdMustBeFollowedByOpen)
    requires st.part == 2 ==> c != ')' && e == FormatParse(TextMustBeClosed)
    ensures EndsIn(st, Err(e))
  {
  }

  /** The loop ending in an error makes `FormatText` fail with it. */
  lemma {:induction false} FailsWith(text: string, e: Error)
    requires EndsIn(Initial(text), Err(e))
    ensures FormatText(text) == Err(e)
  {
  }

  /** `FailsWith`, through a state the loop reaches from the start. */
  lemma {:induction false} FailsThrough(text: string, st: FormatState, e: Error)
    requires st.part <= 2 && SameOutcome(Initial(text), st) && EndsIn(st, Err(e))
    ensures FormatText(text) == Err(e)
  {
    OutcomeThrough(Initial(text), st, Err(e));
    FailsWith(text, e);
  }

  /** A `(` or `)` where a `$` is due: ids must begin with `$`. */
  lemma {:induction false} FormatNoDollar(p: string, c: char, q: string, rest: string)
    requires c == '(' || c == ')'
    requires rest == [] || (IsFormatChar(rest[0]) && rest[0] != '\\')
    ensures FormatText(EscapeFormat(p) + [c] + EscapeFormat(q) + rest) == Err(FormatParse(IdMustBeginWithDollar))
  {
    var text := EscapeFormat(p) + [c] + EscapeFormat(q) + rest;
    SplitAroundEscaped(p, c, q, rest, text);
    MisplacedOnSplit(Initial(text), p, c, q, rest, FormatParse(IdMustBeginWithDollar));
    FailsWith(text, FormatParse(IdMustBeginWithDollar));
  }

  /** A `$` or `)` after the id where a `(` is due. */
  lemma {:induction false} FormatNoOpen(p: string, q: string, c: char, r: string, rest: string)
    requires Unformatted(q) && (c == '$' || c == ')')
    requires rest == [] || (IsFormatChar(rest[0]) && rest[0] != '\\')
    ensures FormatText(EscapeFormat(p) + "$" + q + [c] + EscapeFormat(r) + rest)
            == Err(FormatParse(IdMustBeFollowedByOpen))
  {
    var e := FormatParse(IdMustBeFollowedByOpen);
    var after := [c] + EscapeFormat(r) + rest;
    var text := EscapeFormat(p) + "$" + q + [c] + EscapeFormat(r) + rest;
    NoOpenPieces(p, q, c, r, rest, after, text);
    DollarFromStart(p, q, after);
    var st := FormatState(q + after, 1, p, |p|, []);
    NoOpenTurn(q, c, r, rest, st, e);
    FailsThrough(text, st, e);
  }

  /** The text of `FormatNoOpen`, cut after the `$` and after the id. */
  lemma {:induction false} NoOpenPieces(p: string, q: string, c: char, r: string, rest: string, after: string, text: string)
    requires Unformatted(q)
    requires after == [c] + EscapeFormat(r) + rest
    requires text == EscapeFormat(p) + "$" + q + [c] + EscapeFormat(r) + rest
    ensures text == EscapeFormat(p) + "$" + EscapeFormat(q) + after
    ensures q + after == EscapeFormat(q) + [c] + EscapeFormat(r) + rest
  {
    EscapeUnformatted(q);
  }

  /** The turn of part 1 on an id followed by `$` or `)`. */
  lemma {:induction false} NoOpenTurn(q: string, c: char, r: string, rest: string, st: FormatState, e: Error)
    requires c == '$' || c == ')'
    requires rest == [] || (IsFormatChar(rest[0]) && rest[0] != '\\')
    requires st.parse == EscapeFormat(q) + [c] + EscapeFormat(r) + rest && st.part == 1
    requires e == FormatParse(IdMustBeFollowedByOpen)
    ensures EndsIn(st, Err(e))
  {
    SplitAroundEscaped(q, c, r, rest, st.parse);
    MisplacedOnSplit(st, q, c, r, rest, e);
  }

  /** An id that does not trim to one word of letters and digits. */
  lemma {:induction false} FormatBadId(p: string, q: string, body: string, rest: string)
    requires Unformatted(q)
    requires rest == [] || (IsFormatChar(rest[0]) && rest[0] != '\\')
    requires !IsOneWordWithoutSymbols(Some(Trim(q)))
    ensures FormatText(EscapeFormat(p) + "$" + q + "(" + EscapeFormat(body) + rest) == Err(FormatParse(IdNotOneWord))
  {
    var text := EscapeFormat(p) + "$" + q + "(" + EscapeFormat(body) + rest;
    var after := "(" + (EscapeFormat(body) + rest);
    EscapeUnformatted(q);
    assert text == EscapeFormat(p) + "$" + EscapeFormat(q) + after;
    DollarFromStart(p, q, after);
    StepBadId(q, body, rest, p, |p|, []);
  }

  /** A `$` or `(` inside the labelled text where a `)` is due. */
  lemma {:induction false} FormatNoClose(p: string, q: string, body: string, c: char, r: string, rest: string)
    requires Unformatted(q) && IsOneWordWithoutSymbols(Some(Trim(q))) && (c == '$' || c == '(')
    requires rest == [] || (IsFormatChar(rest[0]) && rest[0] != '\\')
    ensures FormatText(EscapeFormat(p) + "$" + q + "(" + EscapeFormat(body) + [c] + EscapeFormat(r) + rest)
            == Err(FormatParse(TextMustBeClosed))
  {
    var e := FormatParse(TextMustBeClosed);
    var after := [c] + EscapeFormat(r) + rest;
    var text := EscapeFormat(p) + "$" + q + "(" + EscapeFormat(body) + [c] + EscapeFormat(r) + rest;
    NoClosePieces(p, q, body, c, r, rest, after, text);
    ReadOpenedLabel(p, q, body, after);
    var st := OpenedLabel(p, q, body, after);
    NoCloseTurn(c, r, rest, st, e);
    FailsThrough(text, st, e);
  }

  /** The text of `FormatNoClose`, cut after the labelled text. */
  lemma {:induction false} NoClosePieces(p: string, q: string, body: string, c: char, r: string, rest: string,
                                         after: string, text: string)
    requires after == [c] + EscapeFormat(r) + rest
    requires text == EscapeFormat(p) + "$" + q + "(" + EscapeFormat(body) + [c] + EscapeFormat(r) + rest
    ensures text == EscapeFormat(p) + "$" + q + ("(" + (EscapeFormat(body) + after))
  {
  }

  /** The turn of part 2 on a `$` or `(`. */
  lemma {:induction false} NoCloseTurn(c: char, r: string, rest: string, st: FormatState, e: Error)
    requires c == '$' || c == '('
    requires rest == [] || (IsFormatChar(rest[0]) && rest[0] != '\\')
    requires st.parse == [c] + EscapeFormat(r) + rest && st.part == 2
    requires e == FormatParse(TextMustBeClosed)
    ensures EndsIn(st, Err(e))
  {
    assert EscapeFormat([]) + [c] + EscapeFormat(r) + rest == st.parse;
    SplitAroundEscaped([], c, r, rest, st.parse);
    MisplacedOnSplit(st, [], c, r, rest, e);
  }

  /** The state after reading `p$q(body` from the start, where `q` trims
      to one word and `rest` is nothing or begins with a command. */
  function OpenedLabel(p: string, q: string, body: string, rest: string): FormatState {
    FormatState(rest, 2, p + body, |p|, [Tag(Trim(q), |p|, |p| + |body|)])
  }

  /** Reading `p$q(body`, with `p` and `body` escaped, from the start: the
      `$` opens the label, the `(` labels the body with the trimmed id. */
  lemma {:induction false} ReadOpenedLabel(p: string, q: string, body: string, rest: string)
    requires Unformatted(q) && IsOneWordWithoutSymbols(Some(Trim(q)))
    requires rest == [] || (IsFormatChar(rest[0]) && rest[0] != '\\')
    ensures SameOutcome(Initial(EscapeFormat(p) + "$" + q + ("(" + (EscapeFormat(body) + rest))),
                        OpenedLabel(p, q, body, rest))
  {
    EscapeUnformatted(q);
    DollarFromStart(p, q, "(" + (EscapeFormat(body) + rest));
    OpenBody(p, q, body, rest);
  }

  /** From the start, the `$` after `p` opens a label at the end of `p`. */
  lemma {:induction false} DollarFromStart(p: string, q: string, after: string)
    requires after == [] || (IsFormatChar(after[0]) && after[0] != '\\')
    ensures SameOutcome(Initial(EscapeFormat(p) + "$" + EscapeFormat(q) + after), FormatState(q + after, 1, p, |p|, []))
  {
    var none: string, noTags: seq<Tag> := [], [];
    StepDollar(p, q, after, none, -1, noTags);
    assert none + p == p;
  }

  /** After `p$`, the `(` labels the body with the trimmed id. */
  lemma {:induction false} OpenBody(p: string, q: string, body: string, rest: string)
    requires Unformatted(q) && IsOneWordWithoutSymbols(Some(Trim(q)))
    requires rest == [] || (IsFormatChar(rest[0]) && rest[0] != '\\')
    ensures SameOutcome(FormatState(q + ("(" + (EscapeFormat(body) + rest)), 1, p, |p|, []), OpenedLabel(p, q, body, rest))
  {
    var noTags: seq<Tag> := [];
    var tag := Tag(Trim(q), |p|, |p| + |body|);
    StepOpen(q, Trim(q), body, rest, p, |p|, noTags);
    assert noTags + [tag] == [tag];
  }

  /** A label left open at the end of the text, before or after its `(`. */
  lemma {:induction false} FormatUnfinished(p: string, q: string, body: string)
    requires Unformatted(q)
    ensures FormatText(EscapeFormat(p) + "$" + q) == Err(FormatParse(UnfinishedId))
    ensures IsOneWordWithoutSymbols(Some(Trim(q))) ==>
              FormatText(EscapeFormat(p) + "$" + q + "(" + EscapeFormat(body)) == Err(FormatParse(UnfinishedId))
  {
    UnfinishedBeforeOpen(p, q, EscapeFormat(p) + "$" + q);
    if IsOneWordWithoutSymbols(Some(Trim(q))) {
      UnfinishedAfterOpen(p, q, body, EscapeFormat(p) + "$" + q + "(" + EscapeFormat(body));
    }
  }

  /** A loop that ends with a label still open fails `FormatText`. */
  lemma {:induction false} UnfinishedThrough(text: string, st: FormatState, last: FormatState)
    requires st.part <= 2 && SameOutcome(Initial(text), st) && EndsIn(st, Ok(last)) && last.part != 0
    ensures FormatText(text) == Err(FormatParse(UnfinishedId))
  {
    OutcomeThrough(Initial(text), st, Ok(last));
  }

  /** `p$q` ends before the `(`. */
  lemma {:induction false} UnfinishedBeforeOpen(p: string, q: string, text: string)
    requires Unformatted(q) && text == EscapeFormat(p) + "$" + q
    ensures FormatText(text) == Err(FormatParse(UnfinishedId))
  {
    EscapeUnformatted(q);
    assert text == EscapeFormat(p) + "$" + EscapeFormat(q) + [];
    DollarFromStart(p, q, []);
    var st := FormatState(q + [], 1, p, |p|, []);
    FormatLoopPlain(st, q);
    UnfinishedThrough(text, st, FormatState([], 1, p + q, |p|, []));
  }

  /** `p$q(body` ends before the `)`. */
  lemma {:induction false} UnfinishedAfterOpen(p: string, q: string, body: string, text: string)
    requires Unformatted(q) && IsOneWordWithoutSymbols(Some(Trim(q)))
    requires text == EscapeFormat(p) + "$" + q + "(" + EscapeFormat(body)
    ensures FormatText(text) == Err(FormatParse(UnfinishedId))
  {
    assert text == EscapeFormat(p) + "$" + q + ("(" + (EscapeFormat(body) + []));
    ReadOpenedLabel(p, q, body, []);
    var st := OpenedLabel(p, q, body, []);
    UnfinishedThrough(text, st, st);
  }
}
