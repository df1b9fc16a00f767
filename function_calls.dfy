/** The function-call parser of exec lines: `name(a, b)` becomes the
    function name and its parameters, over the fixed table of function
    parts (escape, `(`, `)` and `,`). */
module FunctionCalls {
  import opened Wrappers
  import opened Strings
  import opened Commands
  import opened StringUtils

  /** A parsed call: the function name (absent when no `(` was met) and
      the parameters in order. */
  datatype Call = Call(name: Maybe<string>, parameters: seq<string>)

  /** Where the call parser stands: the position in the text, the pending
      characters, whether `(` was met, the name and parameters so far, and
      whether parsing goes on. */
  datatype CallState = CallState(index: nat, buffer: string, open: bool,
                                 name: Maybe<string>, params: seq<string>, parsing: bool)

  const Start := CallState(0, [], false, None, [], true)

  /** The last part of the table whose literal starts `look`. */
  function LastMatch(look: string, parts: seq<Command>): (r: Maybe<Command>)
    ensures r.Some? ==> r.value in parts && r.value.literal <= look
    ensures r.None? ==> forall c :: c in parts ==> !(c.literal <= look)
  {
    if parts == [] then None
    else
      var later := LastMatch(look, parts[1..]);
      if later.Some? then later
      else if parts[0].literal <= look then Some(parts[0])
      else None
  }

  /** The kind of the function part written as the character `c`. */
  function PartOf(c: char): (r: Maybe<CommandType>)
    ensures r.None? <==> !IsPartChar(c)
  {
    if c == '\\' then Some(Escape)
    else if c == '(' then Some(FunctionStart)
    else if c == ')' then Some(FunctionEnd)
    else if c == ',' then Some(ParamDelim)
    else None
  }

  /** The function part whose literal starts `look`.  Every literal of the
      table is one character long and no two are equal, so the part is
      read off the first character. */
  function PartAt(look: string): (r: Maybe<Command>)
    ensures r.Some? ==> look != [] && r.value.literal == [look[0]] && r.value in FunctionParts
    ensures r.None? ==> look == [] || !IsPartChar(look[0])
  {
    if look == [] then None
    else match PartOf(look[0])
      case None => None
      case Some(kind) => Some(Command(kind, [look[0]]))
  }

  /** A buffer that is not blank after trimming becomes a parameter. */
  function AddParam(params: seq<string>, buffer: string): (r: seq<string>)
    ensures Trim(buffer) == [] ==> r == params
    ensures Trim(buffer) != [] ==> r == params + [Trim(buffer)]
  {
    var out := Trim(buffer);
    if out != [] then params + [out] else params
  }

  /** One turn of the call parser at a position inside the text.  A plain
      character goes to the buffer; an escape skips itself and the part
      after it without keeping either; `(` takes the trimmed buffer as the
      name; `,` and `)` take it as a parameter when it is not blank, and
      `)` ends the parse. */
  function CallStep(text: string, st: CallState): (r: Result<CallState>)
    requires st.index < |text|
    ensures r.Ok? ==> st.index < r.value.index <= |text|
  {
    match PartOf(text[st.index])
    case None =>
      Ok(st.(index := st.index + 1, buffer := st.buffer + [text[st.index]]))
    case Some(kind) =>
      var next := st.index + 1;
      if kind == Escape then
        if !(|text| > next) then Err(ExecLine(UnexpectedEscape))
        else if PartOf(text[next]).None? then Err(ExecLine(UnknownEscapeInCall))
        else Ok(st.(index := next + 1))
      else if kind == FunctionStart then
        if st.open then Err(ExecLine(OpenedTwice))
        else Ok(st.(index := next, buffer := [], open := true, name := Some(Trim(st.buffer))))
      else if kind == FunctionEnd then
        if !st.open then Err(ExecLine(UnopenedFunction))
        else Ok(st.(index := next, buffer := [], params := AddParam(st.params, st.buffer), parsing := false))
      else if kind == ParamDelim then
        if !st.open then Err(ExecLine(UnexpectedDelimiter))
        else Ok(st.(index := next, buffer := [], params := AddParam(st.params, st.buffer)))
      else Ok(st.(index := next))
  }

  /** The call parser from a state to the end. */
  function ParseCall(text: string, st: CallState): Result<Call>
    requires st.index <= |text|
    decreases |text| - st.index, 1
  {
    if !st.parsing || st.index == |text| then Ok(Call(st.name, st.params))
    else Resume(text, st)
  }

  /** The parse after taking the turn at a position inside the text. */
  function Resume(text: string, st: CallState): Result<Call>
    requires st.index < |text|
    decreases |text| - st.index, 0
  {
    match CallStep(text, st)
    case Err(e) => Err(e)
    case Ok(next) => ParseCall(text, next)
  }

  /** The function name and parameters written in `functionText`. */
  method GetFunctionAndParameters(functionText: string) returns (r: Result<Call>)
    ensures r == ParseCall(functionText, Start)
  {
    var buffer := "";
    var readingParams := false;
    var createdParams := [];
    var parsing := true;
    var index: nat := 0;
    var outputFunction := None;
    while parsing
      invariant index <= |functionText|
      invariant parsing ==> ParseCall(functionText, CallState(index, buffer, readingParams, outputFunction, createdParams, true))
                            == ParseCall(functionText, Start)
      invariant !parsing ==> Ok(Call(outputFunction, createdParams)) == ParseCall(functionText, Start)
      decreases |functionText| - index, parsing
    {
      if index >= |functionText| {
        parsing := false;
      } else {
        var st := CallState(index, buffer, readingParams, outputFunction, createdParams, true);
        var turn := CallTurn(functionText, st);
        if turn.Err? {
          assert ParseCall(functionText, st) == Err(turn.error);
          return Err(turn.error);
        }
        assert ParseCall(functionText, st) == ParseCall(functionText, turn.value);
        index, buffer, readingParams := turn.value.index, turn.value.buffer, turn.value.open;
        outputFunction, createdParams, parsing := turn.value.name, turn.value.params, turn.value.parsing;
      }
    }
    return Ok(Call(outputFunction, createdParams));
  }

  /** One turn of the loop of `GetFunctionAndParameters`.  The source has
      the loop body inline; it is a method of its own here so that the
      loop's invariant stays small. */
  method CallTurn(functionText: string, st: CallState) returns (turn: Result<CallState>)
    requires st.index < |functionText|
    ensures turn == CallStep(functionText, st)
  {
    var index := st.index;
    var look := functionText[index..];
    var foundCommand := FindPart(look);
    assert look[0] == functionText[index];
    if foundCommand.None? {
      return Ok(st.(index := index + 1, buffer := st.buffer + [functionText[index]]));
    }
    var found := foundCommand.value;
    var next := index + |found.literal|;
    if found.kind == Escape {
      if !(|functionText| > next) {
        return Err(ExecLine(UnexpectedEscape));
      }
      var after := functionText[next..];
      var escaped := StartsWithCommand(after, FunctionParts);
      TableMatchIsPartAt(after);
      assert after[0] == functionText[next];
      if escaped.None? {
        return Err(ExecLine(UnknownEscapeInCall));
      }
      return Ok(st.(index := next + |escaped.value.literal|));
    } else if found.kind == FunctionStart {
      if st.open {
        return Err(ExecLine(OpenedTwice));
      }
      return Ok(st.(index := next, buffer := [], open := true, name := Some(Trim(st.buffer))));
    } else if found.kind == FunctionEnd {
      if !st.open {
        return Err(ExecLine(UnopenedFunction));
      }
      return Ok(st.(index := next, buffer := [], params := AddParam(st.params, st.buffer), parsing := false));
    } else if found.kind == ParamDelim {
      if !st.open {
        return Err(ExecLine(UnexpectedDelimiter));
      }
      return Ok(st.(index := next, buffer := [], params := AddParam(st.params, st.buffer)));
    }
    return Ok(st.(index := next));
  }

  /** The function part that starts `look`, searching the whole table
      and keeping the last match. */
  method FindPart(look: string) returns (foundCommand: Maybe<Command>)
    ensures foundCommand == PartAt(look)
  {
    foundCommand := None;
    var k := 0;
    while k < |FunctionParts|
      invariant 0 <= k <= |FunctionParts|
      invariant LastMatch(look, FunctionParts) ==
                (if LastMatch(look, FunctionParts[k..]).Some? then LastMatch(look, FunctionParts[k..]) else foundCommand)
    {
      LastMatchSplit(look, FunctionParts, k);
      if FunctionParts[k].literal <= look {
        foundCommand := Some(FunctionParts[k]);
      }
      k := k + 1;
    }
    TableMatchIsPartAt(look);
  }

  /** The first command of the list whose literal starts `str`. */
  method StartsWithCommand(str: string, searchCommands: seq<Command>) returns (found: Maybe<Command>)
    ensures found == StartCommand(str, searchCommands)
  {
    var k := 0;
    while k < |searchCommands|
      invariant 0 <= k <= |searchCommands|
      invariant StartCommand(str, searchCommands) == StartCommand(str, searchCommands[k..])
    {
      assert searchCommands[k..][1..] == searchCommands[k + 1..];
      if searchCommands[k].literal <= str {
        return Some(searchCommands[k]);
      }
      k := k + 1;
    }
    return None;
  }

  /** Scanning the table from `k`: the last match of the rest of the table
      wins over the part at `k`. */
  lemma LastMatchSplit(look: string, parts: seq<Command>, k: nat)
    requires k < |parts|
    ensures LastMatch(look, parts[k..]) ==
            if LastMatch(look, parts[k + 1..]).Some? then LastMatch(look, parts[k + 1..])
            else if parts[k].literal <= look then Some(parts[k]) else None
  {
    assert parts[k..][1..] == parts[k + 1..];
  }

  // ---------------------------------------------------------------------
  // What the call parser promises
  // ---------------------------------------------------------------------

  /** The characters of the function parts. */
  predicate IsPartChar(c: char) {
    c == '\\' || c == '(' || c == ')' || c == ','
  }

  /** Text with no function part in it. */
  predicate Plain(s: string) {
    forall i :: 0 <= i < |s| ==> !IsPartChar(s[i])
  }

  /** When exactly one command of a list starts the text, both the first
      and the last match find it. */
  lemma {:induction false} UniqueMatch(look: string, parts: seq<Command>, c: Command)
    requires c in parts && c.literal <= look
    requires forall d :: d in parts && d.literal <= look ==> d == c
    ensures LastMatch(look, parts) == Some(c)
    ensures StartCommand(look, parts) == Some(c)
  {
    if parts[0] != c {
      UniqueMatch(look, parts[1..], c);
    } else if c in parts[1..] {
      UniqueMatch(look, parts[1..], c);
    } else {
      assert LastMatch(look, parts[1..]).None?;
    }
  }

  /** Reading the part off the first character agrees with searching the
      table, whether the first or the last match is taken. */
  lemma TableMatchIsPartAt(look: string)
    ensures LastMatch(look, FunctionParts) == PartAt(look)
    ensures StartCommand(look, FunctionParts) == PartAt(look)
  {
    StartCommandFinds(look, FunctionParts);
    if PartAt(look).Some? {
      var c := PartAt(look).value;
      forall d | d in FunctionParts && d.literal <= look ensures d == c {
        assert d.literal[0] == look[0];
      }
      UniqueMatch(look, FunctionParts, c);
    } else {
      forall d | d in FunctionParts ensures !(d.literal <= look) {
        assert look != [] ==> d.literal[0] != look[0];
      }
    }
  }

  /** A character that is no function part goes to the buffer. */
  lemma PlainStep(text: string, st: CallState)
    requires st.index < |text| && !IsPartChar(text[st.index])
    ensures CallStep(text, st) == Ok(st.(index := st.index + 1, buffer := st.buffer + [text[st.index]]))
  {
  }

  /** Plain text is gathered into the buffer, nothing else changes. */
  lemma {:induction false} ScanPlain(text: string, st: CallState, s: string)
    requires st.parsing && st.index + |s| <= |text|
    requires text[st.index..st.index + |s|] == s && Plain(s)
    ensures ParseCall(text, st) == ParseCall(text, st.(index := st.index + |s|, buffer := st.buffer + s))
    decreases |s|
  {
    if s == [] {
      assert st.(index := st.index + |s|, buffer := st.buffer + s) == st;
    } else {
      assert text[st.index] == s[0];
      PlainStep(text, st);
      var next := st.(index := st.index + 1, buffer := st.buffer + [s[0]]);
      assert ParseCall(text, st) == ParseCall(text, next);
      assert text[next.index..next.index + |s[1..]|] == s[1..];
      ScanPlain(text, next, s[1..]);
      assert next.buffer + s[1..] == st.buffer + s;
      assert next.(index := next.index + |s[1..]|, buffer := next.buffer + s[1..])
             == st.(index := st.index + |s|, buffer := st.buffer + s);
    }
  }

  /** A successful turn leaves the rest of the parse to the next state. */
  lemma Through(text: string, st: CallState)
    requires st.parsing && st.index < |text| && CallStep(text, st).Ok?
    ensures ParseCall(text, st) == ParseCall(text, CallStep(text, st).value)
  {
  }

  /** Reading a plain name and the `(` after it: the parse goes on with
      the trimmed name, an empty buffer, and the parameters open. */
  lemma OpenCall(text: string, name: string) returns (st: CallState)
    requires Plain(name) && |name| < |text| && text[..|name|] == name && text[|name|] == '('
    ensures st == Start.(index := |name| + 1, buffer := [], open := true, name := Some(Trim(name)))
    ensures ParseCall(text, Start) == ParseCall(text, st)
  {
    assert text[0..|name|] == name;
    ScanPlain(text, Start, name);
    var st0 := Start.(index := |name|, buffer := name);
    assert Start.(index := 0 + |name|, buffer := [] + name) == st0;
    st := Start.(index := |name| + 1, buffer := [], open := true, name := Some(Trim(name)));
    assert CallStep(text, st0) == Ok(st);
    Through(text, st0);
  }

  /** A text without any function part names no function and has no
      parameters. */
  lemma NoCallWithoutParts(text: string)
    requires Plain(text)
    ensures ParseCall(text, Start) == Ok(Call(None, []))
  {
    assert text[0..|text|] == text;
    ScanPlain(text, Start, text);
  }

  /** A `)` or `,` before any `(` is refused, whatever follows. */
  lemma DelimiterBeforeOpen(s: string, delimiter: char, rest: string)
    requires Plain(s) && (delimiter == ')' || delimiter == ',')
    ensures ParseCall(s + [delimiter] + rest, Start) ==
            Err(ExecLine(if delimiter == ')' then UnopenedFunction else UnexpectedDelimiter))
  {
    var text := s + [delimiter] + rest;
    assert text[0..|s|] == s;
    ScanPlain(text, Start, s);
    var c := if delimiter == ')' then Command(FunctionEnd, ")") else Command(ParamDelim, ",");
  }

  /** A second `(` is refused. */
  lemma OpenedTwiceFails(name: string, s: string, rest: string)
    requires Plain(name) && Plain(s)
    ensures ParseCall(name + "(" + s + "(" + rest, Start) == Err(ExecLine(OpenedTwice))
  {
    var text := name + "(" + s + "(" + rest;
    var st1 := OpenCall(text, name);
    var st2 := st1.(index := |name| + 1 + |s|, buffer := s);
    assert text[st1.index..st1.index + |s|] == s;
    ScanPlain(text, st1, s);
    assert st1.(index := st1.index + |s|, buffer := st1.buffer + s) == st2;
    assert text[st2.index] == '(';
    assert CallStep(text, st2) == Err(ExecLine(OpenedTwice));
  }

  /** An escape at the very end of the text is refused. */
  lemma TrailingEscapeFails(s: string)
    requires Plain(s)
    ensures ParseCall(s + "\\", Start) == Err(ExecLine(UnexpectedEscape))
  {
    var text := s + "\\";
    assert text[0..|s|] == s;
    ScanPlain(text, Start, s);
  }

  /** An escape followed by a function part skips both: neither the escape
      nor the escaped part reaches the buffer. */
  lemma EscapeSkipsPart(text: string, st: CallState, part: Command)
    requires st.parsing && part in FunctionParts
    requires st.index + 1 + |part.literal| <= |text|
    requires text[st.index..st.index + 1 + |part.literal|] == "\\" + part.literal
    ensures ParseCall(text, st) == ParseCall(text, st.(index := st.index + 1 + |part.literal|))
  {
    var look := text[st.index..];
    assert look[0] == ("\\" + part.literal)[0] == '\\';
    assert "\\" <= look;
    assert text[st.index + 1..][..|part.literal|] == ("\\" + part.literal)[1..] == part.literal;
  }

  /** Parameters free of function parts that are not blank. */
  predicate PlainParams(params: seq<string>) {
    params == [] || (Plain(params[0]) && Trim(params[0]) != [] && PlainParams(params[1..]))
  }

  /** The parameter list written between the parentheses. */
  function ParamText(params: seq<string>): string {
    if params == [] then [] else JoinWith(params, ',')
  }

  function TrimAll(params: seq<string>): (r: seq<string>)
    ensures |r| == |params| && forall i :: 0 <= i < |r| ==> r[i] == Trim(params[i])
  {
    if params == [] then [] else [Trim(params[0])] + TrimAll(params[1..])
  }

  /** `)` after `(` ends the parse, the buffer becoming the last
      parameter when it is not blank. */
  lemma CloseStep(text: string, st: CallState)
    requires st.parsing && st.open && st.index < |text| && text[st.index] == ')'
    ensures ParseCall(text, st) == Ok(Call(st.name, AddParam(st.params, st.buffer)))
  {
    var next := st.(index := st.index + 1, buffer := [], params := AddParam(st.params, st.buffer), parsing := false);
    assert CallStep(text, st) == Ok(next);
    assert ParseCall(text, next) == Ok(Call(st.name, AddParam(st.params, st.buffer)));
  }

  /** `,` after `(` turns the buffer into a parameter when it is not blank. */
  lemma DelimiterStep(text: string, st: CallState)
    requires st.parsing && st.open && st.index < |text| && text[st.index] == ','
    ensures ParseCall(text, st) ==
            ParseCall(text, st.(index := st.index + 1, buffer := [], params := AddParam(st.params, st.buffer)))
  {
    assert CallStep(text, st) == Ok(st.(index := st.index + 1, buffer := [], params := AddParam(st.params, st.buffer)));
  }

  /** A text whose suffix from `i` is `a + b` holds `a` at `i` and `b` after it. */
  lemma SuffixSplit(text: string, i: nat, a: string, b: string)
    requires i <= |text| && text[i..] == a + b
    ensures i + |a| <= |text| && text[i..i + |a|] == a && text[i + |a|..] == b
  {
    assert text[i..][..|a|] == a;
    assert text[i..][|a|..] == b;
  }

  /** A suffix that starts with a character holds it at its position. */
  lemma SuffixHead(text: string, i: nat, c: char, b: string)
    requires i <= |text| && text[i..] == [c] + b
    ensures i < |text| && text[i] == c && text[i + 1..] == b
  {
    assert text[i..][0] == c;
    assert text[i..][1..] == b;
  }

  /** A text holding `a + b` from `i` on holds `a` at `i` and `b` after it. */
  lemma PrefixSplit(text: string, i: nat, a: string, b: string)
    requires i <= |text| && a + b <= text[i..]
    ensures i + |a| <= |text| && text[i..i + |a|] == a && b <= text[i + |a|..]
  {
    assert text[i..i + |a|] == (a + b)[..|a|];
    assert b == (a + b)[|a|..];
    forall k | 0 <= k < |b|
      ensures b[k] == text[i + |a|..][k]
    {
      assert b[k] == (a + b)[|a| + k] == text[i..][|a| + k];
    }
  }

  /** The written parameter list and its `)`: the first parameter, then
      either `)` or `,` and the remaining list with its `)`. */
  lemma ParamTextSplit(params: seq<string>)
    requires params != []
    ensures ParamText(params) + ")" ==
            params[0] + (if |params| == 1 then ")" else "," + (ParamText(params[1..]) + ")"))
  {
    if |params| > 1 {
      assert ParamText(params) == params[0] + "," + ParamText(params[1..]);
    }
  }

  /** Where the first parameter of a written list ends and what follows it. */
  lemma ParamLayout(text: string, i: nat, params: seq<string>)
    requires i <= |text| && params != []
    requires ParamText(params) + ")" <= text[i..]
    ensures i + |params[0]| < |text| && text[i..i + |params[0]|] == params[0]
    ensures |params| == 1 ==> text[i + |params[0]|] == ')'
    ensures |params| > 1 ==> text[i + |params[0]|] == ','
                             && ParamText(params[1..]) + ")" <= text[i + |params[0]| + 1..]
  {
    var p := params[0];
    ParamTextSplit(params);
    if |params| == 1 {
      TextAfter(text, i, p, ")");
    } else {
      var tail := ParamText(params[1..]) + ")";
      TextAfter(text, i, p, "," + tail);
      assert ("," + tail)[1..] == tail;
    }
  }

  /** What follows a prefix `p` of the text at `i`: the next character,
      then the rest. */
  lemma TextAfter(text: string, i: nat, p: string, rest: string)
    requires i <= |text| && p + rest <= text[i..] && rest != []
    ensures i + |p| < |text| && text[i..i + |p|] == p
    ensures text[i + |p|] == rest[0] && rest[1..] <= text[i + |p| + 1..]
  {
    PrefixSplit(text, i, p, rest);
    assert text[i + |p|] == text[i + |p|..][0];
    PrefixSplit(text, i + |p|, [rest[0]], rest[1..]);
  }

  /** Plain text and the `,` after it, once `(` was met: the text becomes
      a parameter when it is not blank and the parse goes on after the `,`. */
  lemma PlainThenComma(text: string, st: CallState, p: string)
    requires st.parsing && st.open && st.buffer == [] && st.index + |p| < |text|
    requires text[st.index..st.index + |p|] == p && Plain(p) && text[st.index + |p|] == ','
    ensures ParseCall(text, st) ==
            ParseCall(text, st.(index := st.index + |p| + 1, params := AddParam(st.params, p)))
  {
    var st1 := st.(index := st.index + |p|, buffer := p);
    assert ParseCall(text, st) == ParseCall(text, st1) by {
      ScanPlain(text, st, p);
      assert st.(index := st.index + |p|, buffer := st.buffer + p) == st1;
    }
    DelimiterStep(text, st1);
  }

  /** Plain text and the `)` after it, once `(` was met, end the parse. */
  lemma PlainThenClose(text: string, st: CallState, p: string)
    requires st.parsing && st.open && st.buffer == [] && st.index + |p| < |text|
    requires text[st.index..st.index + |p|] == p && Plain(p) && text[st.index + |p|] == ')'
    ensures ParseCall(text, st) == Ok(Call(st.name, AddParam(st.params, p)))
  {
    var st1 := st.(index := st.index + |p|, buffer := p);
    assert ParseCall(text, st) == ParseCall(text, st1) by {
      ScanPlain(text, st, p);
      assert st.(index := st.index + |p|, buffer := st.buffer + p) == st1;
    }
    CloseStep(text, st1);
  }

  /** The parser stands right after `(` with an empty buffer, and the text
      ahead is a list of plain, non-blank parameters, `)` and anything. */
  predicate ParamsAhead(text: string, st: CallState, params: seq<string>) {
    st.parsing && st.open && st.buffer == [] && st.index <= |text|
    && PlainParams(params) && ParamText(params) + ")" <= text[st.index..]
  }

  /** The first of several parameters and its `,` are read: the parse goes
      on with the trimmed parameter added and the others ahead. */
  lemma NextParam(text: string, st: CallState, params: seq<string>) returns (st2: CallState)
    requires ParamsAhead(text, st, params) && |params| > 1
    ensures st2 == st.(index := st.index + |params[0]| + 1, params := st.params + [Trim(params[0])])
    ensures ParamsAhead(text, st2, params[1..])
    ensures ParseCall(text, st) == ParseCall(text, st2)
  {
    var p := params[0];
    ParamLayout(text, st.index, params);
    PlainThenComma(text, st, p);
    st2 := st.(index := st.index + |p| + 1, params := st.params + [Trim(p)]);
  }

  /** An empty parameter list closes the call at once. */
  lemma ScanNoParam(text: string, st: CallState)
    requires ParamsAhead(text, st, [])
    ensures ParseCall(text, st) == Ok(Call(st.name, st.params + TrimAll([])))
  {
    PrefixSplit(text, st.index, ")", []);
    CloseStep(text, st);
    assert AddParam(st.params, []) == st.params + TrimAll([]);
  }

  /** The last parameter is read up to `)`, which closes the call. */
  lemma ScanLastParam(text: string, st: CallState, params: seq<string>)
    requires ParamsAhead(text, st, params) && |params| == 1
    ensures ParseCall(text, st) == Ok(Call(st.name, st.params + TrimAll(params)))
  {
    ParamLayout(text, st.index, params);
    PlainThenClose(text, st, params[0]);
    assert TrimAll(params) == [Trim(params[0])];
  }

  /** Trimming a list is trimming its head, then its tail. */
  lemma TrimAllCons(done: seq<string>, params: seq<string>)
    requires params != []
    ensures (done + [Trim(params[0])]) + TrimAll(params[1..]) == done + TrimAll(params)
  {
    assert TrimAll(params) == [Trim(params[0])] + TrimAll(params[1..]);
  }

  /** After `(`, parameters separated by `,` and closed by `)` are read as
      their trimmed texts, and whatever follows `)` is ignored. */
  lemma {:induction false} ScanParams(text: string, st: CallState, params: seq<string>)
    requires ParamsAhead(text, st, params)
    ensures ParseCall(text, st) == Ok(Call(st.name, st.params + TrimAll(params)))
    decreases |params|
  {
    if params == [] {
      ScanNoParam(text, st);
    } else if |params| == 1 {
      ScanLastParam(text, st, params);
    } else {
      var st2 := NextParam(text, st, params);
      ScanParams(text, st2, params[1..]);
      TrimAllCons(st.params, params);
    }
  }

  /** `name(a, b)` round trip: a call written from a name and parameters
      free of function parts parses back to the trimmed name and the
      trimmed parameters, whatever follows the `)`. */
  lemma CallRoundTrip(name: string, params: seq<string>, rest: string)
    requires Plain(name)
    requires PlainParams(params)
    ensures ParseCall(name + "(" + ParamText(params) + ")" + rest, Start)
            == Ok(Call(Some(Trim(name)), TrimAll(params)))
  {
    var ahead := ParamText(params) + ")" + rest;
    var text := name + "(" + ParamText(params) + ")" + rest;
    assert |name| < |text| && text[..|name|] == name && text[|name|] == '(' && text[|name| + 1..] == ahead by {
      assert text == name + ("(" + ahead);
      SuffixSplit(text, 0, name, "(" + ahead);
      SuffixHead(text, |name|, '(', ahead);
    }
    var st := OpenCall(text, name);
    assert ParamText(params) + ")" <= ahead;
    ScanParams(text, st, params);
    assert st.params + TrimAll(params) == TrimAll(params);
  }
}
