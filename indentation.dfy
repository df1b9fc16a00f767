/** The indentation analyser of the dialogue parser: the leading run of one
    indentation character, measured in units of that character, gives the
    depth of a script line. */
module Indentations {
  import opened Wrappers

  /** An indentation unit: a character and how many of it make one level. */
  datatype Indentation = Indentation(unit: char, width: nat)

  /** The depth of a line and the text after its indentation. */
  datatype Indented = Indented(level: nat, rest: string)

  /** The fixed table of indentation units: four spaces or one tab. */
  const Indentations: seq<Indentation> := [Indentation(' ', 4), Indentation('\t', 1)]

  predicate PositiveWidths(units: seq<Indentation>) {
    forall u :: u in units ==> u.width > 0
  }

  /** The first unit of the table made of the character `c`. */
  function UnitOf(c: char, units: seq<Indentation>): (r: Maybe<Indentation>)
    ensures r.Some? ==> r.value in units && r.value.unit == c
    ensures r.None? ==> forall u :: u in units ==> u.unit != c
  {
    if units == [] then None
    else if units[0].unit == c then Some(units[0])
    else UnitOf(c, units[1..])
  }

  predicate IsIndentChar(c: char, units: seq<Indentation>) {
    UnitOf(c, units).Some?
  }

  /** The length of the run of `c` that starts the line. */
  function LeadingRun(line: string, c: char): (n: nat)
    ensures n <= |line|
    ensures forall i :: 0 <= i < n ==> line[i] == c
    ensures n < |line| ==> line[n] != c
  {
    if line == [] || line[0] != c then 0 else 1 + LeadingRun(line[1..], c)
  }

  function Repeat(c: char, n: nat): (r: string)
    ensures |r| == n && forall i :: 0 <= i < n ==> r[i] == c
  {
    if n == 0 then [] else [c] + Repeat(c, n - 1)
  }

  /** The depth of a script line.  A line that does not start with an
      indentation character has depth 0 and keeps its whole text; otherwise
      the run of that character is measured in its unit, and it is an error
      for another indentation character to follow the run or for the run
      not to be a whole number of units. */
  function IndentationOf(line: string, units: seq<Indentation>): Result<Indented>
    requires PositiveWidths(units)
  {
    if line == [] then Ok(Indented(0, line))
    else match UnitOf(line[0], units)
      case None => Ok(Indented(0, line))
      case Some(u) =>
        var n := LeadingRun(line, u.unit);
        if n < |line| && IsIndentChar(line[n], units) then Err(DialogueParse(MixedIndentation))
        else if n % u.width != 0 then Err(DialogueParse(UnevenIndentation))
        else Ok(Indented(n / u.width, line[n..]))
  }

  /** The first unit of the table made of `c`, looked up in table order. */
  method FindUnit(c: char, units: seq<Indentation>) returns (r: Maybe<Indentation>)
    ensures r == UnitOf(c, units)
  {
    var k := 0;
    while k < |units|
      invariant 0 <= k <= |units|
      invariant UnitOf(c, units) == UnitOf(c, units[k..])
    {
      if c == units[k].unit {
        return Some(units[k]);
      }
      assert units[k..][1..] == units[k + 1..];
      k := k + 1;
    }
    return None;
  }

  /** The depth of `line` and its text after the indentation. */
  method GetIndentationLevel(line: string, units: seq<Indentation>) returns (r: Result<Indented>)
    requires PositiveWidths(units)
    ensures r == IndentationOf(line, units)
  {
    if |line| == 0 {
      return Ok(Indented(0, line));
    }
    var unit := FindUnit(line[0], units);
    if unit.None? {
      return Ok(Indented(0, line));
    }
    var target := unit.value;
    var indentationCount := 0;
    var i := 0;
    while i < |line|
      invariant 0 <= i <= |line| && indentationCount == i
      invariant forall j :: 0 <= j < i ==> line[j] == target.unit
    {
      if line[i] == target.unit {
        indentationCount := indentationCount + 1;
      } else {
        var other := FindUnit(line[i], units);
        if other.Some? {
          return Err(DialogueParse(MixedIndentation));
        }
        break;
      }
      i := i + 1;
    }
    assert indentationCount == LeadingRun(line, target.unit) by {
      RunIsLeadingRun(line, target.unit, indentationCount);
    }
    var level := indentationCount / target.width;
    var remainder := indentationCount % target.width;
    if remainder == 0 {
      return Ok(Indented(level, line[indentationCount..]));
    }
    return Err(DialogueParse(UnevenIndentation));
  }

  /** A run of `c` ending at the end of the line or at another character
      is the leading run. */
  lemma {:induction false} RunIsLeadingRun(line: string, c: char, n: nat)
    requires n <= |line| && forall j :: 0 <= j < n ==> line[j] == c
    requires n < |line| ==> line[n] != c
    ensures LeadingRun(line, c) == n
  {
    if n > 0 {
      RunIsLeadingRun(line[1..], c, n - 1);
    }
  }

  /** A successful analysis splits the line into whole units of one
      indentation character and a rest that does not start with any
      indentation character. */
  lemma IndentationSplitsLine(line: string, units: seq<Indentation>)
    requires PositiveWidths(units)
    requires IndentationOf(line, units).Ok?
    ensures var d := IndentationOf(line, units).value;
            (d.rest == [] || !IsIndentChar(d.rest[0], units))
            && (d.level == 0 ==> d.rest == line)
            && (d.level > 0 ==> exists u, n: nat :: u in units && n % u.width == 0 && d.level == n / u.width
                                                && line == Repeat(u.unit, n) + d.rest)
  {
    var d := IndentationOf(line, units).value;
    if line != [] && UnitOf(line[0], units).Some? {
      var u := UnitOf(line[0], units).value;
      var n := LeadingRun(line, u.unit);
      assert line == Repeat(u.unit, n) + line[n..];
    }
  }

  /** Conversely, a whole number of units of the first unit made of a
      character, followed by text that does not start with an indentation
      character, analyses to that many levels and that text. */
  lemma IndentationRoundTrip(u: Indentation, n: nat, rest: string, units: seq<Indentation>)
    requires PositiveWidths(units)
    requires UnitOf(u.unit, units) == Some(u)
    requires n % u.width == 0
    requires rest == [] || !IsIndentChar(rest[0], units)
    ensures IndentationOf(Repeat(u.unit, n) + rest, units) == Ok(Indented(n / u.width, rest))
  {
    var line := Repeat(u.unit, n) + rest;
    if n == 0 {
      assert line == rest;
    } else {
      assert line[0] == u.unit;
      RunIsLeadingRun(line, u.unit, n);
      assert line[n..] == rest;
    }
  }

  /** Over the fixed table: a run of spaces that is not a multiple of four
      is uneven, and a space followed by a tab is a mix. */
  lemma DefaultIndentationErrors(k: nat, rest: string)
    requires rest == [] || (rest[0] != ' ' && rest[0] != '\t')
    ensures k % 4 != 0 ==>
              IndentationOf(Repeat(' ', k) + rest, Indentations) == Err(DialogueParse(UnevenIndentation))
    ensures k > 0 ==>
              IndentationOf(Repeat(' ', k) + "\t" + rest, Indentations) == Err(DialogueParse(MixedIndentation))
  {
    if k > 0 {
      var line := Repeat(' ', k) + rest;
      RunIsLeadingRun(line, ' ', k);
      var mixed := Repeat(' ', k) + "\t" + rest;
      RunIsLeadingRun(mixed, ' ', k);
    }
  }
}
