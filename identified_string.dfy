/** A text with named chunks: the result of the `$id(text)` formatting
    language.  Each id labels the chunk `[start, end)` of the text. */
module IdentifiedStrings {
  import opened Wrappers

  /** The chunk an id labels: `start` inclusive, `end` exclusive. */
  datatype Bounds = Bounds(start: int, end: int)

  /** The dictionary of an identified string: the bounds of every id, and
      the ids in the order they were added, which is the order the
      dictionary hands its keys out in (no key is ever removed). */
  datatype Chunks = Chunks(bounds: map<string, Bounds>, ids: seq<string>)

  const NoChunks := Chunks(map[], [])

  /** No id is listed twice: the last one is not among the others, which
      are listed once themselves. */
  predicate ListedOnce(ids: seq<string>)
    decreases |ids|
  {
    ids == [] || (ids[|ids| - 1] !in ids[..|ids| - 1] && ListedOnce(ids[..|ids| - 1]))
  }

  /** Listed once means no two positions hold the same id. */
  lemma {:induction false} ListedOnceMeans(ids: seq<string>)
    ensures ListedOnce(ids) <==> forall i, j :: 0 <= i < j < |ids| ==> ids[i] != ids[j]
    decreases |ids|
  {
    if ids != [] {
      var n := |ids| - 1;
      var init := ids[..n];
      ListedOnceMeans(init);
      if ListedOnce(ids) {
        forall i, j | 0 <= i < j < |ids|
          ensures ids[i] != ids[j]
        {
          if j == n {
            assert ids[i] == init[i];
          } else {
            assert ids[i] == init[i] && ids[j] == init[j];
          }
        }
      }
      if forall i, j :: 0 <= i < j < |ids| ==> ids[i] != ids[j] {
        assert forall i, j :: 0 <= i < j < |init| ==> init[i] != init[j] by {
          forall i, j | 0 <= i < j < |init|
            ensures init[i] != init[j]
          {
            assert init[i] == ids[i] && init[j] == ids[j];
          }
        }
      }
    }
  }

  /** Every id is listed once, the list and the dictionary agree, and every
      chunk lies inside a text of `length` characters. */
  ghost predicate WellFormed(c: Chunks, length: int) {
    && ListedOnce(c.ids)
    && (forall id :: id in c.bounds <==> id in c.ids)
    && (forall id :: id in c.bounds ==> 0 <= c.bounds[id].start <= c.bounds[id].end <= length)
  }

  /** `AddBounds` on the dictionary of a text of `length` characters: the
      range checks first, then the order of the ends, then the key. */
  function AddBoundsTo(c: Chunks, length: int, id: string, start: int, end: int): (r: Result<Chunks>)
    ensures r.Ok? <==> 0 <= start <= end <= length && id !in c.bounds
  {
    if start < 0 || end < 0 || start > length || end > length then Err(ArgumentOutOfRange)
    else if start > end then Err(Argument(StartAfterEnd))
    else if id in c.bounds then Err(Argument(DuplicateKey))
    else Ok(Chunks(c.bounds[id := Bounds(start, end)], c.ids + [id]))
  }

  /** A successful `AddBounds` keeps the dictionary well formed. */
  lemma AddBoundsKeepsWellFormed(c: Chunks, length: int, id: string, start: int, end: int)
    requires WellFormed(c, length)
    requires AddBoundsTo(c, length, id, start, end).Ok?
    ensures WellFormed(AddBoundsTo(c, length, id, start, end).value, length)
  {
    var r := AddBoundsTo(c, length, id, start, end).value;
    assert r.ids[..|r.ids| - 1] == c.ids;
  }

  /** After a successful `AddBounds` the id is there with its bounds, it is
      listed last, and every other id keeps its bounds. */
  lemma AddBoundsThenGet(c: Chunks, length: int, id: string, start: int, end: int)
    requires AddBoundsTo(c, length, id, start, end).Ok?
    ensures var r := AddBoundsTo(c, length, id, start, end).value;
            && id in r.bounds && r.bounds[id] == Bounds(start, end)
            && r.ids == c.ids + [id]
            && r.bounds.Keys == c.bounds.Keys + {id}
            && forall other :: other in c.bounds ==> r.bounds[other] == c.bounds[other]
  {
  }

  /** Which check refuses a label: a range outside the text first, then an
      end before the start, then a key already present. */
  lemma AddBoundsErrors(c: Chunks, length: int, id: string, start: int, end: int)
    ensures start < 0 || end < 0 || start > length || end > length ==>
              AddBoundsTo(c, length, id, start, end) == Err(ArgumentOutOfRange)
    ensures 0 <= start <= length && 0 <= end <= length && start > end ==>
              AddBoundsTo(c, length, id, start, end) == Err(Argument(StartAfterEnd))
    ensures 0 <= start <= end <= length && id in c.bounds ==>
              AddBoundsTo(c, length, id, start, end) == Err(Argument(DuplicateKey))
  {
  }

  /** A text and the chunks labelled in it.  The text never changes after
      construction. */
  class IdentifiedString {
    var chunks: Chunks
    const text: string

    ghost predicate Valid()
      reads this
    {
      WellFormed(chunks, |text|)
    }

    constructor (text: string)
      ensures Valid() && this.text == text && chunks == NoChunks
    {
      chunks := NoChunks;
      this.text := text;
    }

    /** Label `[startIndex, endIndex)` with `id`. */
    method AddBounds(id: string, startIndex: int, endIndex: int) returns (r: Result<()>)
      requires Valid()
      modifies this
      ensures Valid()
      ensures startIndex < 0 || endIndex < 0 || startIndex > |text| || endIndex > |text| ==>
                r == Err(ArgumentOutOfRange)
      ensures 0 <= startIndex <= |text| && 0 <= endIndex <= |text| && startIndex > endIndex ==>
                r == Err(Argument(StartAfterEnd))
      ensures 0 <= startIndex <= endIndex <= |text| && id in old(chunks.bounds) ==>
                r == Err(Argument(DuplicateKey))
      ensures r.Ok? ==> Ok(chunks) == AddBoundsTo(old(chunks), |text|, id, startIndex, endIndex)
      ensures r.Err? ==> Err(r.error) == AddBoundsTo(old(chunks), |text|, id, startIndex, endIndex)
                         && chunks == old(chunks)
    {
      if startIndex < 0 {
        return Err(ArgumentOutOfRange);
      }
      if endIndex < 0 {
        return Err(ArgumentOutOfRange);
      }
      if startIndex > |text| {
        return Err(ArgumentOutOfRange);
      }
      if endIndex > |text| {
        return Err(ArgumentOutOfRange);
      }
      if startIndex > endIndex {
        return Err(Argument(StartAfterEnd));
      }
      if id in chunks.bounds {
        return Err(Argument(DuplicateKey));
      }
      AddBoundsKeepsWellFormed(chunks, |text|, id, startIndex, endIndex);
      chunks := Chunks(chunks.bounds[id := Bounds(startIndex, endIndex)], chunks.ids + [id]);
      return Ok(());
    }

    /** Whether `id` labels a chunk: exactly the ids listed by `GetAllIds`. */
    method ContainsBounds(id: string) returns (r: bool)
      requires Valid()
      ensures r <==> id in chunks.ids
    {
      return id in chunks.bounds;
    }

    /** Every id, each listed once, in the order they were added. */
    method GetAllIds() returns (r: seq<string>)
      requires Valid()
      ensures r == chunks.ids && ListedOnce(r)
      ensures forall id :: id in r <==> id in chunks.bounds
    {
      return chunks.ids;
    }

    /** The text given at construction. */
    method GetText() returns (r: string)
      ensures r == text
    {
      return text;
    }

    /** The bounds labelled `id`, which lie inside the text; an unknown id
        fails with `KeyNotFound`. */
    method GetBounds(id: string) returns (r: Result<Bounds>)
      requires Valid()
      ensures id in chunks.bounds ==> r == Ok(chunks.bounds[id])
                                       && 0 <= r.value.start <= r.value.end <= |text|
      ensures id !in chunks.bounds ==> r == Err(KeyNotFound)
    {
      if id in chunks.bounds {
        return Ok(chunks.bounds[id]);
      }
      return Err(KeyNotFound);
    }
  }
}
