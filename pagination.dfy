/**
 * `paginate` and `parse_cursor` (workspace.rs): offset cursors over an already filtered and
 * sorted list, and the proof that following the cursors visits every item once, in order.
 */
module Pagination {
  import opened Wrappers
  import opened Errors
  import opened Text

  const DefaultPageSize: nat := 100
  const MaxPageSize: nat := 500

  datatype PageResponse<T> = PageResponse(items: seq<T>, nextCursor: Option<string>, totalApprox: Option<nat>)

  /** The message of a cursor that is not a decimal offset. */
  function InvalidCursorMessage(value: string): string
  {
    "Invalid cursor '" + value + "': expected numeric offset"
  }

  /** `parse_cursor`: no cursor is offset 0; otherwise the cursor must parse as a `usize`. */
  function ParseCursor(cursor: Option<string>): (r: Result<nat, AppError>)
    ensures cursor.None? ==> r == Ok(0)
    ensures cursor.Some? ==> (r.Ok? <==> ParseU64(cursor.value).Some?)
    ensures cursor.Some? && r.Ok? ==> r.value == ParseU64(cursor.value).value
    ensures r.Err? ==> r.error == Policy(InvalidCursorMessage(cursor.value))
  {
    if cursor.None? then Ok(0)
    else
      var parsed := ParseU64(cursor.value);
      if parsed.None? then Err(Policy(InvalidCursorMessage(cursor.value))) else Ok(parsed.value)
  }

  /** The page size: the requested limit (100 when absent) clamped to 1..=500. */
  function PageSize(limit: Option<nat>): (r: nat)
    ensures 1 <= r <= MaxPageSize
    ensures limit.None? ==> r == DefaultPageSize
    ensures limit.Some? && 1 <= limit.value <= MaxPageSize ==> r == limit.value
  {
    var requested := limit.UnwrapOr(DefaultPageSize);
    if requested < 1 then 1 else if requested > MaxPageSize then MaxPageSize else requested
  }

  function Min(a: nat, b: nat): nat { if a <= b then a else b }

  /** The page of `size` items starting at `offset`, with the cursor of the next page. */
  function PageAt<T>(items: seq<T>, offset: nat, size: nat): (r: PageResponse<T>)
  {
    var start := Min(offset, |items|);
    var page := items[start..Min(offset + size, |items|)];
    var consumed := offset + |page|;
    PageResponse(page, if consumed < |items| then Some(NatToString(consumed)) else None, Some(|items|))
  }

  /** `paginate`: an invalid cursor is an error; otherwise the page at the cursor's offset. */
  function Paginate<T>(items: seq<T>, limit: Option<nat>, cursor: Option<string>): (r: Result<PageResponse<T>, AppError>)
    ensures r.Err? <==> ParseCursor(cursor).Err?
    ensures r.Err? ==> r.error == ParseCursor(cursor).error
    ensures r.Ok? ==> r.value == PageAt(items, ParseCursor(cursor).value, PageSize(limit))
  {
    var offset := ParseCursor(cursor);
    if offset.Err? then Err(offset.error) else Ok(PageAt(items, offset.value, PageSize(limit)))
  }

  // ---------------------------------------------------------------- properties

  /**
   * A page holds the items from the offset on, at most `size` of them and exactly `size` when
   * that many remain; the next cursor names the offset just past the page and exists iff items remain.
   */
  lemma PageAtContents<T>(items: seq<T>, offset: nat, size: nat)
    requires offset <= |items|
    ensures var p := PageAt(items, offset, size);
            && |p.items| == Min(size, |items| - offset)
            && (forall k :: 0 <= k < |p.items| ==> p.items[k] == items[offset + k])
            && (p.nextCursor.Some? <==> offset + |p.items| < |items|)
            && (p.nextCursor.Some? ==> p.nextCursor.value == NatToString(offset + |p.items|))
            && p.totalApprox == Some(|items|)
  {
  }

  /** A page and the items after it are the items from the offset on. */
  lemma PageThenRest<T>(items: seq<T>, offset: nat, size: nat)
    requires offset <= |items|
    ensures PageAt(items, offset, size).items + items[offset + |PageAt(items, offset, size).items|..] == items[offset..]
  {
    var n := |PageAt(items, offset, size).items|;
    assert items[offset..offset + n] + items[offset + n..] == items[offset..];
  }

  /** An offset at or past the end gives an empty last page. */
  lemma PagePastEnd<T>(items: seq<T>, offset: nat, size: nat)
    requires offset >= |items|
    ensures PageAt(items, offset, size).items == [] && PageAt(items, offset, size).nextCursor.None?
  {
  }

  /** The cursor a page hands out reads back as the offset of the following page. */
  lemma NextCursorRoundTrip<T>(items: seq<T>, offset: nat, size: nat)
    requires |items| <= U64_MAX
    requires PageAt(items, offset, size).nextCursor.Some?
    ensures ParseCursor(PageAt(items, offset, size).nextCursor)
            == Ok(offset + |PageAt(items, offset, size).items|)
  {
    ParseU64OfNatToString(offset + |PageAt(items, offset, size).items|);
  }

  /** The items of every page from `offset` on, following each page's cursor until there is none. */
  function PagesFrom<T>(items: seq<T>, offset: nat, size: nat): (r: seq<T>)
    requires offset <= |items| && size >= 1
    decreases |items| - offset
  {
    var p := PageAt(items, offset, size);
    if p.nextCursor.None? then p.items
    else p.items + PagesFrom(items, offset + |p.items|, size)
  }

  /** Following the cursors from `offset` yields exactly the items from `offset` on, in order. */
  lemma {:induction false} PagesFromCoverAll<T>(items: seq<T>, offset: nat, size: nat)
    requires offset <= |items| && size >= 1
    ensures PagesFrom(items, offset, size) == items[offset..]
    decreases |items| - offset
  {
    var p := PageAt(items, offset, size);
    PageAtContents(items, offset, size);
    PageThenRest(items, offset, size);
    if p.nextCursor.Some? {
      PagesFromCoverAll(items, offset + |p.items|, size);
    } else {
      assert items[offset + |p.items|..] == [];
    }
  }

  /**
   * Paging from no cursor, feeding back each returned cursor, visits every item exactly once,
   * in order: the first call succeeds and each returned cursor parses to where the next page starts.
   */
  lemma PaginationWalksEverything<T>(items: seq<T>, limit: Option<nat>)
    requires |items| <= U64_MAX
    ensures Paginate(items, limit, None).Ok?
    ensures Paginate(items, limit, None).value == PageAt(items, 0, PageSize(limit))
    ensures PagesFrom(items, 0, PageSize(limit)) == items
  {
    PagesFromCoverAll(items, 0, PageSize(limit));
  }

  /** Worked values: a bad cursor is refused with its message; 250 items at 100 make three pages. */
  lemma PaginateExamples(items: seq<int>)
    requires |items| == 250
    ensures Paginate(items, None, Some("abc")) == Err(Policy("Invalid cursor 'abc': expected numeric offset"))
    ensures Paginate(items, Some(0), None).Ok? && |Paginate(items, Some(0), None).value.items| == 1
    ensures Paginate(items, Some(1000), None).Ok? && |Paginate(items, Some(1000), None).value.items| == 250
    ensures |PageAt(items, 200, 100).items| == 50 && PageAt(items, 200, 100).nextCursor.None?
  {
    assert ParseU64("abc").None? by { assert !IsAsciiDigit('a'); }
    assert "Invalid cursor '" + "abc" + "': expected numeric offset" == "Invalid cursor 'abc': expected numeric offset";
  }
}
