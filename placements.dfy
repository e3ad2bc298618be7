/**
 * The checks and the order keys of `placements_reorder_inner` in workspace.rs. A view's
 * placements are reordered by a full list of their ids, optionally with the revision each one
 * is expected to have; every placement then gets the order key of its new position. The
 * placements of the view are a parameter (as loaded, in load order); each move is the
 * revision-checked patch of one placement's "orderKey", which this model records rather than
 * performs.
 */
module Placements {
  import opened Wrappers
  import opened Errors
  import opened Text
  import Json
  import JsonEntities

  const FullListMessage := "VALIDATION_ERROR: placement reorder requires a full ordered placement id list"

  /** What the reorder reads of a stored placement; `record` is its JSON form. */
  datatype Placement = Placement(id: string, revision: int, record: Json.Value)

  /** One patch: the placement, the revision it is expected to have, and its new position. */
  datatype Move = Move(id: string, revision: int, index: nat)

  /** The moves made, in order, and the error that stopped the loop, if any. */
  datatype Outcome = Outcome(moves: seq<Move>, error: Option<AppError>)

  function NotInViewMessage(id: string, viewId: string): string
  {
    "VALIDATION_ERROR: placement '" + id + "' is not in view '" + viewId + "'"
  }

  /** The placements keyed by id; of two with the same id the later one is kept. */
  function ById(placements: seq<Placement>): (r: map<string, Placement>)
    ensures r.Keys == set i | 0 <= i < |placements| :: placements[i].id
    ensures forall id :: id in r ==> r[id].id == id && r[id] in placements
    decreases |placements|
  {
    if placements == [] then map[]
    else
      var last := placements[|placements| - 1];
      var before := placements[..|placements| - 1];
      assert forall i :: 0 <= i < |before| ==> before[i] == placements[i];
      assert forall p :: p in before ==> p in placements;
      ById(before)[last.id := last]
  }

  /**
   * The expected revisions paired with the ids at the same positions, up to the shorter of
   * the two lists; of two entries for the same id the later one is kept.
   */
  function ExpectedMap(ordered: seq<string>, expected: seq<int>): (r: map<string, int>)
    ensures forall k :: 0 <= k < |ordered| && k < |expected| ==> ordered[k] in r
    ensures forall id :: id in r ==> exists k :: 0 <= k < |ordered| && k < |expected| && ordered[k] == id && r[id] == expected[k]
    decreases |expected|
  {
    if expected == [] || ordered == [] then map[]
    else
      var n := if |expected| < |ordered| then |expected| else |ordered|;
      var before := ExpectedMap(ordered[..n - 1], expected[..n - 1]);
      before[ordered[n - 1] := expected[n - 1]]
  }

  /** The loop from position `index` on, with the placements not yet moved in `remaining`. */
  function MovesFrom(viewId: string, remaining: map<string, Placement>, ordered: seq<string>, index: nat,
                     expectedById: map<string, int>, render: Json.Value -> string): (r: Outcome)
    requires index <= |ordered|
    ensures |r.moves| <= |ordered| - index
    ensures forall k :: 0 <= k < |r.moves| ==> r.moves[k].index == index + k && r.moves[k].id == ordered[index + k]
    decreases |ordered| - index
  {
    if index == |ordered| then Outcome([], None)
    else
      var id := ordered[index];
      if id !in remaining then Outcome([], Some(Policy(NotInViewMessage(id, viewId))))
      else
        var existing := remaining[id];
        if id in expectedById && existing.revision != expectedById[id] then
          Outcome([], Some(JsonEntities.ConflictError("placement", expectedById[id], existing.revision, existing.record, render)))
        else
          var rest := MovesFrom(viewId, remaining - {id}, ordered, index + 1, expectedById, render);
          Outcome([Move(id, existing.revision, index)] + rest.moves, rest.error)
  }

  /**
   * `placements_reorder_inner`: an empty view is left alone; otherwise the list must have as
   * many ids as the view has placements, and the placements are moved one by one until an
   * id is missing or a revision differs.
   */
  function Reorder(viewId: string, placements: seq<Placement>, ordered: seq<string>, expected: Option<seq<int>>,
                   render: Json.Value -> string): (r: Outcome)
    ensures ById(placements) == map[] ==> r == Outcome([], None)
    ensures ById(placements) != map[] && |ordered| != |ById(placements)| ==> r.moves == [] && r.error.Some?
    ensures |r.moves| <= |ordered|
    ensures forall k :: 0 <= k < |r.moves| ==> r.moves[k].index == k && r.moves[k].id == ordered[k]
  {
    var byId := ById(placements);
    if byId == map[] then Outcome([], None)
    else if |ordered| != |byId| then Outcome([], Some(Policy(FullListMessage)))
    else MovesFrom(viewId, byId, ordered, 0, ExpectedMap(ordered, expected.UnwrapOr([])), render)
  }

  /** `placements_reorder_inner` as the loop the source runs, removing each placement as it is moved. */
  method ReorderPlacements(viewId: string, placements: seq<Placement>, ordered: seq<string>, expected: Option<seq<int>>,
                           render: Json.Value -> string) returns (r: Outcome)
    ensures r == Reorder(viewId, placements, ordered, expected, render)
  {
    var byId := ById(placements);
    if byId == map[] {
      return Outcome([], None);
    }
    if |ordered| != |byId| {
      return Outcome([], Some(Policy(FullListMessage)));
    }
    var expectedById := ExpectedMap(ordered, expected.UnwrapOr([]));
    r := MovePlacements(viewId, byId, ordered, expectedById, render);
  }

  /** The loop of `placements_reorder_inner`: each listed placement is taken out of the view's map and moved. */
  method MovePlacements(viewId: string, loaded: map<string, Placement>, ordered: seq<string>,
                        expectedById: map<string, int>, render: Json.Value -> string) returns (r: Outcome)
    ensures r == MovesFrom(viewId, loaded, ordered, 0, expectedById, render)
  {
    var byId := loaded;
    var moves: seq<Move> := [];
    for index := 0 to |ordered|
      invariant MovesFrom(viewId, loaded, ordered, 0, expectedById, render)
                == var rest := MovesFrom(viewId, byId, ordered, index, expectedById, render);
                   Outcome(moves + rest.moves, rest.error)
    {
      var id := ordered[index];
      if id !in byId {
        return Outcome(moves, Some(Policy(NotInViewMessage(id, viewId))));
      }
      var existing := byId[id];
      if id in expectedById && existing.revision != expectedById[id] {
        return Outcome(moves, Some(JsonEntities.ConflictError("placement", expectedById[id], existing.revision,
                                                              existing.record, render)));
      }
      byId := byId - {id};
      moves := moves + [Move(id, existing.revision, index)];
    }
    return Outcome(moves, None);
  }

  // ---------------------------------------------------------------- order keys

  /** `format!("{:08}", n)`: the decimal digits of `n`, zero-padded to eight. */
  function Padded(n: nat, width: nat): (r: string)
    ensures |r| == width
    decreases width
  {
    if width == 0 then [] else Padded(n / 10, width - 1) + [DigitChar(n % 10)]
  }

  /** The part of `new_order_key(index)` before the random suffix. */
  function OrderKeyPrefix(index: nat): string
  {
    Padded(index, 8) + "-"
  }

  /** The strict lexicographic order of `String`'s `cmp`, at a first differing position. */
  predicate DiffersFirstAt(a: string, b: string, k: nat)
  {
    k < |a| && k < |b| && a[..k] == b[..k] && a[k] < b[k]
  }

  // ---------------------------------------------------------------- properties

  /** A smaller number below 10^width has the smaller padded rendering. */
  lemma {:induction false} PaddedOrder(i: nat, j: nat, width: nat) returns (k: nat)
    requires i < j && j < Pow10(width)
    ensures DiffersFirstAt(Padded(i, width), Padded(j, width), k)
    decreases width
  {
    assert width > 0;
    var a := Padded(i / 10, width - 1);
    var b := Padded(j / 10, width - 1);
    if i / 10 < j / 10 {
      k := PaddedOrder(i / 10, j / 10, width - 1);
      assert (a + [DigitChar(i % 10)])[..k] == a[..k] && (b + [DigitChar(j % 10)])[..k] == b[..k];
    } else {
      assert i / 10 == j / 10 && i % 10 < j % 10;
      k := width - 1;
      assert (a + [DigitChar(i % 10)])[..k] == a;
    }
  }

  function Pow10(n: nat): (r: nat)
    ensures r >= 1
  {
    if n == 0 then 1 else 10 * Pow10(n - 1)
  }

  /**
   * The order keys of two positions below 10^8 compare as the positions do, whatever random
   * suffixes follow, so sorting the moved placements by order key keeps the requested order.
   */
  lemma OrderKeysFollowPositions(i: nat, j: nat, suffixI: string, suffixJ: string)
    requires i < j < 100000000
    ensures exists k :: DiffersFirstAt(OrderKeyPrefix(i) + suffixI, OrderKeyPrefix(j) + suffixJ, k)
  {
    assert Pow10(8) == 100000000;
    var k := PaddedOrder(i, j, 8);
    var a := OrderKeyPrefix(i) + suffixI;
    var b := OrderKeyPrefix(j) + suffixJ;
    assert a[..k] == Padded(i, 8)[..k] && b[..k] == Padded(j, 8)[..k];
    assert a[k] == Padded(i, 8)[k] && b[k] == Padded(j, 8)[k];
    assert DiffersFirstAt(a, b, k);
  }

  /** A view with no placements is left alone, whatever the request. */
  lemma EmptyViewUnchanged(viewId: string, ordered: seq<string>, expected: Option<seq<int>>, render: Json.Value -> string)
    ensures Reorder(viewId, [], ordered, expected, render) == Outcome([], None)
  {
  }

  /** Whether `ordered` lists each key of `byId` exactly once. */
  predicate IsOrderingOf(ordered: seq<string>, byId: map<string, Placement>)
  {
    (forall k :: 0 <= k < |ordered| ==> ordered[k] in byId)
    && (forall k, l :: 0 <= k < l < |ordered| ==> ordered[k] != ordered[l])
  }

  /** The loop finishes exactly when the remaining ids are distinct, present, and at their expected revisions. */
  lemma {:induction false} MovesFromComplete(viewId: string, remaining: map<string, Placement>, ordered: seq<string>,
                                             index: nat, expectedById: map<string, int>, render: Json.Value -> string)
    requires index <= |ordered|
    ensures var r := MovesFrom(viewId, remaining, ordered, index, expectedById, render);
            r.error.None? <==>
              (forall k :: index <= k < |ordered| ==> ordered[k] in remaining)
              && (forall k, l :: index <= k < l < |ordered| ==> ordered[k] != ordered[l])
              && (forall k :: index <= k < |ordered| && ordered[k] in expectedById
                    ==> remaining[ordered[k]].revision == expectedById[ordered[k]])
    ensures var r := MovesFrom(viewId, remaining, ordered, index, expectedById, render);
            r.error.None? ==>
              |r.moves| == |ordered| - index
              && forall k :: 0 <= k < |r.moves| ==> r.moves[k].revision == remaining[ordered[index + k]].revision
    decreases |ordered| - index
  {
    if index < |ordered| {
      var id := ordered[index];
      if id in remaining {
        MovesFromComplete(viewId, remaining - {id}, ordered, index + 1, expectedById, render);
      }
    }
  }

  /**
   * The reorder of a non-empty view goes through exactly when the list names every placement
   * of the view once and every expected revision given matches; it then moves each listed
   * placement to its position, expecting its current revision.
   */
  lemma ReorderSucceedsIff(viewId: string, placements: seq<Placement>, ordered: seq<string>, expected: Option<seq<int>>,
                           render: Json.Value -> string)
    requires placements != []
    ensures var byId := ById(placements);
            var expectedById := ExpectedMap(ordered, expected.UnwrapOr([]));
            var r := Reorder(viewId, placements, ordered, expected, render);
            && (r.error.None? <==>
                  |ordered| == |byId| && IsOrderingOf(ordered, byId)
                  && forall k :: 0 <= k < |ordered| && ordered[k] in expectedById
                       ==> byId[ordered[k]].revision == expectedById[ordered[k]])
            && (r.error.None? ==>
                  |r.moves| == |ordered|
                  && forall k :: 0 <= k < |ordered| ==> r.moves[k] == Move(ordered[k], byId[ordered[k]].revision, k))
  {
    var byId := ById(placements);
    assert placements[0].id in byId;
    var expectedById := ExpectedMap(ordered, expected.UnwrapOr([]));
    if |ordered| == |byId| {
      assert Reorder(viewId, placements, ordered, expected, render)
             == MovesFrom(viewId, byId, ordered, 0, expectedById, render);
      MovesFromComplete(viewId, byId, ordered, 0, expectedById, render);
    }
  }
}
