/**
 * The idempotency-key replay store of workspace.rs (`with_idempotency`,
 * `require_idempotency_key`). The source keeps one JSON file per operation and key under
 * `idempotency/<operation>/<key>.json`, both sanitised; here the directory is a map from
 * that pair to the stored record. The wrapped operation is given by its outcome.
 */
module Idempotency {
  import opened Wrappers
  import opened Errors
  import opened Text
  import Json
  import opened WorkspaceIds

  /** What is stored for a key: the request payload and the operation's result, as JSON. */
  datatype IdempotencyRecord = IdempotencyRecord(payload: Json.Value, result: Json.Value, createdAt: int)

  /** Where a record lives: the sanitised operation and the sanitised key. */
  datatype Slot = Slot(operation: string, key: string)

  type Records = map<Slot, IdempotencyRecord>

  function RequiredMessage(operation: string): string
  {
    "IDEMPOTENCY_REQUIRED: operation '" + operation + "' requires idempotencyKey"
  }

  function ConflictMessage(key: string): string
  {
    "IDEMPOTENCY_CONFLICT: key '" + key + "' reused with a different payload"
  }

  /** `require_idempotency_key`: the trimmed key, which must not be empty. */
  function RequireIdempotencyKey(key: Option<string>, operation: string): (r: Result<string, AppError>)
    ensures r.Ok? <==> key.Some? && !IsBlank(key.value)
    ensures r.Ok? ==> r.value == Trim(key.value) && r.value != [] && Trim(r.value) == r.value
    ensures r.Err? ==> r.error == Policy(RequiredMessage(operation))
  {
    if key.Some? && Trim(key.value) != [] then
      TrimTwice(key.value);
      Ok(Trim(key.value))
    else Err(Policy(RequiredMessage(operation)))
  }

  function SlotOf(operation: string, key: string): Slot
  {
    Slot(SanitizeComponent(operation), SanitizeComponent(key))
  }

  /** The result of one `with_idempotency` call and the store after it. */
  datatype CallOutcome = CallOutcome(result: Result<Json.Value, AppError>, records: Records)

  /**
   * `with_idempotency`: with a valid key, a stored record for the same payload is replayed
   * without running the operation, one for another payload is a conflict, and otherwise the
   * operation runs and, only if it succeeds, its result is stored.
   */
  function IdempotentCall(records: Records, operation: string, key: Option<string>, payload: Json.Value,
                          run: Result<Json.Value, AppError>, now: int): (r: CallOutcome)
    ensures key.None? || IsBlank(key.value) ==> r == CallOutcome(Err(Policy(RequiredMessage(operation))), records)
    ensures r.result.Err? ==> r.records == records
    ensures r.records != records ==>
              key.Some? && r.result.Ok? && SlotOf(operation, Trim(key.value)) !in records
              && r.records == records[SlotOf(operation, Trim(key.value)) := IdempotencyRecord(payload, r.result.value, now)]
  {
    var k := RequireIdempotencyKey(key, operation);
    if k.Err? then CallOutcome(Err(k.error), records)
    else CallWithKey(records, SlotOf(operation, k.value), k.value, payload, run, now)
  }

  /** The part of `with_idempotency` after the key is accepted: replay, conflict, or run and store. */
  function CallWithKey(records: Records, slot: Slot, key: string, payload: Json.Value,
                       run: Result<Json.Value, AppError>, now: int): (r: CallOutcome)
    ensures r.result.Err? ==> r.records == records
    ensures r.records != records ==>
              r.result.Ok? && slot !in records && r.records == records[slot := IdempotencyRecord(payload, r.result.value, now)]
  {
    if slot in records then
      if records[slot].payload != payload then CallOutcome(Err(Policy(ConflictMessage(key))), records)
      else CallOutcome(Ok(records[slot].result), records)
    else if run.Err? then CallOutcome(run, records)
    else CallOutcome(run, records[slot := IdempotencyRecord(payload, run.value, now)])
  }

  /** The store as a mutable object: the directory of records. */
  class IdempotencyStore {
    var records: Records

    constructor()
      ensures records == map[]
    {
      records := map[];
    }

    /** `with_idempotency`, with `run` the outcome the wrapped operation would have. */
    method WithIdempotency(operation: string, key: Option<string>, payload: Json.Value,
                           run: Result<Json.Value, AppError>, now: int) returns (r: Result<Json.Value, AppError>)
      modifies this
      ensures CallOutcome(r, records) == IdempotentCall(old(records), operation, key, payload, run, now)
    {
      var k := RequireIdempotencyKey(key, operation);
      if k.Err? {
        return Err(k.error);
      }
      var slot := SlotOf(operation, k.value);
      assert IdempotentCall(records, operation, key, payload, run, now)
             == CallWithKey(records, slot, k.value, payload, run, now);
      if slot in records {
        var record := records[slot];
        if record.payload != payload {
          return Err(Policy(ConflictMessage(k.value)));
        }
        return Ok(record.result);
      }
      r := run;
      if r.Err? {
        return;
      }
      records := records[slot := IdempotencyRecord(payload, r.value, now)];
    }
  }

  // ---------------------------------------------------------------- properties

  /** A failing operation stores nothing; a succeeding one on a fresh key stores exactly its result. */
  lemma FailureStoresNothing(records: Records, operation: string, key: string, payload: Json.Value,
                             run: Result<Json.Value, AppError>, now: int)
    requires !IsBlank(key) && SlotOf(operation, Trim(key)) !in records
    ensures run.Err? ==> IdempotentCall(records, operation, Some(key), payload, run, now) == CallOutcome(run, records)
    ensures run.Ok? ==> IdempotentCall(records, operation, Some(key), payload, run, now).records
                        == records[SlotOf(operation, Trim(key)) := IdempotencyRecord(payload, run.value, now)]
  {
    var slot := SlotOf(operation, Trim(key));
    assert RequireIdempotencyKey(Some(key), operation) == Ok(Trim(key));
    assert IdempotentCall(records, operation, Some(key), payload, run, now)
           == CallWithKey(records, slot, Trim(key), payload, run, now);
  }

  /**
   * After a successful call, repeating it with the same key and payload returns the first
   * result whatever the operation would do now, and leaves the store as it is.
   */
  lemma ReplayReturnsFirstResult(records: Records, operation: string, key: string, payload: Json.Value,
                                 first: Result<Json.Value, AppError>, later: Result<Json.Value, AppError>,
                                 now: int, afterwards: int)
    requires IdempotentCall(records, operation, Some(key), payload, first, now).result.Ok?
    ensures var one := IdempotentCall(records, operation, Some(key), payload, first, now);
            IdempotentCall(one.records, operation, Some(key), payload, later, afterwards)
            == CallOutcome(one.result, one.records)
  {
    var k := RequireIdempotencyKey(Some(key), operation);
    assert k.Ok?;
    StoredAfterSuccess(records, SlotOf(operation, k.value), k.value, payload, first, now);
  }

  /** After a successful call, the same key with another payload is a conflict and changes nothing. */
  lemma ChangedPayloadConflicts(records: Records, operation: string, key: string, payload: Json.Value,
                                other: Json.Value, first: Result<Json.Value, AppError>,
                                later: Result<Json.Value, AppError>, now: int, afterwards: int)
    requires other != payload
    requires IdempotentCall(records, operation, Some(key), payload, first, now).result.Ok?
    ensures var one := IdempotentCall(records, operation, Some(key), payload, first, now);
            IdempotentCall(one.records, operation, Some(key), other, later, afterwards)
            == CallOutcome(Err(Policy(ConflictMessage(Trim(key)))), one.records)
  {
    var k := RequireIdempotencyKey(Some(key), operation);
    assert k.Ok?;
    StoredAfterSuccess(records, SlotOf(operation, k.value), k.value, payload, first, now);
  }

  /** After a successful call the key's slot holds the payload and the returned result. */
  lemma StoredAfterSuccess(records: Records, slot: Slot, key: string, payload: Json.Value,
                           run: Result<Json.Value, AppError>, now: int)
    requires CallWithKey(records, slot, key, payload, run, now).result.Ok?
    ensures var one := CallWithKey(records, slot, key, payload, run, now);
            slot in one.records && one.records[slot].payload == payload
            && one.records[slot].result == one.result.value
  {
  }

  /** Surrounding whitespace of a key does not matter: " k " and "k" address the same record. */
  lemma KeyWhitespaceIgnored(records: Records, operation: string, key: string, payload: Json.Value,
                             run: Result<Json.Value, AppError>, now: int)
    requires !IsBlank(key)
    ensures IdempotentCall(records, operation, Some(key), payload, run, now)
            == IdempotentCall(records, operation, Some(Trim(key)), payload, run, now)
  {
    TrimTwice(key);
  }

  /**
   * Keys that differ only in characters the sanitiser rewrites share one record: "a b" and
   * "a_b" address the same file.
   */
  lemma SanitisedKeysShareARecord()
    ensures SlotOf("op", "a b") == SlotOf("op", "a_b")
  {
    assert SanitizeChars("a b") == "a_b";
    assert SanitizeChars("a_b") == "a_b";
  }

  /** The store as an object behaves as the replay rule says over two calls. */
  method ReplayThroughStore(operation: string, key: string, payload: Json.Value,
                            first: Json.Value, later: Result<Json.Value, AppError>, now: int)
      returns (one: Result<Json.Value, AppError>, two: Result<Json.Value, AppError>)
    requires !IsBlank(key)
    ensures one == Ok(first) && two == Ok(first)
  {
    var store := new IdempotencyStore();
    one := store.WithIdempotency(operation, Some(key), payload, Ok(first), now);
    two := store.WithIdempotency(operation, Some(key), payload, later, now + 1);
  }
}
