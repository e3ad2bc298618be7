/**
 * The JSON entity files of workspace.rs (`upsert_json_entity`, `patch_json_entity`,
 * `merge_json_values`, `bump_json_revision`, `pop_expected_revision`): one object per file
 * named after its sanitised id, with an optimistic-concurrency revision counter. A directory
 * is a map from file name to the stored value; `listing` is the order in which the
 * directory is read; `now` is the current time as RFC 3339 text; `render` is serde_json's
 * text rendering of a value.
 */
module JsonEntities {
  import opened Wrappers
  import opened Errors
  import opened WorkspaceIds
  import Json
  import Runner

  type Dir = map<string, Json.Value>

  const I64Min: int := -0x8000_0000_0000_0000
  const I64Max: int := 0x7FFF_FFFF_FFFF_FFFF

  const ObjectExpectedMessage: string := "Expected object payload for workspace entity operation"

  /** `Value::as_i64`: an integer that fits in 64 signed bits. */
  function AsI64(v: Json.Value): (r: Option<int>)
    ensures r.Some? <==> v.Num? && I64Min <= v.n <= I64Max
    ensures r.Some? ==> r.value == v.n
  {
    if v.Num? && I64Min <= v.n <= I64Max then Some(v.n) else None
  }

  /** The revision a stored value carries: its "revision" member as an `i64`, else 0. */
  function Revision(v: Json.Value): (r: int)
    ensures I64Min <= r <= I64Max
    ensures Json.Get(v, "revision").None? ==> r == 0
  {
    match Json.Get(v, "revision")
    case Some(x) => AsI64(x).UnwrapOr(0)
    case None => 0
  }

  /** A value with its "expectedRevision" member taken out, and that member as an `i64`. */
  datatype Popped = Popped(rest: Json.Value, expected: Option<int>)

  /** `pop_expected_revision`. */
  function PopExpectedRevision(value: Json.Value): (r: Popped)
    ensures r.rest.Obj? == value.Obj?
    ensures Json.Get(r.rest, "expectedRevision").None?
    ensures forall k :: k != "expectedRevision" ==> Json.Get(r.rest, k) == Json.Get(value, k)
    ensures Json.Get(value, "expectedRevision").None? ==> r.expected.None?
    ensures Json.Get(value, "expectedRevision").Some? ==> r.expected == AsI64(Json.Get(value, "expectedRevision").value)
  {
    if value.Obj? && "expectedRevision" in value.fields then
      Popped(Json.Obj(value.fields - {"expectedRevision"}), AsI64(value.fields["expectedRevision"]))
    else Popped(value, None)
  }

  /** The object the CONFLICT error carries. */
  function ConflictPayload(idPrefix: string, expected: int, actual: int, latest: Json.Value): Json.Value
  {
    Json.Obj(map["code" := Json.Str("CONFLICT"), "entity" := Json.Str(idPrefix),
                 "expectedRevision" := Json.Num(expected), "actualRevision" := Json.Num(actual),
                 "latest" := latest])
  }

  function ConflictError(idPrefix: string, expected: int, actual: int, latest: Json.Value,
                         render: Json.Value -> string): AppError
  {
    Policy("CONFLICT: " + render(ConflictPayload(idPrefix, expected, actual, latest)))
  }

  function NotFoundMessage(idPrefix: string, entityId: string): string
  {
    idPrefix + " '" + entityId + "' not found"
  }

  /** The result of one operation and the directory after it. */
  datatype StoreOutcome = StoreOutcome(result: Result<Json.Value, AppError>, dir: Dir)

  // ---------------------------------------------------------------- upsert

  /** The id an upserted value is stored under: its own "id" string, else a fresh prefixed one. */
  function UpsertId(value: Json.Value, idPrefix: string, freshId: string): string
  {
    Json.GetStr(value, "id").UnwrapOr(idPrefix + "_" + freshId)
  }

  /** The file of an entity id. */
  function FileOf(id: string): string
  {
    SanitizeComponent(id)
  }

  /** The revision stored in `file`, 0 when there is no such file. */
  function RevisionAt(dir: Dir, file: string): int
  {
    if file in dir then Revision(dir[file]) else 0
  }

  /** The "createdAt" an upsert writes: the one stored in `file` if it has one, else now. */
  function CreatedAtFor(dir: Dir, file: string, now: string): Json.Value
  {
    if file in dir && Json.Get(dir[file], "createdAt").Some? then Json.Get(dir[file], "createdAt").value
    else Json.Str(now)
  }

  /**
   * `upsert_json_entity`: the payload must be an object; a given expected revision must equal
   * the stored one (0 for a new entity); the object is saved with its id, the stored creation
   * time, the update time and the next revision.
   */
  function UpsertJsonEntity(dir: Dir, idPrefix: string, value: Json.Value, expected: Option<int>,
                            freshId: string, now: string, render: Json.Value -> string): (r: StoreOutcome)
    ensures r.result.Err? ==> r.dir == dir
    ensures r.result.Ok? ==> value.Obj? && r.result.value.Obj?
                             && r.dir == dir[FileOf(UpsertId(value, idPrefix, freshId)) := r.result.value]
  {
    if !value.Obj? then StoreOutcome(Err(Policy(ObjectExpectedMessage)), dir)
    else
      var id := UpsertId(value, idPrefix, freshId);
      UpsertAt(dir, FileOf(id), id, idPrefix, value.fields, expected, now, render)
  }

  /** The part of `upsert_json_entity` after the id and its file are known. */
  function UpsertAt(dir: Dir, file: string, id: string, idPrefix: string, members: map<string, Json.Value>,
                    expected: Option<int>, now: string, render: Json.Value -> string): (r: StoreOutcome)
    ensures r.result.Err? ==> r.dir == dir
    ensures r.result.Ok? ==> r.result.value.Obj? && r.dir == dir[file := r.result.value]
  {
    var actual := RevisionAt(dir, file);
    if expected.Some? && expected.value != actual then
      var latest := if file in dir then dir[file] else Json.Null;
      StoreOutcome(Err(ConflictError(idPrefix, expected.value, actual, latest, render)), dir)
    else
      var saved := Json.Obj(Stamp(members, id, CreatedAtFor(dir, file, now), now, actual + 1));
      StoreOutcome(Ok(saved), dir[file := saved])
  }

  /** The members an upsert writes over the payload's: id, creation and update time, revision. */
  function Stamp(members: map<string, Json.Value>, id: string, created: Json.Value, now: string,
                 revision: int): (r: map<string, Json.Value>)
    ensures r.Keys == members.Keys + {"id", "createdAt", "updatedAt", "revision"}
    ensures r["id"] == Json.Str(id) && r["createdAt"] == created
    ensures r["updatedAt"] == Json.Str(now) && r["revision"] == Json.Num(revision)
    ensures forall k :: k in members && k != "id" && k != "revision" && k != "updatedAt" && k != "createdAt" ==>
              r[k] == members[k]
  {
    members["id" := Json.Str(id)]["createdAt" := created]["updatedAt" := Json.Str(now)]["revision" := Json.Num(revision)]
  }

  // ---------------------------------------------------------------- patch

  /**
   * The scan of `get_json_entity`: the first file, in directory order, whose value has the
   * given "id".
   */
  function FindById(dir: Dir, listing: seq<string>, id: string): (r: Option<Json.Value>)
    ensures r.None? <==> forall i :: 0 <= i < |listing| && listing[i] in dir ==> Json.GetStr(dir[listing[i]], "id") != Some(id)
    ensures r.Some? ==> exists i :: 0 <= i < |listing| && listing[i] in dir && dir[listing[i]] == r.value
                                    && Json.GetStr(r.value, "id") == Some(id)
  {
    if listing == [] then None
    else if listing[0] in dir && Json.GetStr(dir[listing[0]], "id") == Some(id) then Some(dir[listing[0]])
    else
      var r := FindById(dir, listing[1..], id);
      assert forall i :: 1 <= i < |listing| ==> listing[i] == listing[1..][i - 1];
      r
  }

  /** The entity `patch_json_entity` starts from: the one in `file`, else the one the scan finds. */
  function PatchBase(dir: Dir, listing: seq<string>, file: string, entityId: string): Option<Json.Value>
  {
    if file in dir then Some(dir[file]) else FindById(dir, listing, entityId)
  }

  /** `bump_json_revision`: the next revision, the update time, and a creation time if there was none. */
  function BumpJsonRevision(members: map<string, Json.Value>, now: string): (r: map<string, Json.Value>)
    ensures r.Keys == members.Keys + {"revision", "updatedAt", "createdAt"}
    ensures r["revision"] == Json.Num(Revision(Json.Obj(members)) + 1)
    ensures r["updatedAt"] == Json.Str(now)
    ensures r["createdAt"] == if "createdAt" in members then members["createdAt"] else Json.Str(now)
    ensures forall k :: k in members && k != "revision" && k != "updatedAt" && k != "createdAt" ==> r[k] == members[k]
  {
    var stamped := members["revision" := Json.Num(Revision(Json.Obj(members)) + 1)]["updatedAt" := Json.Str(now)];
    if "createdAt" in members then stamped else stamped["createdAt" := Json.Str(now)]
  }

  /**
   * `patch_json_entity`: the entity must exist; a given expected revision must equal its
   * revision; the patch is merged in, which must leave an object; the id is set and the
   * revision bumped, and the result is written to the file of `entityId`.
   */
  function PatchJsonEntity(dir: Dir, listing: seq<string>, idPrefix: string, entityId: string, patch: Json.Value,
                           expected: Option<int>, now: string, render: Json.Value -> string): (r: StoreOutcome)
    ensures r.result.Err? ==> r.dir == dir
    ensures r.result.Ok? ==> r.result.value.Obj? && r.dir == dir[FileOf(entityId) := r.result.value]
  {
    var file := FileOf(entityId);
    PatchAt(dir, file, PatchBase(dir, listing, file, entityId), idPrefix, entityId, patch, expected, now, render)
  }

  /** The part of `patch_json_entity` after the file is named and the entity looked up. */
  function PatchAt(dir: Dir, file: string, base: Option<Json.Value>, idPrefix: string, entityId: string,
                   patch: Json.Value, expected: Option<int>, now: string, render: Json.Value -> string): (r: StoreOutcome)
    ensures r.result.Err? ==> r.dir == dir
    ensures r.result.Ok? ==> r.result.value.Obj? && r.dir == dir[file := r.result.value]
  {
    if base.None? then StoreOutcome(Err(NotFound(NotFoundMessage(idPrefix, entityId))), dir)
    else if expected.Some? && expected.value != Revision(base.value) then
      StoreOutcome(Err(ConflictError(idPrefix, expected.value, Revision(base.value), base.value, render)), dir)
    else
      var merged := Runner.MergeJson(base.value, patch);
      if !merged.Obj? then StoreOutcome(Err(Policy(ObjectExpectedMessage)), dir)
      else
        var saved := Json.Obj(BumpJsonRevision(merged.fields["id" := Json.Str(entityId)], now));
        StoreOutcome(Ok(saved), dir[file := saved])
  }

  // ---------------------------------------------------------------- in place

  /**
   * `merge_json_values`: the patch's members are merged into the base one by one, objects
   * into objects recursively; anything else replaces.
   */
  method MergeJsonValues(base: Json.Value, patch: Json.Value) returns (r: Json.Value)
    ensures r == Runner.MergeJson(base, patch)
    decreases patch
  {
    if !(base.Obj? && patch.Obj?) {
      return patch;
    }
    var fields := base.fields;
    var pending := patch.fields.Keys;
    while pending != {}
      invariant pending <= patch.fields.Keys
      invariant fields.Keys == base.fields.Keys + (patch.fields.Keys - pending)
      invariant forall k :: k in fields ==>
                  fields[k] == if k in patch.fields && k !in pending
                               then Runner.MergeJson(if k in base.fields then base.fields[k] else Json.Null, patch.fields[k])
                               else base.fields[k]
      decreases pending
    {
      var key :| key in pending;
      var value := patch.fields[key];
      if key in fields && fields[key].Obj? && value.Obj? {
        var merged := MergeJsonValues(fields[key], value);
        fields := fields[key := merged];
      } else {
        fields := fields[key := value];
      }
      pending := pending - {key};
    }
    r := Json.Obj(fields);
    assert r.fields == Runner.MergeJson(base, patch).fields;
  }

  /** One directory of entity files. */
  class EntityDirectory {
    var files: Dir

    constructor(initial: Dir)
      ensures files == initial
    {
      files := initial;
    }

    /** `upsert_json_entity`. */
    method Upsert(idPrefix: string, value: Json.Value, expected: Option<int>, freshId: string, now: string,
                  render: Json.Value -> string) returns (r: Result<Json.Value, AppError>)
      modifies this
      ensures StoreOutcome(r, files) == UpsertJsonEntity(old(files), idPrefix, value, expected, freshId, now, render)
    {
      if !value.Obj? {
        return Err(Policy(ObjectExpectedMessage));
      }
      var id := UpsertId(value, idPrefix, freshId);
      r := UpsertInFile(FileOf(id), id, idPrefix, value.fields, expected, now, render);
    }

    /** The rest of `upsert_json_entity` once the id and its file are known. */
    method UpsertInFile(file: string, id: string, idPrefix: string, members: map<string, Json.Value>,
                        expected: Option<int>, now: string, render: Json.Value -> string)
        returns (r: Result<Json.Value, AppError>)
      modifies this
      ensures StoreOutcome(r, files) == UpsertAt(old(files), file, id, idPrefix, members, expected, now, render)
    {
      var existing := if file in files then Some(files[file]) else None;
      var actual := if existing.Some? then Revision(existing.value) else 0;
      if expected.Some? && expected.value != actual {
        return Err(ConflictError(idPrefix, expected.value, actual, existing.UnwrapOr(Json.Null), render));
      }
      var stamped := members["id" := Json.Str(id)];
      var created := if existing.Some? && Json.Get(existing.value, "createdAt").Some?
                     then Json.Get(existing.value, "createdAt").value else Json.Str(now);
      stamped := stamped["createdAt" := created];
      stamped := stamped["updatedAt" := Json.Str(now)];
      stamped := stamped["revision" := Json.Num(actual + 1)];
      assert stamped == Stamp(members, id, created, now, actual + 1);
      files := files[file := Json.Obj(stamped)];
      r := Ok(Json.Obj(stamped));
    }

    /** `patch_json_entity`. */
    method Patch(listing: seq<string>, idPrefix: string, entityId: string, patch: Json.Value,
                 expected: Option<int>, now: string, render: Json.Value -> string) returns (r: Result<Json.Value, AppError>)
      modifies this
      ensures StoreOutcome(r, files) == PatchJsonEntity(old(files), listing, idPrefix, entityId, patch, expected, now, render)
    {
      var file := FileOf(entityId);
      var base := if file in files then Some(files[file]) else FindById(files, listing, entityId);
      r := PatchInFile(file, base, idPrefix, entityId, patch, expected, now, render);
    }

    /** The rest of `patch_json_entity` once the file is named and the entity looked up. */
    method PatchInFile(file: string, base: Option<Json.Value>, idPrefix: string, entityId: string,
                       patch: Json.Value, expected: Option<int>, now: string, render: Json.Value -> string)
        returns (r: Result<Json.Value, AppError>)
      modifies this
      ensures StoreOutcome(r, files) == PatchAt(old(files), file, base, idPrefix, entityId, patch, expected, now, render)
    {
      if base.None? {
        return Err(NotFound(NotFoundMessage(idPrefix, entityId)));
      }
      if expected.Some? {
        var actual := Revision(base.value);
        if expected.value != actual {
          return Err(ConflictError(idPrefix, expected.value, actual, base.value, render));
        }
      }
      var merged := MergeJsonValues(base.value, patch);
      if !merged.Obj? {
        return Err(Policy(ObjectExpectedMessage));
      }
      var members := merged.fields["id" := Json.Str(entityId)];
      var revision := Revision(Json.Obj(members)) + 1;
      members := members["revision" := Json.Num(revision)];
      members := members["updatedAt" := Json.Str(now)];
      if "createdAt" !in members {
        members := members["createdAt" := Json.Str(now)];
      }
      assert members == BumpJsonRevision(merged.fields["id" := Json.Str(entityId)], now);
      files := files[file := Json.Obj(members)];
      r := Ok(Json.Obj(members));
    }
  }

  // ---------------------------------------------------------------- properties

  /**
   * An upsert fails exactly when the payload is not an object or a given expected revision
   * differs from the stored one (0 without a file); a failure leaves the directory as it was.
   */
  lemma UpsertFailsOnlyOnConflict(dir: Dir, idPrefix: string, value: Json.Value, expected: Option<int>,
                                  freshId: string, now: string, render: Json.Value -> string)
    ensures var out := UpsertJsonEntity(dir, idPrefix, value, expected, freshId, now, render);
            var file := FileOf(UpsertId(value, idPrefix, freshId));
            && (out.result.Err? <==> !value.Obj? || (expected.Some? && expected.value != RevisionAt(dir, file)))
            && (!value.Obj? ==> out.result == Err(Policy(ObjectExpectedMessage)))
            && (out.result.Err? ==> out.dir == dir)
  {
    if value.Obj? {
      var id := UpsertId(value, idPrefix, freshId);
      assert UpsertJsonEntity(dir, idPrefix, value, expected, freshId, now, render)
             == UpsertAt(dir, FileOf(id), id, idPrefix, value.fields, expected, now, render);
    }
  }

  /**
   * A successful upsert stores in its file the payload with the id, the stored creation time
   * (or now), the update time and the stored revision plus one; every other member of the
   * payload and every other file is kept.
   */
  lemma UpsertStamps(dir: Dir, file: string, id: string, idPrefix: string, members: map<string, Json.Value>,
                     expected: Option<int>, now: string, render: Json.Value -> string)
    requires UpsertAt(dir, file, id, idPrefix, members, expected, now, render).result.Ok?
    ensures var out := UpsertAt(dir, file, id, idPrefix, members, expected, now, render);
            var saved := out.result.value;
            && saved.Obj?
            && saved.fields.Keys == members.Keys + {"id", "createdAt", "updatedAt", "revision"}
            && saved.fields["id"] == Json.Str(id)
            && saved.fields["revision"] == Json.Num(RevisionAt(dir, file) + 1)
            && saved.fields["updatedAt"] == Json.Str(now)
            && saved.fields["createdAt"] == CreatedAtFor(dir, file, now)
            && (forall k :: k in members && k != "id" && k != "revision" && k != "updatedAt" && k != "createdAt" ==>
                  saved.fields[k] == members[k])
            && out.dir == dir[file := saved]
  {
  }

  /** A new entity gets revision 1 and is created now. */
  lemma UpsertNewEntity(dir: Dir, idPrefix: string, value: Json.Value, freshId: string, now: string,
                        render: Json.Value -> string)
    requires value.Obj? && FileOf(UpsertId(value, idPrefix, freshId)) !in dir
    ensures var out := UpsertJsonEntity(dir, idPrefix, value, None, freshId, now, render);
            && out.result.Ok?
            && out.result.value.Obj?
            && out.result.value.fields["revision"] == Json.Num(1)
            && out.result.value.fields["createdAt"] == Json.Str(now)
  {
    var id := UpsertId(value, idPrefix, freshId);
    assert UpsertJsonEntity(dir, idPrefix, value, None, freshId, now, render)
           == UpsertAt(dir, FileOf(id), id, idPrefix, value.fields, None, now, render);
    UpsertStamps(dir, FileOf(id), id, idPrefix, value.fields, None, now, render);
  }

  /**
   * Optimistic concurrency over two upserts of one entity: after one succeeds, a second
   * succeeds exactly when it expects the revision the first returned, and then it stores the
   * next revision and keeps the first creation time.
   */
  lemma UpsertRevisionHandshake(dir: Dir, file: string, id: string, idPrefix: string,
                                members: map<string, Json.Value>, expected: Option<int>, now: string,
                                next: map<string, Json.Value>, expectedNext: int, later: string,
                                render: Json.Value -> string)
    requires UpsertAt(dir, file, id, idPrefix, members, expected, now, render).result.Ok?
    requires RevisionAt(dir, file) < I64Max
    ensures var one := UpsertAt(dir, file, id, idPrefix, members, expected, now, render);
            var two := UpsertAt(one.dir, file, id, idPrefix, next, Some(expectedNext), later, render);
            && (two.result.Ok? <==> expectedNext == RevisionAt(dir, file) + 1)
            && (two.result.Ok? ==>
                  two.result.value.Obj? && one.result.value.Obj?
                  && two.result.value.fields["revision"] == Json.Num(RevisionAt(dir, file) + 2)
                  && two.result.value.fields["createdAt"] == one.result.value.fields["createdAt"])
  {
    var one := UpsertAt(dir, file, id, idPrefix, members, expected, now, render);
    UpsertStamps(dir, file, id, idPrefix, members, expected, now, render);
    assert Json.Get(one.result.value, "revision") == Some(Json.Num(RevisionAt(dir, file) + 1));
    assert RevisionAt(one.dir, file) == RevisionAt(dir, file) + 1;
    assert CreatedAtFor(one.dir, file, later) == one.result.value.fields["createdAt"];
  }

  /**
   * A patch fails with NotFound when neither the entity's file nor the scan finds it, with
   * CONFLICT when a given expected revision differs from the found one, and with the object
   * error when the patch is not an object; otherwise it succeeds. Failures write nothing.
   */
  lemma PatchOutcomes(dir: Dir, listing: seq<string>, idPrefix: string, entityId: string, patch: Json.Value,
                      expected: Option<int>, now: string, render: Json.Value -> string)
    ensures var out := PatchJsonEntity(dir, listing, idPrefix, entityId, patch, expected, now, render);
            var base := PatchBase(dir, listing, FileOf(entityId), entityId);
            && (base.None? ==> out.result == Err(NotFound(NotFoundMessage(idPrefix, entityId))))
            && (base.Some? && expected.Some? && expected.value != Revision(base.value) ==>
                  out.result == Err(ConflictError(idPrefix, expected.value, Revision(base.value), base.value, render)))
            && (out.result.Ok? <==>
                  base.Some? && (expected.None? || expected.value == Revision(base.value)) && patch.Obj?)
            && (out.result.Err? ==> out.dir == dir)
  {
    var file := FileOf(entityId);
    var base := PatchBase(dir, listing, file, entityId);
    assert PatchJsonEntity(dir, listing, idPrefix, entityId, patch, expected, now, render)
           == PatchAt(dir, file, base, idPrefix, entityId, patch, expected, now, render);
  }

  /**
   * A successful patch writes in its file the merged entity with the id, the update time, the
   * merged revision plus one and a creation time; every other member is the merged one.
   */
  lemma PatchStamps(dir: Dir, file: string, base: Option<Json.Value>, idPrefix: string, entityId: string,
                    patch: Json.Value, expected: Option<int>, now: string, render: Json.Value -> string)
    requires PatchAt(dir, file, base, idPrefix, entityId, patch, expected, now, render).result.Ok?
    ensures var out := PatchAt(dir, file, base, idPrefix, entityId, patch, expected, now, render);
            var merged := Runner.MergeJson(base.value, patch);
            var saved := out.result.value;
            && base.Some? && merged.Obj? && saved.Obj?
            && saved.fields["id"] == Json.Str(entityId)
            && saved.fields["updatedAt"] == Json.Str(now)
            && saved.fields["revision"] == Json.Num(Revision(merged) + 1)
            && "createdAt" in saved.fields
            && (forall k :: k in merged.fields && k != "id" && k != "revision" && k != "updatedAt" && k != "createdAt" ==>
                  saved.fields[k] == merged.fields[k])
            && out.dir == dir[file := saved]
  {
    var merged := Runner.MergeJson(base.value, patch);
    assert Revision(Json.Obj(merged.fields["id" := Json.Str(entityId)])) == Revision(merged);
  }

  /**
   * When the stored entity is an object and the patch an object without "revision" and
   * "createdAt" of its own, the revision goes up by exactly one, the stored creation time is
   * kept, and every stored member the patch does not name is kept.
   */
  lemma PatchBumpsStoredRevision(dir: Dir, file: string, base: Option<Json.Value>, idPrefix: string,
                                 entityId: string, patch: Json.Value, expected: Option<int>, now: string,
                                 render: Json.Value -> string)
    requires PatchAt(dir, file, base, idPrefix, entityId, patch, expected, now, render).result.Ok?
    requires base.Some? && base.value.Obj?
    requires patch.Obj? && "revision" !in patch.fields && "createdAt" !in patch.fields
    ensures var out := PatchAt(dir, file, base, idPrefix, entityId, patch, expected, now, render);
            && out.result.value.Obj?
            && out.result.value.fields["revision"] == Json.Num(Revision(base.value) + 1)
            && ("createdAt" in base.value.fields ==> out.result.value.fields["createdAt"] == base.value.fields["createdAt"])
            && (forall k :: k in base.value.fields && k !in patch.fields && k != "id" && k != "updatedAt" && k != "revision" ==>
                  out.result.value.fields[k] == base.value.fields[k])
  {
    PatchStamps(dir, file, base, idPrefix, entityId, patch, expected, now, render);
    var merged := Runner.MergeJson(base.value, patch);
    assert Json.Get(merged, "revision") == Json.Get(base.value, "revision");
  }

  /**
   * An entity found only by the scan is written to the file of `entityId`; the file it was
   * found in is left as it was, so the directory then holds the entity twice.
   */
  lemma PatchByScanLeavesOriginal(dir: Dir, listing: seq<string>, idPrefix: string, entityId: string,
                                  patch: Json.Value, expected: Option<int>, now: string,
                                  render: Json.Value -> string, found: string)
    requires FileOf(entityId) !in dir && found in dir
    requires PatchJsonEntity(dir, listing, idPrefix, entityId, patch, expected, now, render).result.Ok?
    ensures var out := PatchJsonEntity(dir, listing, idPrefix, entityId, patch, expected, now, render);
            FileOf(entityId) in out.dir && found in out.dir && out.dir[found] == dir[found]
  {
    var file := FileOf(entityId);
    var base := PatchBase(dir, listing, file, entityId);
    assert PatchJsonEntity(dir, listing, idPrefix, entityId, patch, expected, now, render)
           == PatchAt(dir, file, base, idPrefix, entityId, patch, expected, now, render);
    PatchStamps(dir, file, base, idPrefix, entityId, patch, expected, now, render);
  }

  /** Bumping twice adds two to the revision and keeps the creation time of the first bump. */
  lemma BumpTwice(members: map<string, Json.Value>, now: string, later: string)
    requires Revision(Json.Obj(members)) + 1 <= I64Max
    ensures var once := BumpJsonRevision(members, now);
            var twice := BumpJsonRevision(once, later);
            && twice["revision"] == Json.Num(Revision(Json.Obj(members)) + 2)
            && twice["createdAt"] == once["createdAt"]
            && twice["updatedAt"] == Json.Str(later)
  {
    var once := BumpJsonRevision(members, now);
    assert Json.Get(Json.Obj(once), "revision") == Some(Json.Num(Revision(Json.Obj(members)) + 1));
  }

  /** Taking out the expected revision twice finds nothing the second time and changes nothing more. */
  lemma PopExpectedRevisionOnce(value: Json.Value)
    ensures var once := PopExpectedRevision(value);
            PopExpectedRevision(once.rest) == Popped(once.rest, None)
  {
  }
}
