/**
 * `validate_registry_uniqueness` of workspace.rs: a registry entry (a thread, project or other
 * kind of named thing) must have a non-empty name and distinct aliases that differ from the
 * name, and neither its name nor an alias may clash with the name or an alias of another entry
 * of the same kind. Names are compared trimmed and in ASCII lower case. The stored entries are
 * a parameter, in directory order; `render` is the JSON rendering of the conflict payload.
 */
module Registry {
  import opened Wrappers
  import opened Errors
  import opened Text
  import Json

  const EmptyNameMessage := "VALIDATION_ERROR: registry entry name cannot be empty"
  const AliasIsNameMessage := "VALIDATION_ERROR: registry alias cannot match the entry name"
  const AliasesNotUniqueMessage := "VALIDATION_ERROR: registry aliases must be unique"

  /** A name as compared: trimmed, ASCII lower case. */
  function NormalizeName(s: string): string
  {
    Lower(Trim(s))
  }

  /** The string items of an entry's "aliases" array, normalised, in order. */
  function AliasStrings(items: seq<Json.Value>): (r: seq<string>)
    ensures forall a :: a in r <==> exists i :: 0 <= i < |items| && items[i].Str? && NormalizeName(items[i].s) == a
    decreases |items|
  {
    if items == [] then []
    else
      var rest := AliasStrings(items[1..]);
      assert forall i :: 0 <= i < |items[1..]| ==> items[1..][i] == items[i + 1];
      if items[0].Str? then [NormalizeName(items[0].s)] + rest else rest
  }

  /** The aliases an entry lists (none when "aliases" is missing or not an array). */
  function RawAliases(entry: Json.Value): seq<string>
  {
    match Json.Get(entry, "aliases")
    case Some(Arr(items)) => AliasStrings(items)
    case _ => []
  }

  /** The candidate's aliases: the normalised ones that are not empty. */
  function NonEmpty(aliases: seq<string>): (r: seq<string>)
    ensures forall a :: a in r <==> a in aliases && a != ""
    decreases |aliases|
  {
    if aliases == [] then []
    else
      var rest := NonEmpty(aliases[1..]);
      assert forall a :: a in aliases <==> a == aliases[0] || a in aliases[1..];
      if aliases[0] != "" then [aliases[0]] + rest else rest
  }

  function KindOf(entry: Json.Value): string
  {
    Lower(Json.GetStr(entry, "kind").UnwrapOr("thread"))
  }

  function NameOf(entry: Json.Value): string
  {
    NormalizeName(Json.GetStr(entry, "name").UnwrapOr(""))
  }

  /** What the check reads of the candidate; the id given by the caller wins over the entry's own. */
  datatype Candidate = Candidate(id: Option<string>, kind: string, name: string, aliases: seq<string>)

  function CandidateOf(candidate: Json.Value, currentId: Option<string>): (c: Candidate)
    ensures forall a :: a in c.aliases ==> a != ""
  {
    Candidate(if currentId.Some? then currentId else Json.GetStr(candidate, "id"),
              KindOf(candidate), NameOf(candidate), NonEmpty(RawAliases(candidate)))
  }

  /**
   * The first fault of an alias list scanned in order: an alias equal to the name, or one
   * seen before it.
   */
  function AliasFault(name: string, aliases: seq<string>): (r: Option<string>)
    decreases |aliases|
  {
    if aliases == [] then None
    else
      var before := aliases[..|aliases| - 1];
      var last := aliases[|aliases| - 1];
      var earlier := AliasFault(name, before);
      if earlier.Some? then earlier
      else if last == name then Some(AliasIsNameMessage)
      else if last in before then Some(AliasesNotUniqueMessage)
      else None
  }

  /** Whether a stored entry is checked against the candidate, and whether it clashes. */
  predicate Clashes(c: Candidate, existing: Json.Value)
  {
    Json.GetStr(existing, "id") != c.id && KindOf(existing) == c.kind &&
    var name := NameOf(existing);
    var aliases := RawAliases(existing);
    c.name == name || c.name in aliases
    || exists i :: 0 <= i < |c.aliases| && (c.aliases[i] == name || c.aliases[i] in aliases)
  }

  /** The first stored entry that clashes with the candidate. */
  function FirstClash(c: Candidate, entries: seq<Json.Value>): (r: Option<Json.Value>)
    ensures r.Some? ==> r.value in entries && Clashes(c, r.value)
    ensures r.None? <==> forall e :: e in entries ==> !Clashes(c, e)
    decreases |entries|
  {
    if entries == [] then None
    else if Clashes(c, entries[0]) then Some(entries[0])
    else
      assert forall e :: e in entries <==> e == entries[0] || e in entries[1..];
      FirstClash(c, entries[1..])
  }

  function ConflictPayload(latest: Json.Value): Json.Value
  {
    Json.Obj(map["code" := Json.Str("CONFLICT"), "entity" := Json.Str("registry"),
                 "reason" := Json.Str("name_or_alias_not_unique"), "latest" := latest])
  }

  /** `validate_registry_uniqueness` over the candidate as read. */
  function Validate(entries: seq<Json.Value>, c: Candidate, render: Json.Value -> string): (r: Result<(), AppError>)
  {
    if c.name == "" then Err(Policy(EmptyNameMessage))
    else if AliasFault(c.name, c.aliases).Some? then Err(Policy(AliasFault(c.name, c.aliases).value))
    else match FirstClash(c, entries)
      case Some(existing) => Err(Policy("CONFLICT: " + render(ConflictPayload(existing))))
      case None => Ok(())
  }

  /** `validate_registry_uniqueness`. */
  function ValidateRegistryUniqueness(entries: seq<Json.Value>, candidate: Json.Value, currentId: Option<string>,
                                      render: Json.Value -> string): (r: Result<(), AppError>)
    ensures var c := CandidateOf(candidate, currentId);
            r.Ok? <==>
              c.name != "" && c.name !in c.aliases
              && (forall i, j :: 0 <= i < j < |c.aliases| ==> c.aliases[i] != c.aliases[j])
              && forall e :: e in entries ==> !Clashes(c, e)
  {
    var c := CandidateOf(candidate, currentId);
    ValidateAcceptsIff(entries, c, render);
    Validate(entries, c, render)
  }

  /** The check as a scan: the alias list first, then the stored entries in order. */
  method CheckUniqueness(entries: seq<Json.Value>, c: Candidate, render: Json.Value -> string)
    returns (r: Result<(), AppError>)
    ensures r == Validate(entries, c, render)
  {
    if c.name == "" {
      return Err(Policy(EmptyNameMessage));
    }
    var fault := ScanAliases(c.name, c.aliases);
    if fault.Some? {
      return Err(Policy(fault.value));
    }
    var clash := ScanEntries(entries, c);
    if clash.Some? {
      return Err(Policy("CONFLICT: " + render(ConflictPayload(clash.value))));
    }
    return Ok(());
  }

  /** The alias loop, keeping the set of aliases seen so far. */
  method ScanAliases(name: string, aliases: seq<string>) returns (r: Option<string>)
    ensures r == AliasFault(name, aliases)
  {
    var seen: set<string> := {};
    for i := 0 to |aliases|
      invariant AliasFault(name, aliases[..i]).None?
      invariant seen == set k | 0 <= k < i :: aliases[k]
    {
      var alias := aliases[i];
      assert aliases[..i + 1][..i] == aliases[..i] && aliases[..i + 1][i] == alias;
      assert alias in aliases[..i] <==> alias in seen by {
        assert forall k :: 0 <= k < i ==> aliases[..i][k] == aliases[k];
      }
      if alias == name {
        PrefixFault(name, aliases, i + 1);
        return Some(AliasIsNameMessage);
      }
      if alias in seen {
        PrefixFault(name, aliases, i + 1);
        return Some(AliasesNotUniqueMessage);
      }
      seen := seen + {alias};
    }
    assert aliases[..|aliases|] == aliases;
    return None;
  }

  /** The loop over the stored entries. */
  method ScanEntries(entries: seq<Json.Value>, c: Candidate) returns (r: Option<Json.Value>)
    ensures r == FirstClash(c, entries)
  {
    for i := 0 to |entries|
      invariant FirstClash(c, entries) == FirstClash(c, entries[i..])
    {
      assert entries[i..][0] == entries[i] && entries[i..][1..] == entries[i + 1..];
      if Clashes(c, entries[i]) {
        return Some(entries[i]);
      }
    }
    return None;
  }

  // ---------------------------------------------------------------- properties

  /** A fault in a prefix of the alias list is the fault of the whole list. */
  lemma {:induction false} PrefixFault(name: string, aliases: seq<string>, n: nat)
    requires n <= |aliases| && AliasFault(name, aliases[..n]).Some?
    ensures AliasFault(name, aliases) == AliasFault(name, aliases[..n])
    decreases |aliases| - n
  {
    if n < |aliases| {
      assert aliases[..n + 1][..n] == aliases[..n];
      PrefixFault(name, aliases, n + 1);
    } else {
      assert aliases[..n] == aliases;
    }
  }

  /** The alias list is accepted exactly when no alias is the name and no alias repeats. */
  lemma {:induction false} AliasFaultNone(name: string, aliases: seq<string>)
    ensures AliasFault(name, aliases).None? <==>
              (name !in aliases && forall i, j :: 0 <= i < j < |aliases| ==> aliases[i] != aliases[j])
    decreases |aliases|
  {
    if aliases != [] {
      var before := aliases[..|aliases| - 1];
      AliasFaultNone(name, before);
      assert forall a :: a in aliases <==> a in before || a == aliases[|aliases| - 1];
      assert forall i :: 0 <= i < |before| ==> before[i] == aliases[i];
    }
  }

  /**
   * The check passes exactly when the name is not empty, the aliases are distinct and differ
   * from the name, and no other stored entry of the same kind shares a name or an alias with it.
   */
  lemma ValidateAcceptsIff(entries: seq<Json.Value>, c: Candidate, render: Json.Value -> string)
    ensures Validate(entries, c, render).Ok? <==>
              c.name != "" && c.name !in c.aliases
              && (forall i, j :: 0 <= i < j < |c.aliases| ==> c.aliases[i] != c.aliases[j])
              && forall e :: e in entries ==> !Clashes(c, e)
  {
    AliasFaultNone(c.name, c.aliases);
  }

  /**
   * When the check passes, every other stored entry of the same kind differs from the
   * candidate in name and in every alias, both ways round.
   */
  lemma AcceptedIsUnique(entries: seq<Json.Value>, candidate: Json.Value, currentId: Option<string>,
                         render: Json.Value -> string, e: Json.Value)
    requires ValidateRegistryUniqueness(entries, candidate, currentId, render).Ok?
    requires e in entries
    requires Json.GetStr(e, "id") != CandidateOf(candidate, currentId).id
    requires KindOf(e) == KindOf(candidate)
    ensures NameOf(candidate) != "" && NameOf(candidate) != NameOf(e) && NameOf(candidate) !in RawAliases(e)
    ensures forall a :: a in CandidateOf(candidate, currentId).aliases ==> a != NameOf(e) && a !in RawAliases(e)
  {
    var c := CandidateOf(candidate, currentId);
    assert !Clashes(c, e);
    forall a | a in c.aliases ensures a != NameOf(e) && a !in RawAliases(e) {
      var i :| 0 <= i < |c.aliases| && c.aliases[i] == a;
    }
  }

  /** A failed check reports the first clashing entry, or one of the three validation errors. */
  lemma RejectionReasons(entries: seq<Json.Value>, c: Candidate, render: Json.Value -> string)
    requires Validate(entries, c, render).Err?
    ensures var m := Validate(entries, c, render).error;
            m == Policy(EmptyNameMessage) || m == Policy(AliasIsNameMessage) || m == Policy(AliasesNotUniqueMessage)
            || exists k :: 0 <= k < |entries| && Clashes(c, entries[k])
                 && (forall j :: 0 <= j < k ==> !Clashes(c, entries[j]))
                 && m == Policy("CONFLICT: " + render(ConflictPayload(entries[k])))
  {
    if c.name != "" && AliasFault(c.name, c.aliases).None? {
      var k := ClashIndex(c, entries);
      assert FirstClash(c, entries) == Some(entries[k]);
    } else if c.name != "" {
      AliasFaultMessages(c.name, c.aliases);
    }
  }

  lemma {:induction false} AliasFaultMessages(name: string, aliases: seq<string>)
    ensures AliasFault(name, aliases) in {None, Some(AliasIsNameMessage), Some(AliasesNotUniqueMessage)}
    decreases |aliases|
  {
    if aliases != [] {
      AliasFaultMessages(name, aliases[..|aliases| - 1]);
    }
  }

  /** Where the first clash is, when there is one. */
  lemma {:induction false} ClashIndex(c: Candidate, entries: seq<Json.Value>) returns (k: nat)
    requires FirstClash(c, entries).Some?
    ensures k < |entries| && FirstClash(c, entries) == Some(entries[k]) && Clashes(c, entries[k])
    ensures forall j :: 0 <= j < k ==> !Clashes(c, entries[j])
    decreases |entries|
  {
    if Clashes(c, entries[0]) {
      k := 0;
    } else {
      var tail := entries[1..];
      var rest := ClashIndex(c, tail);
      k := rest + 1;
      assert FirstClash(c, entries) == FirstClash(c, tail);
      forall j | 0 <= j < k ensures !Clashes(c, entries[j]) {
        if j > 0 { assert entries[j] == tail[j - 1]; }
      }
    }
  }

  /** The entry being updated (same id) and entries of other kinds never clash. */
  lemma SelfAndOtherKindsIgnored(entries: seq<Json.Value>, c: Candidate, e: Json.Value, render: Json.Value -> string)
    requires Json.GetStr(e, "id") == c.id || KindOf(e) != c.kind
    ensures Validate(entries + [e], c, render) == Validate(entries, c, render)
  {
    FirstClashSkipsTail(c, entries, e);
  }

  lemma {:induction false} FirstClashSkipsTail(c: Candidate, entries: seq<Json.Value>, e: Json.Value)
    requires !Clashes(c, e)
    ensures FirstClash(c, entries + [e]) == FirstClash(c, entries)
    decreases |entries|
  {
    if entries == [] {
      assert [e][1..] == [];
    } else {
      assert (entries + [e])[0] == entries[0] && (entries + [e])[1..] == entries[1..] + [e];
      FirstClashSkipsTail(c, entries[1..], e);
    }
  }

  /**
   * A candidate with neither an id of its own nor one from the caller is not compared with
   * stored entries that have no string id either: both ids are absent, so they count as equal.
   */
  lemma IdlessEntriesSkipped(candidate: Json.Value, e: Json.Value)
    requires Json.GetStr(candidate, "id").None? && Json.GetStr(e, "id").None?
    ensures !Clashes(CandidateOf(candidate, None), e)
  {
  }

  /** Names differing only in surrounding whitespace and ASCII case clash. */
  lemma NamesCompareLoosely(c: Candidate, e: Json.Value, raw: string)
    requires Json.GetStr(e, "id") != c.id && KindOf(e) == c.kind
    requires Json.GetStr(e, "name") == Some(raw) && NormalizeName(raw) == c.name
    ensures Clashes(c, e)
  {
  }
}
