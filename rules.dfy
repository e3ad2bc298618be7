/**
 * Rule conditions of workspace.rs (`lookup_by_path`, `evaluate_rule_condition`): a condition
 * is a JSON object naming a dotted field path into the evaluation context, an operator and a
 * value. Numbers are the integers of the JSON model; the regular-expression engine is a
 * parameter, `regexMatch(pattern, text)`, which is None when the pattern does not compile.
 */
module Rules {
  import opened Wrappers
  import opened Text
  import Json

  // ---------------------------------------------------------------- lookup_by_path

  /** Following object members one path segment at a time; a missing member ends the walk. */
  function PathLookup(value: Json.Value, segments: seq<string>): (r: Option<Json.Value>)
    decreases |segments|
  {
    if segments == [] then Some(value)
    else
      match Json.Get(value, segments[0])
      case None => None
      case Some(child) => PathLookup(child, segments[1..])
  }

  /** The member a dotted path names; a field without a dot is a plain member lookup. */
  function LookupPath(value: Json.Value, field: string): (r: Option<Json.Value>)
    ensures !ContainsChar(field, '.') ==> r == Json.Get(value, field)
  {
    PlainSplit(field);
    SingleSegment(value, field);
    PathLookup(value, Split(field, '.'))
  }

  lemma PlainSplit(field: string)
    ensures !ContainsChar(field, '.') ==> Split(field, '.') == [field]
  {
    if !ContainsChar(field, '.') {
      assert FindChar(field, '.').None?;
    }
  }

  /** `lookup_by_path`. */
  method LookupByPath(value: Json.Value, field: string) returns (r: Option<Json.Value>)
    ensures r == LookupPath(value, field)
  {
    var segments := Split(field, '.');
    var current := value;
    for i := 0 to |segments|
      invariant PathLookup(value, segments) == PathLookup(current, segments[i..])
    {
      assert segments[i..][0] == segments[i] && segments[i..][1..] == segments[i + 1..];
      var next := Json.Get(current, segments[i]);
      if next.None? {
        return None;
      }
      current := next.value;
    }
    return Some(current);
  }

  /** Walking a path in two parts is walking the first part, then the second from there. */
  lemma {:induction false} PathLookupAppend(value: Json.Value, first: seq<string>, second: seq<string>)
    ensures PathLookup(value, first + second)
            == if PathLookup(value, first).None? then None else PathLookup(PathLookup(value, first).value, second)
    decreases |first|
  {
    if first == [] {
      assert first + second == second;
    } else {
      assert (first + second)[0] == first[0] && (first + second)[1..] == first[1..] + second;
      var child := Json.Get(value, first[0]);
      if child.Some? {
        PathLookupAppend(child.value, first[1..], second);
      }
    }
  }

  /** A path of dot-free segments joined by dots walks exactly those segments. */
  lemma DottedPathWalksSegments(value: Json.Value, segments: seq<string>)
    requires |segments| >= 1
    requires forall k :: 0 <= k < |segments| ==> !ContainsChar(segments[k], '.')
    ensures LookupPath(value, Join(segments, ".")) == PathLookup(value, segments)
  {
    JoinSplit(segments, '.');
  }

  lemma SingleSegment(value: Json.Value, segment: string)
    ensures PathLookup(value, [segment]) == Json.Get(value, segment)
  {
    assert [segment][0] == segment && [segment][1..] == [];
    var child := Json.Get(value, segment);
    if child.Some? {
      assert PathLookup(child.value, []) == Some(child.value);
    }
  }

  /** "a.b" is member "b" of member "a". */
  lemma NestedField(value: Json.Value, outer: string, inner: string)
    requires !ContainsChar(outer, '.') && !ContainsChar(inner, '.')
    ensures LookupPath(value, outer + "." + inner)
            == if Json.Get(value, outer).None? then None else Json.Get(Json.Get(value, outer).value, inner)
  {
    var segments := [outer, inner];
    assert Join(segments, ".") == outer + "." + inner by {
      assert segments[1..] == [inner];
    }
    DottedPathWalksSegments(value, segments);
    assert segments[0] == outer && segments[1..] == [inner];
    var child := Json.Get(value, outer);
    if child.Some? {
      SingleSegment(child.value, inner);
    }
  }

  // ---------------------------------------------------------------- evaluate_rule_condition

  /** `Some(item) == actual`: the looked-up value is present and equals `item`. */
  predicate IsActual(actual: Option<Json.Value>, item: Json.Value)
  {
    actual == Some(item)
  }

  /** `compare_json_numbers`: both sides present and numbers, and `compare` holds of them. */
  predicate CompareNumbers(actual: Option<Json.Value>, expected: Option<Json.Value>, compare: (int, int) -> bool)
  {
    actual.Some? && actual.value.Num? && expected.Some? && expected.value.Num?
    && compare(actual.value.n, expected.value.n)
  }

  /** Both sides present and strings. */
  predicate BothStrings(actual: Option<Json.Value>, expected: Option<Json.Value>)
  {
    actual.Some? && actual.value.Str? && expected.Some? && expected.value.Str?
  }

  /**
   * `evaluate_rule_condition`: a condition without a string "field" is false; the operator
   * defaults to "eq"; an unknown operator is false.
   */
  function EvaluateRuleCondition(context: Json.Value, condition: Json.Value,
                                 regexMatch: (string, string) -> Option<bool>): (r: bool)
    ensures r ==> Json.GetStr(condition, "field").Some?
    ensures r ==> Json.GetStr(condition, "op").UnwrapOr("eq") in RuleOperators
  {
    var field := Json.GetStr(condition, "field");
    if field.None? then false
    else
      var op := Json.GetStr(condition, "op").UnwrapOr("eq");
      var expected := Json.Get(condition, "value");
      var actual := LookupPath(context, field.value);
      if op == "eq" then actual == expected
      else if op == "neq" then actual != expected
      else if op == "in" then
        expected.Some? && expected.value.Arr?
        && exists i :: 0 <= i < |expected.value.items| && IsActual(actual, expected.value.items[i])
      else if op == "nin" then
        expected.Some? && expected.value.Arr?
        && forall i :: 0 <= i < |expected.value.items| ==> !IsActual(actual, expected.value.items[i])
      else if op == "gt" then CompareNumbers(actual, expected, (a, b) => a > b)
      else if op == "gte" then CompareNumbers(actual, expected, (a, b) => a >= b)
      else if op == "lt" then CompareNumbers(actual, expected, (a, b) => a < b)
      else if op == "lte" then CompareNumbers(actual, expected, (a, b) => a <= b)
      else if op == "exists" then actual.Some?
      else if op == "contains" then
        BothStrings(actual, expected) && Contains(actual.value.s, expected.value.s)
      else if op == "matches" then
        BothStrings(actual, expected) && regexMatch(expected.value.s, actual.value.s) == Some(true)
      else false
  }

  /** The operators a rule condition knows. */
  const RuleOperators: seq<string> :=
    ["eq", "neq", "in", "nin", "gt", "gte", "lt", "lte", "exists", "contains", "matches"]

  /** A condition object with the given members. */
  function Condition(field: string, op: string, value: Json.Value): Json.Value
  {
    Json.Obj(map["field" := Json.Str(field), "op" := Json.Str(op), "value" := value])
  }

  // ---------------------------------------------------------------- properties

  /** "neq" is the negation of "eq". */
  lemma NegatedOperators(context: Json.Value, field: string, value: Json.Value,
                         regexMatch: (string, string) -> Option<bool>)
    ensures EvaluateRuleCondition(context, Condition(field, "neq", value), regexMatch)
            == !EvaluateRuleCondition(context, Condition(field, "eq", value), regexMatch)
  {
    assert Json.GetStr(Condition(field, "neq", value), "op") == Some("neq");
    assert Json.GetStr(Condition(field, "eq", value), "op") == Some("eq");
  }

  /** "nin" is the negation of "in" when the value is an array. */
  lemma NegatedMembership(context: Json.Value, field: string, value: Json.Value,
                          regexMatch: (string, string) -> Option<bool>)
    requires value.Arr?
    ensures EvaluateRuleCondition(context, Condition(field, "nin", value), regexMatch)
            == !EvaluateRuleCondition(context, Condition(field, "in", value), regexMatch)
  {
    assert Json.GetStr(Condition(field, "nin", value), "op") == Some("nin");
    assert Json.GetStr(Condition(field, "in", value), "op") == Some("in");
    assert Json.Get(Condition(field, "in", value), "value") == Some(value);
    assert Json.Get(Condition(field, "nin", value), "value") == Some(value);
  }

  /** "in" and "nin" with a value that is not an array both fail. */
  lemma MembershipNeedsArray(context: Json.Value, field: string, value: Json.Value,
                             regexMatch: (string, string) -> Option<bool>)
    requires !value.Arr?
    ensures !EvaluateRuleCondition(context, Condition(field, "in", value), regexMatch)
    ensures !EvaluateRuleCondition(context, Condition(field, "nin", value), regexMatch)
  {
    assert Json.GetStr(Condition(field, "nin", value), "op") == Some("nin");
    assert Json.GetStr(Condition(field, "in", value), "op") == Some("in");
  }

  /**
   * "gt" and "lte" are each other's negation when both sides are numbers, and both fail when
   * either side is missing or not a number.
   */
  lemma OrderingOperators(context: Json.Value, field: string, value: Json.Value,
                          regexMatch: (string, string) -> Option<bool>)
    ensures var actual := LookupPath(context, field);
            var numeric := actual.Some? && actual.value.Num? && value.Num?;
            var gt := EvaluateRuleCondition(context, Condition(field, "gt", value), regexMatch);
            var lte := EvaluateRuleCondition(context, Condition(field, "lte", value), regexMatch);
            && (numeric ==> gt == !lte && (gt <==> actual.value.n > value.n))
            && (!numeric ==> !gt && !lte)
  {
    assert Json.GetStr(Condition(field, "gt", value), "op") == Some("gt");
    assert Json.GetStr(Condition(field, "lte", value), "op") == Some("lte");
  }

  /** Without an "op" the condition is an equality test. */
  lemma DefaultOperatorIsEq(context: Json.Value, condition: Json.Value, regexMatch: (string, string) -> Option<bool>)
    requires Json.GetStr(condition, "field").Some? && Json.Get(condition, "op").None?
    ensures EvaluateRuleCondition(context, condition, regexMatch)
            <==> LookupPath(context, Json.GetStr(condition, "field").value) == Json.Get(condition, "value")
  {
  }

  /** "exists" holds exactly when the path leads somewhere; an unknown operator never holds. */
  lemma ExistsAndUnknown(context: Json.Value, field: string, value: Json.Value, op: string,
                         regexMatch: (string, string) -> Option<bool>)
    requires op !in RuleOperators
    ensures EvaluateRuleCondition(context, Condition(field, "exists", value), regexMatch)
            <==> LookupPath(context, field).Some?
    ensures !EvaluateRuleCondition(context, Condition(field, op, value), regexMatch)
  {
    assert Json.GetStr(Condition(field, "exists", value), "op") == Some("exists");
    assert Json.GetStr(Condition(field, op, value), "op") == Some(op);
  }

  /** A pattern the regex engine rejects makes "matches" fail. */
  lemma BadPatternNeverMatches(context: Json.Value, field: string, pattern: string,
                               regexMatch: (string, string) -> Option<bool>)
    requires forall text :: regexMatch(pattern, text).None?
    ensures !EvaluateRuleCondition(context, Condition(field, "matches", Json.Str(pattern)), regexMatch)
  {
    assert Json.GetStr(Condition(field, "matches", Json.Str(pattern)), "op") == Some("matches");
  }
}
