/**
 * The transcript collector (harness/transcript.rs): folds the semantic events of one run into
 * its final text, its thinking and its structured output. Deltas append; a completion replaces
 * the field, unless its text is blank; a structured output event keeps its "result".
 * The collector keeps the result value itself; its JSON text is the rendering of that value.
 */
module Transcript {
  import opened Wrappers
  import opened Text
  import Json

  /** The three fields of the collector. */
  datatype Collected = Collected(text: string, thinking: string, structuredOutput: Option<Json.Value>)

  const Empty: Collected := Collected("", "", None)

  /** The event type names the collector reacts to. */
  predicate IsKnownEvent(eventType: string)
  {
    eventType == "text_delta" || eventType == "text_complete" || eventType == "thinking_delta"
    || eventType == "thinking_complete" || eventType == "structured_output"
  }

  /** The text that replaces a field on completion: only a non-blank one. */
  function Completed(current: string, text: Option<string>): (r: string)
    ensures text.Some? && !IsBlank(text.value) ==> r == text.value
    ensures text.None? || IsBlank(text.value) ==> r == current
  {
    match text
    case Some(t) => if Trim(t) != [] then t else current
    case None => current
  }

  /** The text appended by a delta: nothing when the payload has no string "text". */
  function DeltaText(payload: Json.Value): (r: string)
    ensures Json.GetStr(payload, "text").Some? ==> r == Json.GetStr(payload, "text").value
    ensures Json.GetStr(payload, "text").None? ==> r == []
  {
    match Json.GetStr(payload, "text")
    case Some(t) => t
    case None => []
  }

  /** `on_semantic_event`: the collector after one event. */
  function Step(c: Collected, eventType: string, payload: Json.Value): (r: Collected)
    ensures eventType == "text_delta" ==> r == c.(text := c.text + DeltaText(payload))
    ensures eventType == "thinking_delta" ==> r == c.(thinking := c.thinking + DeltaText(payload))
    ensures eventType == "text_complete" ==> r == c.(text := Completed(c.text, Json.GetStr(payload, "text")))
    ensures eventType == "thinking_complete" ==>
              r == c.(thinking := Completed(c.thinking, Json.GetStr(payload, "text")))
    ensures eventType == "structured_output" ==>
              r.text == c.text && r.thinking == c.thinking
              && r.structuredOutput == (if Json.Get(payload, "result").Some? then Json.Get(payload, "result") else c.structuredOutput)
    ensures !IsKnownEvent(eventType) ==> r == c
  {
    if eventType == "text_delta" then c.(text := c.text + DeltaText(payload))
    else if eventType == "text_complete" then c.(text := Completed(c.text, Json.GetStr(payload, "text")))
    else if eventType == "thinking_delta" then c.(thinking := c.thinking + DeltaText(payload))
    else if eventType == "thinking_complete" then c.(thinking := Completed(c.thinking, Json.GetStr(payload, "text")))
    else if eventType == "structured_output" then
      match Json.Get(payload, "result")
      case Some(result) => c.(structuredOutput := Some(result))
      case None => c
    else c
  }

  /** An event: its type name and its JSON payload. */
  datatype Event = Event(eventType: string, payload: Json.Value)

  /** The collector after a whole sequence of events. */
  function Replay(c: Collected, events: seq<Event>): (r: Collected)
    decreases |events|
  {
    if events == [] then c
    else Replay(Step(c, events[0].eventType, events[0].payload), events[1..])
  }

  /** A text delta event. */
  function TextDelta(t: string): Event
  {
    Event("text_delta", Json.Obj(map["text" := Json.Str(t)]))
  }

  /** The strings joined end to end. */
  function Concat(parts: seq<string>): string
  {
    if parts == [] then [] else parts[0] + Concat(parts[1..])
  }

  /** One text delta event per string, in order. */
  function TextDeltas(parts: seq<string>): (r: seq<Event>)
    ensures |r| == |parts| && forall i :: 0 <= i < |parts| ==> r[i] == TextDelta(parts[i])
    decreases |parts|
  {
    if parts == [] then [] else [TextDelta(parts[0])] + TextDeltas(parts[1..])
  }

  /** A text delta appends its text. */
  lemma DeltaAppends(c: Collected, t: string)
    ensures Step(c, TextDelta(t).eventType, TextDelta(t).payload) == c.(text := c.text + t)
  {
    assert Json.GetStr(TextDelta(t).payload, "text") == Some(t);
  }

  /** Streaming text deltas builds the concatenation of their texts, and touches nothing else. */
  lemma {:induction false} TextDeltasConcatenate(c: Collected, parts: seq<string>)
    ensures Replay(c, TextDeltas(parts)) == c.(text := c.text + Concat(parts))
    decreases |parts|
  {
    if parts != [] {
      var events := TextDeltas(parts);
      assert events[0] == TextDelta(parts[0]) && events[1..] == TextDeltas(parts[1..]);
      DeltaAppends(c, parts[0]);
      var next := c.(text := c.text + parts[0]);
      TextDeltasConcatenate(next, parts[1..]);
      assert c.text + parts[0] + Concat(parts[1..]) == c.text + Concat(parts);
    }
  }

  /** Events the collector ignores leave every field as it was. */
  lemma {:induction false} UnknownEventsChangeNothing(c: Collected, events: seq<Event>)
    requires forall i :: 0 <= i < |events| ==> !IsKnownEvent(events[i].eventType)
    ensures Replay(c, events) == c
    decreases |events|
  {
    if events != [] {
      UnknownEventsChangeNothing(c, events[1..]);
    }
  }

  /** After a non-blank completion the text is the completed text, whatever streamed before. */
  lemma CompletionWins(c: Collected, t: string)
    requires !IsBlank(t)
    ensures Step(c, "text_complete", Json.Obj(map["text" := Json.Str(t)])).text == t
    ensures Step(c, "thinking_complete", Json.Obj(map["text" := Json.Str(t)])).thinking == t
  {
  }

  /** `TranscriptCollector`: the fields the event handler updates in place. */
  class TranscriptCollector {
    var text: string
    var thinking: string
    var structuredOutput: Option<Json.Value>

    /** The collected state, as a value. */
    function State(): Collected
      reads this
    {
      Collected(text, thinking, structuredOutput)
    }

    /** `TranscriptCollector::default`. */
    constructor ()
      ensures State() == Empty
    {
      text := "";
      thinking := "";
      structuredOutput := None;
    }

    /** `on_semantic_event`. */
    method OnSemanticEvent(eventType: string, payload: Json.Value)
      modifies this
      ensures State() == Step(old(State()), eventType, payload)
    {
      if eventType == "text_delta" {
        match Json.GetStr(payload, "text")
        case Some(t) => text := text + t;
        case None =>
      } else if eventType == "text_complete" {
        match Json.GetStr(payload, "text")
        case Some(t) =>
          if Trim(t) != [] {
            text := t;
          }
        case None =>
      } else if eventType == "thinking_delta" {
        match Json.GetStr(payload, "text")
        case Some(t) => thinking := thinking + t;
        case None =>
      } else if eventType == "thinking_complete" {
        match Json.GetStr(payload, "text")
        case Some(t) =>
          if Trim(t) != [] {
            thinking := t;
          }
        case None =>
      } else if eventType == "structured_output" {
        match Json.Get(payload, "result")
        case Some(result) => structuredOutput := Some(result);
        case None =>
      }
    }

    /** `text()`: the text, trimmed; the collector is unchanged. */
    method Text() returns (r: string)
      ensures r == Trim(text)
      ensures |r| <= |text| && (r == [] <==> IsBlank(text))
    {
      r := Trim(text);
    }

    /** `thinking()`: the thinking, trimmed; the collector is unchanged. */
    method Thinking() returns (r: string)
      ensures r == Trim(thinking)
      ensures |r| <= |thinking| && (r == [] <==> IsBlank(thinking))
    {
      r := Trim(thinking);
    }

    /** `structured_output()`: the last structured result seen. */
    method StructuredOutput() returns (r: Option<Json.Value>)
      ensures r == structuredOutput
    {
      r := structuredOutput;
    }
  }
}
