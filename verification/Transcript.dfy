/** Transcript events, and the card a sub-agent's lifecycle events fold into. */
module Transcript {
  import opened Options

  /** The `type` of an event. */
  datatype Kind =
    | Subagent | ToolUse | ToolResult | Result
    | AssistantText | PlainText | Assistant        // assistant prose
    | UserMessage | User | SteerDelivered          // each opens a turn
    | OtherKind(name: string)

  /** The keys the folds look at. */
  datatype Field =
    | Id | ToolUseId | TaskId | ParentToolUseId
    | TextField | Summary | Subtype | IsError
    | SubagentType | TaskType | Description | Prompt | LastToolName | Status | OutputFile | Usage | Phase | Raw
    | OtherField(name: string)

  /** A JSON value; `Other` stands for numbers, booleans and lists. */
  datatype Value = Null | Str(s: string) | Dict(fields: map<string, Value>) | Other(tag: int)

  datatype Event = Event(kind: Kind, fields: map<Field, Value>)

  /** A field that holds a string, if it does. */
  function StrOf(e: Event, k: Field): Option<string> {
    if k in e.fields && e.fields[k].Str? then Some(e.fields[k].s) else None
  }

  /** `e.get(k) or ""`: absent, null and empty are alike. */
  function TextOf(e: Event, k: Field): string {
    StrOf(e, k).GetOr("")
  }

  /** `task_id or tool_use_id`: what ties a sub-agent's events together; "" when there is none. */
  function Key(e: Event): string {
    if TextOf(e, TaskId) != "" then TextOf(e, TaskId) else TextOf(e, ToolUseId)
  }

  /** An event of the sub-agent with this key. */
  predicate OfAgent(e: Event, key: string) {
    e.kind.Subagent? && key != "" && Key(e) == key
  }

  // ---- Merging ----

  /** Which fields a merge takes over, and whether it ignores an empty dictionary. */
  datatype Rule = Rule(fields: set<Field>, skipsEmptyDict: bool)

  function RuleOf(keys: seq<Field>, skipsEmptyDict: bool): Rule {
    Rule((set k | k in keys), skipsEmptyDict)
  }

  /** Values the merge ignores. */
  predicate Empty(v: Value, rule: Rule) {
    v == Null || v == Str("") || (rule.skipsEmptyDict && v == Dict(map[]))
  }

  /** The non-empty values of the merge fields. */
  function Taken(e: Event, rule: Rule): map<Field, Value> {
    map k | k in e.fields && k in rule.fields && !Empty(e.fields[k], rule) :: e.fields[k]
  }

  /** They win. */
  function Merged(card: Event, e: Event, rule: Rule): Event {
    card.(fields := card.fields + Taken(e, rule))
  }

  /** The card after all of `rest` that belongs to the same agent has been folded into it. */
  function Folded(card: Event, key: string, rest: seq<Event>, rule: Rule): Event {
    if rest == [] then card
    else
      var last := rest[|rest| - 1];
      var before := Folded(card, key, rest[..|rest| - 1], rule);
      if OfAgent(last, key) then Merged(before, last, rule) else before
  }

  /** The agent's event fills in the field. */
  predicate Fills(e: Event, key: string, rule: Rule, k: Field) {
    OfAgent(e, key) && k in Taken(e, rule)
  }

  /** The last of the agent's events to fill in the field. */
  function LastFill(key: string, rest: seq<Event>, rule: Rule, k: Field): (r: Option<nat>)
    ensures match r
            case None => forall j | 0 <= j < |rest| :: !Fills(rest[j], key, rule, k)
            case Some(i) => i < |rest| && Fills(rest[i], key, rule, k) && forall j | i < j < |rest| :: !Fills(rest[j], key, rule, k)
  {
    if rest == [] then None
    else if Fills(rest[|rest| - 1], key, rule, k) then Some(|rest| - 1)
    else LastFill(key, rest[..|rest| - 1], rule, k)
  }

  /** A field's value is the last non-empty one among the agent's later events, else the card's own. */
  lemma {:induction false} FoldedField(card: Event, key: string, rest: seq<Event>, rule: Rule, k: Field)
    ensures var folded := Folded(card, key, rest, rule);
            match LastFill(key, rest, rule, k)
            case None => (k in folded.fields <==> k in card.fields) && (k in card.fields ==> folded.fields[k] == card.fields[k])
            case Some(i) => k in folded.fields && k in rest[i].fields && folded.fields[k] == rest[i].fields[k]
    decreases |rest|
  {
    hide OfAgent, Merged, Taken;
    if rest != [] {
      var front, last := rest[..|rest| - 1], rest[|rest| - 1];
      FoldedField(card, key, front, rule, k);
      MergedField(Folded(card, key, front, rule), last, rule, k);
    }
  }

  lemma MergedField(card: Event, e: Event, rule: Rule, k: Field)
    ensures var merged := Merged(card, e, rule);
            if k in Taken(e, rule) then k in e.fields && k in merged.fields && merged.fields[k] == e.fields[k]
            else (k in merged.fields <==> k in card.fields) && (k in card.fields ==> merged.fields[k] == card.fields[k])
  {
    hide Empty;
  }

  /** The ids are strings where the schema says so. */
  predicate IdsAreText(e: Event) {
    forall k | k in [TaskId, ToolUseId] && k in e.fields :: e.fields[k].Str? || e.fields[k].Null?
  }

  /** A rule that takes over both ids, or neither. */
  predicate IdsTogether(rule: Rule) {
    TaskId in rule.fields <==> ToolUseId in rule.fields
  }

  /** Merging an event of the same agent keeps the card's key, even where it fills in an id. */
  lemma MergeKeepsKey(card: Event, e: Event, key: string, rule: Rule)
    requires OfAgent(card, key) && OfAgent(e, key) && IdsAreText(e) && IdsTogether(rule)
    ensures OfAgent(Merged(card, e, rule), key)
  {
    var m := Merged(card, e, rule);
    assert TaskId in [TaskId, ToolUseId];
    assert TextOf(m, TaskId) ==
           if TextOf(e, TaskId) != "" && TaskId in rule.fields then key else TextOf(card, TaskId);
  }

  lemma {:induction false} FoldKeepsKey(card: Event, key: string, rest: seq<Event>, rule: Rule)
    requires OfAgent(card, key) && IdsTogether(rule) && forall e | e in rest :: IdsAreText(e)
    ensures OfAgent(Folded(card, key, rest, rule), key)
    decreases |rest|
  {
    if rest != [] {
      var n := |rest| - 1;
      FoldKeepsKey(card, key, rest[..n], rule);
      if OfAgent(rest[n], key) {
        MergeKeepsKey(Folded(card, key, rest[..n], rule), rest[n], key, rule);
      }
    }
  }

  // ---- Looking for events in a stream ----

  predicate AgentBefore(events: seq<Event>, n: nat, key: string)
    requires n <= |events|
  {
    exists j | 0 <= j < n :: OfAgent(events[j], key)
  }

  /** The first event of its agent, or one that belongs to no agent: it opens a card. */
  predicate OpensCard(events: seq<Event>, i: nat)
    requires i < |events|
  {
    events[i].kind.Subagent? && !AgentBefore(events, i, Key(events[i]))
  }

  predicate IsResultOf(e: Event, id: string) {
    e.kind.ToolResult? && id != "" && StrOf(e, ToolUseId) == Some(id)
  }

  predicate IsUse(e: Event, id: string) {
    e.kind.ToolUse? && id != "" && StrOf(e, Id) == Some(id)
  }

  /** The last of the first `n` events that is a result of call `id`. */
  function LastResult(events: seq<Event>, n: nat, id: string): (r: Option<nat>)
    requires n <= |events|
    ensures match r
            case None => forall j | 0 <= j < n :: !IsResultOf(events[j], id)
            case Some(i) => i < n && IsResultOf(events[i], id) && forall j | i < j < n :: !IsResultOf(events[j], id)
  {
    if n == 0 then None
    else if IsResultOf(events[n - 1], id) then Some(n - 1)
    else LastResult(events, n - 1, id)
  }

  /** The events of the stream `i..h` seen by the card opened at `i`. */
  function CardAt(events: seq<Event>, i: nat, h: nat, rule: Rule): Event
    requires i < h <= |events|
  {
    Folded(events[i], Key(events[i]), events[i + 1..h], rule)
  }

  lemma CardStep(events: seq<Event>, i: nat, h: nat, rule: Rule)
    requires i < h < |events|
    ensures CardAt(events, i, h + 1, rule) ==
            if OfAgent(events[h], Key(events[i])) then Merged(CardAt(events, i, h, rule), events[h], rule)
            else CardAt(events, i, h, rule)
  {
    var rest := events[i + 1..h + 1];
    assert rest[..|rest| - 1] == events[i + 1..h];
  }
}
