/** Which events share a card, and what the card, its tree node and its sidebar row show, told by their ids. */
module AgentCards {
  import opened Options
  import opened Text
  import opened Transcript
  import opened Pairing
  import opened SubagentIndex
  import opened RenderTree

  /**
   The two are events of one sub-agent.  A task id counts before a tool id: with two task ids
   those are compared, with none the tool ids, and otherwise the one task id with the other
   event's tool id.
   */
  predicate SameAgent(a: Event, b: Event) {
    && a.kind.Subagent? && b.kind.Subagent?
    && (if TextOf(a, TaskId) != "" && TextOf(b, TaskId) != "" then TextOf(a, TaskId) == TextOf(b, TaskId)
        else if TextOf(a, TaskId) != "" then TextOf(a, TaskId) == TextOf(b, ToolUseId)
        else if TextOf(b, TaskId) != "" then TextOf(a, ToolUseId) == TextOf(b, TaskId)
        else TextOf(a, ToolUseId) == TextOf(b, ToolUseId) != "")
  }

  lemma SameAgentIsSameKey(a: Event, b: Event)
    ensures SameAgent(a, b) <==> a.kind.Subagent? && OfAgent(b, Key(a))
    ensures SameAgent(a, b) <==> b.kind.Subagent? && OfAgent(a, Key(b))
  {
    hide TextOf;
  }

  // ---- Which events open a card ----

  predicate FirstOfAgent(events: seq<Event>, i: nat)
    requires i < |events|
  {
    events[i].kind.Subagent? && forall j | 0 <= j < i :: !SameAgent(events[j], events[i])
  }

  lemma OpensExactly(events: seq<Event>, i: nat)
    requires i < |events|
    ensures OpensCard(events, i) <==> FirstOfAgent(events, i)
  {
    hide SameAgent, OfAgent, Key;
    forall j | 0 <= j < i && events[i].kind.Subagent?
      ensures SameAgent(events[j], events[i]) <==> OfAgent(events[j], Key(events[i]))
    {
      SameAgentIsSameKey(events[j], events[i]);
    }
  }

  /** The server emits a unit for a sub-agent's event exactly when it is the first of its agent. */
  lemma CardUnitExactly(events: seq<Event>, i: nat)
    requires i < |events| && events[i].kind.Subagent?
    ensures (exists p :: p in Pairs(events) && p.at == i) <==> FirstOfAgent(events, i)
    ensures FirstOfAgent(events, i) ==> Paired(i, CardAt(events, i, |events|, MergeSet()), None) in Pairs(events)
  {
    OpensExactly(events, i);
    PairsInOrder(events, |events|, |events|);
    EmitsCard(events, i);
    if OpensCard(events, i) { Emitted(events, |events|, i); }
    hide OpensCard, FirstOfAgent, Emit, CardAt, MergeSet;
  }

  lemma EmitsCard(events: seq<Event>, i: nat)
    requires i < |events| && events[i].kind.Subagent?
    ensures Emit(events, i, |events|) ==
            if OpensCard(events, i) then Some(Paired(i, CardAt(events, i, |events|, MergeSet()), None)) else None
  {
    hide OpensCard, CardAt, MergeSet;
  }

  lemma {:induction false} Emitted(events: seq<Event>, n: nat, i: nat)
    requires i < n <= |events| && Emit(events, i, |events|).Some?
    ensures Emit(events, i, |events|).value in PairsUpTo(events, n, |events|)
  {
    hide Emit;
    if i < n - 1 { Emitted(events, n - 1, i); }
  }

  /** The browser opens a node for it then, and otherwise merges it into its agent's first. */
  lemma NodeExactly(events: seq<Event>, i: nat)
    requires i < |events| && events[i].kind.Subagent?
    ensures if FirstOfAgent(events, i) then RoleOf(events, i) == Top
            else RoleOf(events, i).Merges?
                 && var p := RoleOf(events, i).opener;
                    p < i && SameAgent(events[p], events[i]) && forall j | 0 <= j < p :: !SameAgent(events[j], events[i])
  {
    OpensExactly(events, i);
    hide FirstOfAgent, SameAgent, Key, OfAgent;
    if RoleOf(events, i).Merges? {
      var p := RoleOf(events, i).opener;
      SameAgentIsSameKey(events[p], events[i]);
      forall j | 0 <= j < p ensures !SameAgent(events[j], events[i]) {
        SameAgentIsSameKey(events[j], events[i]);
      }
    }
  }

  /** The sidebar has a row for it then, unless it carries neither id. */
  lemma {:induction false} RowExactly(events: seq<Event>, n: nat, i: nat)
    requires n <= |events| && i < |events|
    ensures i in Openers(events, n) <==>
            i < n && FirstOfAgent(events, i) && (TextOf(events[i], TaskId) != "" || TextOf(events[i], ToolUseId) != "")
  {
    OpensExactly(events, i);
    hide OpensCard, FirstOfAgent, TextOf;
    if n > 0 { RowExactly(events, n - 1, i); }
  }

  // ---- What a card shows ----

  predicate CardField(k: Field) {
    || k == SubagentType || k == TaskType || k == ToolUseId || k == TaskId || k == Description || k == Prompt
    || k == LastToolName || k == Status || k == Summary || k == OutputFile || k == Usage || k == Phase || k == Raw
  }

  predicate NodeField(k: Field) {
    || k == SubagentType || k == TaskType || k == Description || k == Prompt || k == Status || k == Summary
    || k == Usage || k == Phase || k == LastToolName
  }

  /** Event `m` has something to show in field `k` that counts on a card. */
  predicate GivesCard(events: seq<Event>, p: nat, m: nat, k: Field)
    requires p < |events| && m < |events|
  {
    && SameAgent(events[p], events[m]) && CardField(k) && k in events[m].fields
    && events[m].fields[k] != Null && events[m].fields[k] != Str("") && events[m].fields[k] != Dict(map[])
  }

  /** And on a node of the browser's tree. */
  predicate GivesNode(events: seq<Event>, p: nat, m: nat, k: Field)
    requires p < |events| && m < |events|
  {
    && SameAgent(events[p], events[m]) && NodeField(k) && k in events[m].fields
    && events[m].fields[k] != Null && events[m].fields[k] != Str("")
  }

  lemma CardRule(k: Field)
    ensures k in MergeSet().fields <==> CardField(k)
    ensures MergeSet().skipsEmptyDict
    ensures k in TreeRule().fields <==> NodeField(k)
    ensures !TreeRule().skipsEmptyDict
  {
    ServerFields(k);
    BrowserFields(k);
    hide CardField, NodeField;
  }

  lemma ServerFields(k: Field)
    ensures k in MERGE_FIELDS <==> CardField(k)
  {
    if k in MERGE_FIELDS { OnlyServerFields(k); }
    hide CardField;
    if CardField(k) { IsServerField(k); }
  }

  lemma OnlyServerFields(k: Field)
    requires k in MERGE_FIELDS
    ensures CardField(k)
  {
  }

  lemma IsServerField(k: Field)
    requires CardField(k)
    ensures k in MERGE_FIELDS
  {
    var fs := MERGE_FIELDS;
    assert fs[0] == SubagentType && fs[1] == TaskType && fs[2] == ToolUseId && fs[3] == TaskId && fs[4] == Description;
    assert fs[5] == Prompt && fs[6] == LastToolName && fs[7] == Status && fs[8] == Summary && fs[9] == OutputFile;
    assert fs[10] == Usage && fs[11] == Phase && fs[12] == Raw;
  }

  lemma BrowserFields(k: Field)
    ensures k in TREE_MERGE_FIELDS <==> NodeField(k)
  {
    var fs := TREE_MERGE_FIELDS;
    assert fs[0] == SubagentType && fs[1] == TaskType && fs[2] == Description && fs[3] == Prompt && fs[4] == Status;
    assert fs[5] == Summary && fs[6] == Usage && fs[7] == Phase && fs[8] == LastToolName;
  }

  lemma GivesIsFills(events: seq<Event>, p: nat, m: nat, k: Field)
    requires p < m < |events| && events[p].kind.Subagent?
    ensures GivesCard(events, p, m, k) <==> Fills(events[m], Key(events[p]), MergeSet(), k)
    ensures GivesNode(events, p, m, k) <==> Fills(events[m], Key(events[p]), TreeRule(), k)
  {
    CardRule(k);
    SameAgentIsSameKey(events[p], events[m]);
    hide SameAgent, OfAgent, Key, CardField, NodeField, MergeSet, TreeRule;
  }

  /** A field's value on a card: what the last of the agent's events that gives it gave, else the first event's. */
  predicate ShowsLast(events: seq<Event>, p: nat, card: Event, k: Field, last: Option<nat>)
    requires p < |events| && (last.Some? ==> last.value < |events|)
  {
    match last
    case None => (k in card.fields <==> k in events[p].fields) && (k in card.fields ==> card.fields[k] == events[p].fields[k])
    case Some(j) => k in card.fields && k in events[j].fields && card.fields[k] == events[j].fields[k]
  }

  lemma CardAtShows(events: seq<Event>, p: nat, rule: Rule, k: Field) returns (last: Option<nat>)
    requires p < |events| && events[p].kind.Subagent?
    ensures match last
            case None => forall m | p < m < |events| :: !Fills(events[m], Key(events[p]), rule, k)
            case Some(j) => p < j < |events| && Fills(events[j], Key(events[p]), rule, k)
                            && forall m | j < m < |events| :: !Fills(events[m], Key(events[p]), rule, k)
    ensures ShowsLast(events, p, CardAt(events, p, |events|, rule), k, last)
  {
    var key, rest := Key(events[p]), events[p + 1..|events|];
    FoldedField(events[p], key, rest, rule, k);
    hide Fills, Folded, Key;
    assert forall m | p < m < |events| :: events[m] == rest[m - p - 1];
    match LastFill(key, rest, rule, k)
    case None => last := None;
    case Some(j) =>
      last := Some(p + 1 + j);
      assert rest[j] == events[p + 1 + j];
  }

  /** The card of the agent that event `p` is the first of, field by field. */
  lemma CardShows(events: seq<Event>, p: nat, k: Field) returns (last: Option<nat>)
    requires p < |events| && FirstOfAgent(events, p)
    ensures match last
            case None => forall m | p < m < |events| :: !GivesCard(events, p, m, k)
            case Some(j) => p < j < |events| && GivesCard(events, p, j, k)
                            && forall m | j < m < |events| :: !GivesCard(events, p, m, k)
    ensures exists q :: q in Pairs(events) && q.at == p && ShowsLast(events, p, q.event, k, last)
  {
    CardUnitExactly(events, p);
    last := CardAtShows(events, p, MergeSet(), k);
    hide GivesCard, GivesNode, Fills, Key, ShowsLast, CardAt, MergeSet, Pairs, FirstOfAgent;
    forall m | p < m < |events|
      ensures GivesCard(events, p, m, k) <==> Fills(events[m], Key(events[p]), MergeSet(), k)
    {
      GivesIsFills(events, p, m, k);
    }
    var q := Paired(p, CardAt(events, p, |events|, MergeSet()), None);
    assert q in Pairs(events) && q.at == p;
  }

  /** The same for its node in the browser's tree. */
  lemma NodeShows(events: seq<Event>, p: nat, k: Field) returns (last: Option<nat>)
    requires p < |events| && FirstOfAgent(events, p)
    ensures match last
            case None => forall m | p < m < |events| :: !GivesNode(events, p, m, k)
            case Some(j) => p < j < |events| && GivesNode(events, p, j, k)
                            && forall m | j < m < |events| :: !GivesNode(events, p, m, k)
    ensures exists i | 0 <= i < |TreeOf(events, |events|)| ::
              TreeOf(events, |events|)[i].unit.at == p && ShowsLast(events, p, TreeOf(events, |events|)[i].unit.event, k, last)
  {
    NodeExactly(events, p);
    last := CardAtShows(events, p, TreeRule(), k);
    NodeOf(events, p);
    hide GivesCard, GivesNode, Fills, Key, ShowsLast, CardAt, TreeRule, TreeOf, FirstOfAgent;
    forall m | p < m < |events|
      ensures GivesNode(events, p, m, k) <==> Fills(events[m], Key(events[p]), TreeRule(), k)
    {
      GivesIsFills(events, p, m, k);
    }
  }

  lemma NodeOf(events: seq<Event>, p: nat)
    requires p < |events| && events[p].kind.Subagent? && RoleOf(events, p) == Top
    ensures exists i | 0 <= i < |TreeOf(events, |events|)| ::
              TreeOf(events, |events|)[i].unit == Paired(p, CardAt(events, p, |events|, TreeRule()), None)
  {
    TreeTopsComplete(events, |events|, p);
    hide RoleOf, CardAt, TreeRule;
    var ts := TreeTops(events, |events|);
    var i :| 0 <= i < |ts| && ts[i] == p;
    assert TreeOf(events, |events|)[i] == NodeAt(events, p, |events|);
  }

  // ---- What a sidebar row shows ----

  /** Event `m` tells the agent of `p` something in field `k`. */
  predicate Tells(events: seq<Event>, p: nat, m: nat, k: Field)
    requires p < |events| && m < |events|
  {
    (m == p || SameAgent(events[p], events[m])) && Trim(Py, TextOf(events[m], k)) != ""
  }

  lemma TellsIs(events: seq<Event>, p: nat, m: nat, k: Field)
    requires p < |events| && m < |events| && events[p].kind.Subagent? && Key(events[p]) != ""
    ensures Tells(events, p, m, k) <==> OfAgent(events[m], Key(events[p])) && Stripped(events[m], k) != ""
  {
    SameAgentIsSameKey(events[p], events[m]);
    hide Trim, SameAgent, TextOf;
  }

  lemma {:induction false} FirstTold(events: seq<Event>, p: nat, n: nat, j: nat, k: Field)
    requires p < |events| && n <= |events| && events[p].kind.Subagent? && Key(events[p]) != ""
    requires j < n && Tells(events, p, j, k) && forall m | 0 <= m < j :: !Tells(events, p, m, k)
    ensures FirstText(events, n, Key(events[p]), k) == Some(Trim(Py, TextOf(events[j], k)))
  {
    hide Tells, Trim, TextOf, Key;
    TellsIs(events, p, n - 1, k);
    if j < n - 1 {
      FirstTold(events, p, n - 1, j, k);
    } else {
      NothingTold(events, p, j, k);
    }
  }

  lemma {:induction false} NothingTold(events: seq<Event>, p: nat, n: nat, k: Field)
    requires p < |events| && n <= |events| && events[p].kind.Subagent? && Key(events[p]) != ""
    requires forall m | 0 <= m < n :: !Tells(events, p, m, k)
    ensures FirstText(events, n, Key(events[p]), k) == None
  {
    hide Tells, Trim, TextOf, Key;
    if n > 0 {
      TellsIs(events, p, n - 1, k);
      NothingTold(events, p, n - 1, k);
    }
  }

  predicate TellsAtStart(events: seq<Event>, p: nat, m: nat)
    requires p < |events| && m < |events|
  {
    Tells(events, p, m, Description) && Phase in events[m].fields && events[m].fields[Phase] == Str("started")
  }

  lemma TellsAtStartIs(events: seq<Event>, p: nat, m: nat)
    requires p < |events| && m < |events| && events[p].kind.Subagent? && Key(events[p]) != ""
    ensures TellsAtStart(events, p, m) <==> Describes(events[m], Key(events[p])) && Started(events[m])
  {
    TellsIs(events, p, m, Description);
    hide Tells, Trim, TextOf, Key, OfAgent, Stripped;
  }

  lemma {:induction false} LastStart(events: seq<Event>, p: nat, n: nat, j: nat)
    requires p < |events| && n <= |events| && events[p].kind.Subagent? && Key(events[p]) != ""
    requires j < n && TellsAtStart(events, p, j) && forall m | j < m < n :: !TellsAtStart(events, p, m)
    ensures StartedDescription(events, n, Key(events[p])) == Some(Trim(Py, TextOf(events[j], Description)))
  {
    hide TellsAtStart, Trim, TextOf, Key, Describes, Started;
    TellsAtStartIs(events, p, n - 1);
    if j < n - 1 { LastStart(events, p, n - 1, j); }
  }

  lemma {:induction false} NoStart(events: seq<Event>, p: nat, n: nat)
    requires p < |events| && n <= |events| && events[p].kind.Subagent? && Key(events[p]) != ""
    requires forall m | 0 <= m < n :: !TellsAtStart(events, p, m)
    ensures StartedDescription(events, n, Key(events[p])) == None
  {
    hide TellsAtStart, Trim, TextOf, Key, Describes, Started;
    if n > 0 {
      TellsAtStartIs(events, p, n - 1);
      NoStart(events, p, n - 1);
    }
  }

  lemma RowHasKey(events: seq<Event>, p: nat)
    requires p in Openers(events, |events|)
    ensures p < |events| && events[p].kind.Subagent? && Key(events[p]) != ""
  {
    hide Key, AgentBefore;
  }

  /** A row's description is that of the agent's last event in phase "started" that has one, */
  lemma DescriptionFromStart(events: seq<Event>, p: nat, j: nat)
    requires p < |events| && p in Openers(events, |events|)
    requires j < |events| && TellsAtStart(events, p, j) && forall m | j < m < |events| :: !TellsAtStart(events, p, m)
    ensures RowAt(events, p).description == Trim(Py, TextOf(events[j], Description))
  {
    RowHasKey(events, p);
    LastStart(events, p, |events|, j);
    hide Openers, TellsAtStart, Trim, TextOf, Key, CardAt, StartedDescription, FirstText;
  }

  /** and without such an event that of the agent's first event that has one. */
  lemma DescriptionWithoutStart(events: seq<Event>, p: nat, j: nat)
    requires p < |events| && p in Openers(events, |events|)
    requires forall m | 0 <= m < |events| :: !TellsAtStart(events, p, m)
    requires j < |events| && Tells(events, p, j, Description) && forall m | 0 <= m < j :: !Tells(events, p, m, Description)
    ensures RowAt(events, p).description == Trim(Py, TextOf(events[j], Description))
  {
    RowHasKey(events, p);
    NoStart(events, p, |events|);
    FirstTold(events, p, |events|, j, Description);
    hide Openers, TellsAtStart, Tells, Trim, TextOf, Key, CardAt, StartedDescription, FirstText;
  }

  /** Its prompt is the agent's first. */
  lemma PromptIsFirst(events: seq<Event>, p: nat, j: nat)
    requires p < |events| && p in Openers(events, |events|)
    requires j < |events| && Tells(events, p, j, Prompt) && forall m | 0 <= m < j :: !Tells(events, p, m, Prompt)
    ensures RowAt(events, p).prompt == Trim(Py, TextOf(events[j], Prompt))
  {
    RowHasKey(events, p);
    FirstTold(events, p, |events|, j, Prompt);
    hide Openers, Tells, Trim, TextOf, Key, CardAt, TaskDescription, FirstText;
  }
}
