/** Pairing of tool calls with their results, and sub-agent cards that keep changing after they are emitted. */
module Pairing {
  import opened Options
  import opened Text
  import opened Transcript

  const MERGE_FIELDS: seq<Field> := [
    SubagentType, TaskType, ToolUseId, TaskId, Description,
    Prompt, LastToolName, Status, Summary, OutputFile, Usage,
    Phase, Raw]

  function MergeSet(): Rule {
    RuleOf(MERGE_FIELDS, true)
  }

  lemma MergesIdsTogether()
    ensures IdsTogether(MergeSet())
  {
    assert MERGE_FIELDS[2] == ToolUseId && MERGE_FIELDS[3] == TaskId;
  }

  // ---- The echo rule ----

  predicate Blank(s: string) {
    Trim(Py, s) == ""
  }

  /** The last of the first `n` events that carries assistant prose. */
  function LastProse(events: seq<Event>, n: nat): (r: Option<nat>)
    requires n <= |events|
    ensures r.Some? ==> r.value < n
  {
    if n == 0 then None else if HasProse(events[n - 1]) then Some(n - 1) else LastProse(events, n - 1)
  }

  lemma {:induction false} LastProseIs(events: seq<Event>, n: nat)
    requires n <= |events|
    ensures match LastProse(events, n)
            case None => forall j | 0 <= j < n :: !HasProse(events[j])
            case Some(i) => HasProse(events[i]) && forall j | i < j < n :: !HasProse(events[j])
  {
    hide HasProse;
    if n > 0 { LastProseIs(events, n - 1); }
  }

  predicate HasProse(e: Event) {
    e.kind.AssistantText? && !Blank(TextOf(e, TextField))
  }

  function LastSummary(events: seq<Event>, n: nat): (r: Option<nat>)
    requires n <= |events|
    ensures match r
            case None => forall j | 0 <= j < n :: !events[j].kind.Result?
            case Some(i) => i < n && events[i].kind.Result? && forall j | i < j < n :: !events[j].kind.Result?
  {
    if n == 0 then None else if events[n - 1].kind.Result? then Some(n - 1) else LastSummary(events, n - 1)
  }

  /** The final result repeats the last prose of the stream, up to surrounding white space. */
  predicate Echo(events: seq<Event>) {
    var prose, summary := LastProse(events, |events|), LastSummary(events, |events|);
    prose.Some? && summary.Some? &&
    Trim(Py, TextOf(events[summary.value], Summary)) == Trim(Py, TextOf(events[prose.value], TextField))
  }

  method ResultDuplicatesLastAssistant(events: seq<Event>) returns (echo: bool)
    ensures echo == Echo(events)
  {
    hide Trim;
    var lastAssistant: Option<string> := None;
    var lastResult: Option<Event> := None;
    var i := 0;
    while i < |events|
      invariant 0 <= i <= |events|
      invariant lastAssistant == match LastProse(events, i) case None => None case Some(j) => Some(TextOf(events[j], TextField))
      invariant lastResult == match LastSummary(events, i) case None => None case Some(j) => Some(events[j])
    {
      var e := events[i];
      if e.kind.AssistantText? {
        var text := TextOf(e, TextField);
        if Trim(Py, text) != "" {
          lastAssistant := Some(text);
        }
      } else if e.kind.Result? {
        lastResult := Some(e);
      }
      i := i + 1;
    }
    if lastResult.None? || lastAssistant.None? {
      return false;
    }
    LastProseIs(events, |events|);
    var summary := TextOf(lastResult.value, Summary);
    echo := Trim(Py, summary) == Trim(Py, lastAssistant.value) && Trim(Py, summary) != "";
  }

  // ---- What pairing yields ----

  /** One render unit: where its event stands in the stream, the event or merged card, its result. */
  datatype Paired = Paired(at: nat, event: Event, resultAt: Option<nat>)

  predicate UseBefore(events: seq<Event>, n: nat, id: string)
    requires n <= |events|
  {
    exists j | 0 <= j < n :: IsUse(events[j], id)
  }

  /** What event `i` contributes, with its card as the events before `h` have left it. */
  function Emit(events: seq<Event>, i: nat, h: nat): Option<Paired>
    requires i < h <= |events|
  {
    var e := events[i];
    match e.kind
    case Result => if Echo(events) then None else Some(Paired(i, e, None))
    case Subagent => if OpensCard(events, i) then Some(Paired(i, CardAt(events, i, h, MergeSet()), None)) else None
    case ToolUse => Some(Paired(i, e, LastResult(events, |events|, TextOf(e, Id))))
    case ToolResult => if UseBefore(events, i, TextOf(e, ToolUseId)) then None else Some(Paired(i, e, None))
    case _ => Some(Paired(i, e, None))
  }

  function PairsUpTo(events: seq<Event>, n: nat, h: nat): seq<Paired>
    requires n <= h <= |events|
  {
    if n == 0 then []
    else match Emit(events, n - 1, h)
      case None => PairsUpTo(events, n - 1, h)
      case Some(p) => PairsUpTo(events, n - 1, h) + [p]
  }

  function Pairs(events: seq<Event>): seq<Paired> {
    PairsUpTo(events, |events|, |events|)
  }

  lemma EmitAt(events: seq<Event>, i: nat, h: nat)
    requires i < h <= |events|
    ensures Emit(events, i, h).Some? ==> Emit(events, i, h).value.at == i
  {
    hide Echo, OpensCard, CardAt, LastResult, UseBefore;
  }

  predicate Increasing(ps: seq<Paired>) {
    forall k, l | 0 <= k < l < |ps| :: ps[k].at < ps[l].at
  }

  /** Every unit stands where an event of the stream stands, in stream order. */
  lemma {:induction false} PairsInOrder(events: seq<Event>, n: nat, h: nat)
    requires n <= h <= |events|
    ensures forall p | p in PairsUpTo(events, n, h) :: p.at < n && Emit(events, p.at, h) == Some(p)
    ensures Increasing(PairsUpTo(events, n, h))
  {
    hide Emit;
    if n > 0 {
      PairsInOrder(events, n - 1, h);
      EmitAt(events, n - 1, h);
    }
  }

  /** What happens to a unit when its card is shown one more event. */
  function SeeOneMore(events: seq<Event>, p: Paired, h: nat): Paired
    requires p.at < |events| && h < |events|
  {
    if events[p.at].kind.Subagent? && OfAgent(events[h], Key(events[p.at]))
    then p.(event := Merged(p.event, events[h], MergeSet())) else p
  }

  lemma EmitStep(events: seq<Event>, i: nat, h: nat)
    requires i < h < |events|
    ensures match Emit(events, i, h)
            case None => Emit(events, i, h + 1) == None
            case Some(p) => Emit(events, i, h + 1) == Some(SeeOneMore(events, p, h))
  {
    hide Echo, OpensCard, CardAt, LastResult, UseBefore, Merged, MergeSet, Key, OfAgent, TextOf;
    if events[i].kind.Subagent? { CardStep(events, i, h, MergeSet()); }
  }

  /** Looking one event further changes only the card that event belongs to. */
  lemma {:induction false} PairsStep(events: seq<Event>, n: nat, h: nat)
    requires n <= h < |events|
    ensures |PairsUpTo(events, n, h + 1)| == |PairsUpTo(events, n, h)|
    ensures forall k | 0 <= k < |PairsUpTo(events, n, h)| ::
              && PairsUpTo(events, n, h)[k].at < n
              && PairsUpTo(events, n, h + 1)[k] == SeeOneMore(events, PairsUpTo(events, n, h)[k], h)
  {
    hide Emit, SeeOneMore;
    if n > 0 {
      PairsStep(events, n - 1, h);
      EmitAt(events, n - 1, h);
      EmitStep(events, n - 1, h);
    }
  }

  // ---- The loop, with its shared cards ----

  class Card {
    var event: Event

    constructor (e: Event)
      ensures event == e
    {
      event := e;
    }
  }

  /** An emitted unit; a card is emitted by reference and changes later. */
  datatype Entry = Plain(at: nat, event: Event, resultAt: Option<nat>) | Shared(at: nat, card: Card)

  ghost function Deref(e: Entry): Paired
    reads if e.Shared? then {e.card} else {}
  {
    if e.Shared? then Paired(e.at, e.card.event, None) else Paired(e.at, e.event, e.resultAt)
  }

  /** Merging one field after another. */
  lemma MergedStep(card: Event, e: Event, rule: Rule, k: Field)
    ensures Merged(card, e, rule.(fields := rule.fields + {k})) ==
            var m := Merged(card, e, rule);
            if k in e.fields && !Empty(e.fields[k], rule) then m.(fields := m.fields[k := e.fields[k]]) else m
  {
    TakenStep(e, rule, k);
    hide Taken, Empty;
  }

  lemma TakenStep(e: Event, rule: Rule, k: Field)
    ensures Taken(e, rule.(fields := rule.fields + {k})) ==
            if k in e.fields && !Empty(e.fields[k], rule) then Taken(e, rule)[k := e.fields[k]] else Taken(e, rule)
  {
    var more := rule.(fields := rule.fields + {k});
    assert forall f | f in e.fields :: Empty(e.fields[f], more) == Empty(e.fields[f], rule);
    hide Empty;
  }

  method MergeFields(base: Event, evt: Event, keys: seq<Field>, skipsEmptyDict: bool) returns (card: Event)
    ensures card == Merged(base, evt, RuleOf(keys, skipsEmptyDict))
  {
    card := base;
    var i := 0;
    ghost var rule := RuleOf([], skipsEmptyDict);
    while i < |keys|
      invariant 0 <= i <= |keys|
      invariant rule == RuleOf(keys[..i], skipsEmptyDict)
      invariant card == Merged(base, evt, rule)
    {
      var k := keys[i];
      MergedStep(base, evt, rule, k);
      if k in evt.fields {
        var v := evt.fields[k];
        if v != Null && v != Str("") && !(skipsEmptyDict && v == Dict(map[])) {
          card := card.(fields := card.fields[k := v]);
        }
      }
      rule := rule.(fields := rule.fields + {k});
      assert keys[..i + 1] == keys[..i] + [k];
      i := i + 1;
    }
    assert keys[..i] == keys;
  }

  /** `_merge_subagent`: the latest non-empty value of each merge field wins. */
  method MergeSubagent(base: Event, evt: Event) returns (card: Event)
    ensures card == Merged(base, evt, MergeSet())
  {
    card := MergeFields(base, evt, MERGE_FIELDS, true);
  }

  method ResultsById(events: seq<Event>) returns (results: map<string, nat>)
    ensures forall id :: id != "" ==>
              LastResult(events, |events|, id) == if id in results then Some(results[id]) else None
  {
    results := map[];
    var i := 0;
    while i < |events|
      invariant 0 <= i <= |events|
      invariant forall id :: id != "" ==> LastResult(events, i, id) == if id in results then Some(results[id]) else None
    {
      if events[i].kind.ToolResult? {
        var tid := TextOf(events[i], ToolUseId);
        if tid != "" {
          results := results[tid := i];
        }
      }
      i := i + 1;
    }
  }

  /** Every agent seen so far has its own card object, and the entry that emitted it. */
  ghost predicate CardsMatch(events: seq<Event>, n: nat, out: seq<Entry>, cards: map<string, Card>)
    requires n <= |events|
  {
    && Entries(events, n, out, cards)
    && Unshared(out)
    && AllEmitted(events, out, cards)
    && Seen(events, n, cards)
  }

  ghost predicate Entries(events: seq<Event>, n: nat, out: seq<Entry>, cards: map<string, Card>)
    requires n <= |events|
  {
    forall e | e in out :: e.at < n && EntryMatches(events[e.at], e, cards)
  }

  ghost predicate EntryMatches(e: Event, entry: Entry, cards: map<string, Card>) {
    && (entry.Shared? <==> e.kind.Subagent?)
    && (entry.Shared? && Key(e) != "" ==> Key(e) in cards && cards[Key(e)] == entry.card)
  }

  ghost predicate Unshared(out: seq<Entry>) {
    forall k, l | 0 <= k < l < |out| && out[k].Shared? && out[l].Shared? :: out[k].card != out[l].card
  }

  ghost predicate AllEmitted(events: seq<Event>, out: seq<Entry>, cards: map<string, Card>) {
    forall key | key in cards :: exists e | e in out :: Opened(events, e, key) && e.card == cards[key]
  }

  ghost predicate Seen(events: seq<Event>, n: nat, cards: map<string, Card>)
    requires n <= |events|
  {
    forall key :: key in cards <==> AgentBefore(events, n, key)
  }

  ghost predicate Opened(events: seq<Event>, entry: Entry, key: string) {
    entry.Shared? && entry.at < |events| && Key(events[entry.at]) == key
  }

  ghost predicate Shows(out: seq<Entry>, ps: seq<Paired>)
    reads set e | e in out && e.Shared? :: e.card
  {
    |out| == |ps| && forall k | 0 <= k < |out| :: Deref(out[k]) == ps[k]
  }

  lemma AgentBeforeStep(events: seq<Event>, i: nat)
    requires i < |events|
    ensures forall key :: AgentBefore(events, i + 1, key) <==> AgentBefore(events, i, key) || OfAgent(events[i], key)
  {
  }

  /** When event `i` touches none of the units so far, they stay as they are. */
  lemma PairsStay(events: seq<Event>, i: nat)
    requires i < |events|
    requires forall p | p in PairsUpTo(events, i, i) && p.at < i :: SeeOneMore(events, p, i) == p
    ensures PairsUpTo(events, i, i + 1) == PairsUpTo(events, i, i)
  {
    hide SeeOneMore;
    PairsStep(events, i, i);
  }

  lemma StillMatch(events: seq<Event>, i: nat, out: seq<Entry>, cards: map<string, Card>)
    requires i < |events| && CardsMatch(events, i, out, cards) && Key(events[i]) in cards
    ensures CardsMatch(events, i + 1, out, cards)
  {
    AgentBeforeStep(events, i);
    hide Unshared, AllEmitted, EntryMatches, AgentBefore, TextOf;
  }

  /** An event of an agent already seen folds into the card it shares with the emitted entry. */
  method FoldIntoCard(events: seq<Event>, i: nat, ghost out: seq<Entry>, cards: map<string, Card>)
    requires i < |events| && events[i].kind.Subagent? && Key(events[i]) in cards
    requires Shows(out, PairsUpTo(events, i, i)) && CardsMatch(events, i, out, cards)
    modifies cards[Key(events[i])]
    ensures Shows(out, PairsUpTo(events, i + 1, i + 1)) && CardsMatch(events, i + 1, out, cards)
  {
    var key := Key(events[i]);
    PairsStep(events, i, i);
    StillMatch(events, i, out, cards);
    assert Emit(events, i, i + 1) == None by { hide CardAt, LastResult, UseBefore, Echo; }
    hide Emit, Merged, MergeSet, AgentBefore, Entries, Seen;
    ghost var before := PairsUpTo(events, i, i);
    var merged := MergeSubagent(cards[key].event, events[i]);
    cards[key].event := merged;
    hide PairsUpTo;
    forall k | 0 <= k < |out| ensures Deref(out[k]) == SeeOneMore(events, before[k], i) {
      assert before[k] == old(Deref(out[k])) && out[k] in out;
      if out[k].Shared? && out[k].card == cards[key] {
        var e :| e in out && Opened(events, e, key) && e.card == cards[key];
        assert e == out[k];
      }
    }
  }

  lemma EmittedAppends(events: seq<Event>, out: seq<Entry>, e: Entry, cards: map<string, Card>)
    requires AllEmitted(events, out, cards)
    ensures AllEmitted(events, out + [e], cards)
  {
    forall key | key in cards ensures exists d | d in out + [e] :: Opened(events, d, key) && d.card == cards[key] {
      var d :| d in out && Opened(events, d, key) && d.card == cards[key];
      assert d in out + [e];
    }
  }

  lemma EmittedOpens(events: seq<Event>, out: seq<Entry>, e: Entry, cards: map<string, Card>, card: Card, key: string,
                     cards': map<string, Card>)
    requires AllEmitted(events, out, cards)
    requires Opened(events, e, key) && e.card == card
    requires cards' == if key == "" then cards else cards[key := card]
    ensures AllEmitted(events, out + [e], cards')
  {
    EmittedAppends(events, out, e, cards);
    assert e in out + [e];
  }

  lemma EntriesAppend(events: seq<Event>, n: nat, out: seq<Entry>, cards: map<string, Card>, e: Entry, cards': map<string, Card>)
    requires n < |events| && Entries(events, n, out, cards)
    requires e.at == n && EntryMatches(events[n], e, cards')
    requires forall key | key in cards :: key in cards' && cards'[key] == cards[key]
    ensures Entries(events, n + 1, out + [e], cards')
  {
    hide Key;
  }

  lemma UnsharedAppend(out: seq<Entry>, e: Entry)
    requires Unshared(out) && (e.Shared? ==> forall d | d in out && d.Shared? :: d.card != e.card)
    ensures Unshared(out + [e])
  {
  }

  /** The first event of an agent, or one of no agent, opens a card of its own. */
  lemma OpensOneMatches(events: seq<Event>, i: nat, out: seq<Entry>, cards: map<string, Card>, card: Card, cards': map<string, Card>)
    requires i < |events| && events[i].kind.Subagent? && Key(events[i]) !in cards
    requires CardsMatch(events, i, out, cards)
    requires forall e | e in out && e.Shared? :: e.card != card
    requires cards' == if Key(events[i]) == "" then cards else cards[Key(events[i]) := card]
    ensures CardsMatch(events, i + 1, out + [Shared(i, card)], cards')
  {
    var key, e := Key(events[i]), Shared(i, card);
    var out' := out + [e];
    AgentBeforeStep(events, i);
    hide AgentBefore;
    assert Seen(events, i + 1, cards');
    hide Seen;
    EntriesAppend(events, i, out, cards, e, cards');
    hide Entries;
    UnsharedAppend(out, e);
    hide Unshared;
    EmittedOpens(events, out, e, cards, card, key, cards');
  }

  /** A unit shown so far belongs to an agent whose card is known: a new agent touches none. */
  lemma NewAgentTouchesNone(events: seq<Event>, i: nat, out: seq<Entry>, cards: map<string, Card>, k: nat)
    requires i < |events| && Key(events[i]) !in cards
    requires Entries(events, i, out, cards) && k < |out|
    ensures Deref(out[k]).at < i && SeeOneMore(events, Deref(out[k]), i) == Deref(out[k])
  {
    assert out[k] in out;
    hide Key, Merged, MergeSet;
  }

  lemma OpensOneShows(events: seq<Event>, i: nat, out: seq<Entry>, cards: map<string, Card>, card: Card)
    requires i < |events| && events[i].kind.Subagent? && Key(events[i]) !in cards
    requires Shows(out, PairsUpTo(events, i, i)) && CardsMatch(events, i, out, cards)
    requires card.event == events[i]
    ensures Shows(out + [Shared(i, card)], PairsUpTo(events, i + 1, i + 1))
  {
    var before := PairsUpTo(events, i, i);
    assert Emit(events, i, i + 1) == Some(Paired(i, events[i], None)) by {
      hide PairsUpTo, Shows;
    }
    hide Emit, SeeOneMore, AllEmitted, Unshared, Seen, Entries, Key;
    forall p | p in before && p.at < i ensures SeeOneMore(events, p, i) == p {
      var k :| 0 <= k < |before| && before[k] == p;
      NewAgentTouchesNone(events, i, out, cards, k);
    }
    PairsStay(events, i);
    hide CardsMatch;
  }

  /** Every other event leaves what has been emitted alone. */
  lemma OthersShow(events: seq<Event>, i: nat, out: seq<Entry>, out': seq<Entry>)
    requires i < |events| && !events[i].kind.Subagent?
    requires Shows(out, PairsUpTo(events, i, i))
    requires match Emit(events, i, i + 1)
             case None => out' == out
             case Some(p) => out' == out + [Plain(p.at, p.event, p.resultAt)]
    ensures Shows(out', PairsUpTo(events, i + 1, i + 1))
  {
    hide Emit;
    PairsStay(events, i);
  }

  lemma OthersMatch(events: seq<Event>, i: nat, out: seq<Entry>, cards: map<string, Card>, out': seq<Entry>)
    requires i < |events| && !events[i].kind.Subagent?
    requires CardsMatch(events, i, out, cards)
    requires out' == out || exists e, r :: out' == out + [Plain(i, e, r)]
    ensures CardsMatch(events, i + 1, out', cards)
  {
    AgentBeforeStep(events, i);
    hide AgentBefore;
    assert Seen(events, i + 1, cards);
    hide Seen;
    if out' != out {
      var e, r :| out' == out + [Plain(i, e, r)];
      EntriesAppend(events, i, out, cards, Plain(i, e, r), cards);
      hide Entries;
      UnsharedAppend(out, Plain(i, e, r));
      hide Unshared;
      EmittedAppends(events, out, Plain(i, e, r), cards);
      hide AllEmitted;
    } else {
      hide Unshared, AllEmitted;
    }
  }

  lemma NothingYet(events: seq<Event>)
    ensures CardsMatch(events, 0, [], map[]) && PairsUpTo(events, 0, 0) == []
  {
  }

  lemma NoKeyNoCard(events: seq<Event>, i: nat, out: seq<Entry>, cards: map<string, Card>)
    requires i <= |events| && CardsMatch(events, i, out, cards)
    ensures "" !in cards
  {
  }

  lemma UseBeforeStep(events: seq<Event>, i: nat)
    requires i < |events|
    ensures forall id :: UseBefore(events, i + 1, id) <==> UseBefore(events, i, id) || IsUse(events[i], id)
  {
  }

  method PairToolEvents(events: seq<Event>) returns (out: seq<Entry>)
    ensures Shows(out, Pairs(events))
    ensures forall e | e in out && e.Shared? :: fresh(e.card)
  {
    hide Echo, Trim, LastResult, CardAt, CardsMatch, PairsUpTo;
    var dropResult := ResultDuplicatesLastAssistant(events);
    var resultsById := ResultsById(events);
    var pairedIds: set<string> := {};
    var subagentCards: map<string, Card> := map[];
    out := [];
    NothingYet(events);
    var i := 0;
    while i < |events|
      invariant 0 <= i <= |events|
      invariant forall e | e in out && e.Shared? :: fresh(e.card)
      invariant forall key | key in subagentCards :: fresh(subagentCards[key])
      invariant Shows(out, PairsUpTo(events, i, i))
      invariant CardsMatch(events, i, out, subagentCards)
      invariant forall id :: id in pairedIds <==> UseBefore(events, i, id) && id in resultsById
    {
      var e := events[i];
      UseBeforeStep(events, i);
      if e.kind.Subagent? {
        var tid := Key(e);
        if tid != "" && tid in subagentCards {
          FoldIntoCard(events, i, out, subagentCards);
        } else {
          var card := new Card(e);
          NoKeyNoCard(events, i, out, subagentCards);
          OpensOneShows(events, i, out, subagentCards, card);
          OpensOneMatches(events, i, out, subagentCards, card,
                          if tid != "" then subagentCards[tid := card] else subagentCards);
          if tid != "" {
            subagentCards := subagentCards[tid := card];
          }
          out := out + [Shared(i, card)];
        }
      } else {
        ghost var before := out;
        if e.kind.Result? && dropResult {
        } else if e.kind.ToolUse? {
          var tid := TextOf(e, Id);
          var result := None;
          if tid != "" && tid in resultsById {
            result := Some(resultsById[tid]);
            pairedIds := pairedIds + {tid};
          }
          out := out + [Plain(i, e, result)];
        } else if e.kind.ToolResult? {
          var tid := TextOf(e, ToolUseId);
          if tid != "" && tid in pairedIds {
          } else {
            out := out + [Plain(i, e, None)];
          }
        } else {
          out := out + [Plain(i, e, None)];
        }
        hide UseBefore;
        OthersShow(events, i, before, out);
        OthersMatch(events, i, before, subagentCards, out);
      }
      i := i + 1;
    }
  }
}
