/** The sidebar's rows, one per sub-agent, and their agreement with the cards. */
module SubagentIndex {
  import opened Options
  import opened Text
  import opened Transcript
  import opened Pairing

  /** What a row is made from: the merged card, and the task's own description and prompt. */
  datatype Row = Row(card: Event, description: string, prompt: string)

  /** The positions among the first `n` that open a card with a key. */
  function Openers(events: seq<Event>, n: nat): (os: seq<nat>)
    requires n <= |events|
    ensures forall k | 0 <= k < |os| :: os[k] < n && OpensCard(events, os[k]) && Key(events[os[k]]) != ""
  {
    if n == 0 then []
    else if OpensCard(events, n - 1) && Key(events[n - 1]) != "" then Openers(events, n - 1) + [n - 1]
    else Openers(events, n - 1)
  }

  function Stripped(e: Event, k: Field): string {
    Trim(Py, TextOf(e, k))
  }

  predicate Describes(e: Event, key: string) {
    OfAgent(e, key) && Stripped(e, Description) != ""
  }

  predicate Started(e: Event) {
    StrOf(e, Phase) == Some("started")
  }

  /** The last description given when the agent was started. */
  function StartedDescription(events: seq<Event>, n: nat, key: string): Option<string>
    requires n <= |events|
  {
    if n == 0 then None
    else if Describes(events[n - 1], key) && Started(events[n - 1]) then Some(Stripped(events[n - 1], Description))
    else StartedDescription(events, n - 1, key)
  }

  /** The first non-blank text of field `k` among the agent's events. */
  function FirstText(events: seq<Event>, n: nat, key: string, k: Field): Option<string>
    requires n <= |events|
  {
    if n == 0 then None
    else
      var before := FirstText(events, n - 1, key, k);
      if before.None? && OfAgent(events[n - 1], key) && Stripped(events[n - 1], k) != ""
      then Some(Stripped(events[n - 1], k)) else before
  }

  /** Stable against progress events: what the agent was started with, else what came first. */
  function TaskDescription(events: seq<Event>, n: nat, key: string): Option<string>
    requires n <= |events|
  {
    var started := StartedDescription(events, n, key);
    if started.Some? then started else FirstText(events, n, key, Description)
  }

  /** Progress events come with a transient description: once there is one, only a start replaces it. */
  lemma ProgressKeepsDescription(events: seq<Event>, n: nat, key: string)
    requires n < |events| && TaskDescription(events, n, key).Some?
    requires !(Describes(events[n], key) && Started(events[n]))
    ensures TaskDescription(events, n + 1, key) == TaskDescription(events, n, key)
  {
    hide Stripped;
    if StartedDescription(events, n, key).None? {
      assert FirstText(events, n, key, Description).Some?;
    }
  }

  function RowAt(events: seq<Event>, i: nat): Row
    requires i < |events|
  {
    var n, key := |events|, Key(events[i]);
    Row(CardAt(events, i, n, MergeSet()),
        TaskDescription(events, n, key).GetOr(""), FirstText(events, n, key, Prompt).GetOr(""))
  }

  // ---- The loop ----

  /** After `n` events: the keys in first-seen order, and each key's card merged so far. */
  ghost predicate CardsSeen(events: seq<Event>, n: nat, cards: map<string, Event>, order: seq<string>)
    requires n <= |events|
  {
    && |order| == |Openers(events, n)|
    && (forall k | 0 <= k < |order| :: CardSeen(events, n, cards, Openers(events, n)[k], order[k]))
    && (forall key :: key in cards <==> AgentBefore(events, n, key))
  }

  ghost predicate CardSeen(events: seq<Event>, n: nat, cards: map<string, Event>, opener: nat, key: string)
    requires n <= |events|
  {
    opener < n && OfAgent(events[opener], key) && key in cards && cards[key] == CardAt(events, opener, n, MergeSet())
  }

  /** A card already seen, after one more event. */
  lemma CardSeenNext(events: seq<Event>, i: nat, cards: map<string, Event>, opener: nat, key: string)
    requires i < |events| && CardSeen(events, i, cards, opener, key)
    ensures CardAt(events, opener, i + 1, MergeSet()) ==
            if OfAgent(events[i], key) then Merged(cards[key], events[i], MergeSet()) else cards[key]
  {
    CardStep(events, opener, i, MergeSet());
  }

  lemma FirstCard(events: seq<Event>, i: nat)
    requires i < |events|
    ensures CardAt(events, i, i + 1, MergeSet()) == events[i]
  {
  }

  /** The three ways an event changes the dictionary and the order. */
  lemma SkipSeen(events: seq<Event>, i: nat, cards: map<string, Event>, order: seq<string>)
    requires i < |events| && CardsSeen(events, i, cards, order)
    requires forall key :: !OfAgent(events[i], key)
    ensures CardsSeen(events, i + 1, cards, order)
  {
    AgentBeforeStep(events, i);
    assert !(OpensCard(events, i) && Key(events[i]) != "") by {
      if events[i].kind.Subagent? { assert !OfAgent(events[i], Key(events[i])); }
    }
    hide AgentBefore, OpensCard, CardAt, Merged, MergeSet, Key, OfAgent;
    forall k | 0 <= k < |order| ensures CardSeen(events, i + 1, cards, Openers(events, i + 1)[k], order[k]) {
      CardSeenNext(events, i, cards, Openers(events, i)[k], order[k]);
    }
  }

  lemma MergeSeen(events: seq<Event>, i: nat, cards: map<string, Event>, order: seq<string>, key: string)
    requires i < |events| && CardsSeen(events, i, cards, order)
    requires OfAgent(events[i], key) && key in cards
    ensures CardsSeen(events, i + 1, cards[key := Merged(cards[key], events[i], MergeSet())], order)
  {
    AgentBeforeStep(events, i);
    AgentKeyIs(events[i], key);
    assert !OpensCard(events, i);
    hide AgentBefore, OpensCard, CardAt, Merged, MergeSet, Key, OfAgent;
    var cards' := cards[key := Merged(cards[key], events[i], MergeSet())];
    forall k | 0 <= k < |order| ensures CardSeen(events, i + 1, cards', Openers(events, i + 1)[k], order[k]) {
      CardSeenNext(events, i, cards, Openers(events, i)[k], order[k]);
    }
  }

  lemma OpenSeen(events: seq<Event>, i: nat, cards: map<string, Event>, order: seq<string>, key: string)
    requires i < |events| && CardsSeen(events, i, cards, order)
    requires OfAgent(events[i], key) && key !in cards
    ensures CardsSeen(events, i + 1, cards[key := events[i]], order + [key])
  {
    AgentBeforeStep(events, i);
    AgentKeyIs(events[i], key);
    FirstCard(events, i);
    assert OpensCard(events, i) && Key(events[i]) != "";
    hide AgentBefore, OpensCard, CardAt, Merged, MergeSet, Key, OfAgent;
    var cards', order' := cards[key := events[i]], order + [key];
    forall k | 0 <= k < |order'| ensures CardSeen(events, i + 1, cards', Openers(events, i + 1)[k], order'[k]) {
      if k < |order| {
        CardSeenNext(events, i, cards, Openers(events, i)[k], order[k]);
      }
    }
  }

  /** An event has at most one key. */
  lemma AgentKeyIs(e: Event, key: string)
    requires OfAgent(e, key)
    ensures Key(e) == key && forall k :: OfAgent(e, k) <==> k == key
  {
  }

  /** The dictionary and order after event `i`. */
  lemma SeenNext(events: seq<Event>, i: nat, cards: map<string, Event>, order: seq<string>,
                 cards': map<string, Event>, order': seq<string>)
    requires i < |events| && CardsSeen(events, i, cards, order)
    requires var e, key := events[i], Key(events[i]);
             if !e.kind.Subagent? || key == "" then cards' == cards && order' == order
             else if key in cards then cards' == cards[key := Merged(cards[key], e, MergeSet())] && order' == order
             else cards' == cards[key := e] && order' == order + [key]
    ensures CardsSeen(events, i + 1, cards', order')
  {
    var key := Key(events[i]);
    hide CardsSeen, Merged, MergeSet;
    if !events[i].kind.Subagent? || key == "" {
      SkipSeen(events, i, cards, order);
    } else if key in cards {
      MergeSeen(events, i, cards, order, key);
    } else {
      OpenSeen(events, i, cards, order, key);
    }
  }

  ghost predicate DescsSeen(events: seq<Event>, n: nat, descs: map<string, string>)
    requires n <= |events|
  {
    forall key ::
      && TaskDescription(events, n, key) == (if key in descs then Some(descs[key]) else None)
      && (key in descs <==> FirstText(events, n, key, Description).Some?)
  }

  ghost predicate PromptsSeen(events: seq<Event>, n: nat, prompts: map<string, string>)
    requires n <= |events|
  {
    forall key :: FirstText(events, n, key, Prompt) == if key in prompts then Some(prompts[key]) else None
  }

  lemma DescsNext(events: seq<Event>, i: nat, descs: map<string, string>, descs': map<string, string>)
    requires i < |events| && DescsSeen(events, i, descs)
    requires var e, key, d := events[i], Key(events[i]), Stripped(events[i], Description);
             if e.kind.Subagent? && key != "" && d != "" && (Started(e) || key !in descs)
             then descs' == descs[key := d] else descs' == descs
    ensures DescsSeen(events, i + 1, descs')
  {
    hide Stripped, Key, Started;
  }

  lemma PromptsNext(events: seq<Event>, i: nat, prompts: map<string, string>, prompts': map<string, string>)
    requires i < |events| && PromptsSeen(events, i, prompts)
    requires var e, key, p := events[i], Key(events[i]), Stripped(events[i], Prompt);
             if e.kind.Subagent? && key != "" && p != "" && key !in prompts
             then prompts' == prompts[key := p] else prompts' == prompts
    ensures PromptsSeen(events, i + 1, prompts')
  {
    hide Stripped, Key;
  }

  lemma NothingSeen(events: seq<Event>)
    ensures CardsSeen(events, 0, map[], []) && DescsSeen(events, 0, map[]) && PromptsSeen(events, 0, map[])
  {
  }

  method IndexSubagents(events: seq<Event>) returns (rows: seq<Row>)
    ensures |rows| == |Openers(events, |events|)|
    ensures forall k | 0 <= k < |rows| :: rows[k] == RowAt(events, Openers(events, |events|)[k])
  {
    var cards: map<string, Event>, order: seq<string> := map[], [];
    var taskDesc: map<string, string>, taskPrompt: map<string, string> := map[], map[];
    NothingSeen(events);
    hide CardsSeen, DescsSeen, PromptsSeen, Trim, Key, Merged, MergeSet, RowAt, Openers;
    var i := 0;
    while i < |events|
      invariant 0 <= i <= |events|
      invariant CardsSeen(events, i, cards, order)
      invariant DescsSeen(events, i, taskDesc)
      invariant PromptsSeen(events, i, taskPrompt)
    {
      var e := events[i];
      ghost var cards0, order0, desc0, prompt0 := cards, order, taskDesc, taskPrompt;
      var key := Key(e);
      if e.kind.Subagent? && key != "" {
        if key !in cards {
          cards := cards[key := e];
          order := order + [key];
        } else {
          var merged := MergeSubagent(cards[key], e);
          cards := cards[key := merged];
        }
        var d := Trim(Py, TextOf(e, Description));
        if d != "" && (StrOf(e, Phase) == Some("started") || key !in taskDesc) {
          taskDesc := taskDesc[key := d];
        }
        var p := Trim(Py, TextOf(e, Prompt));
        if p != "" && key !in taskPrompt {
          taskPrompt := taskPrompt[key := p];
        }
      }
      SeenNext(events, i, cards0, order0, cards, order);
      DescsNext(events, i, desc0, taskDesc);
      PromptsNext(events, i, prompt0, taskPrompt);
      i := i + 1;
    }
    rows := BuildRows(events, cards, order, taskDesc, taskPrompt);
  }

  method BuildRows(events: seq<Event>, cards: map<string, Event>, order: seq<string>,
                   taskDesc: map<string, string>, taskPrompt: map<string, string>) returns (rows: seq<Row>)
    requires CardsSeen(events, |events|, cards, order)
    requires DescsSeen(events, |events|, taskDesc) && PromptsSeen(events, |events|, taskPrompt)
    ensures |rows| == |Openers(events, |events|)|
    ensures forall k | 0 <= k < |rows| :: rows[k] == RowAt(events, Openers(events, |events|)[k])
  {
    hide CardAt, TaskDescription, FirstText, AgentBefore, Key, OpensCard, MergeSet;
    rows := [];
    var k := 0;
    while k < |order|
      invariant 0 <= k == |rows| <= |order|
      invariant forall j | 0 <= j < k :: rows[j] == RowAt(events, Openers(events, |events|)[j])
    {
      var key := order[k];
      assert CardSeen(events, |events|, cards, Openers(events, |events|)[k], key);
      AgentKeyIs(events[Openers(events, |events|)[k]], key);
      rows := rows + [Row(cards[key],
                          if key in taskDesc then taskDesc[key] else "",
                          if key in taskPrompt then taskPrompt[key] else "")];
      k := k + 1;
    }
  }

  // ---- Agreement with the cards ----

  /** The cards with a key among the emitted units: where they stand, and their fields. */
  function KeyedCards(ps: seq<Paired>): seq<(nat, Event)> {
    if ps == [] then []
    else
      var p := ps[|ps| - 1];
      var before := KeyedCards(ps[..|ps| - 1]);
      if p.event.kind.Subagent? && Key(p.event) != "" then before + [(p.at, p.event)] else before
  }

  lemma NoCards()
    ensures KeyedCards([]) == []
  {
  }

  lemma KeyedCardsSnoc(ps: seq<Paired>, p: Paired)
    ensures KeyedCards(ps + [p]) ==
            if p.event.kind.Subagent? && Key(p.event) != "" then KeyedCards(ps) + [(p.at, p.event)] else KeyedCards(ps)
  {
    assert (ps + [p])[..|ps|] == ps;
  }

  /** The cards opened by the first `n` events, as the events before `h` have left them. */
  function OpenedCards(events: seq<Event>, n: nat, h: nat): seq<(nat, Event)>
    requires n <= h <= |events|
  {
    if n == 0 then []
    else if OpensCard(events, n - 1) && Key(events[n - 1]) != ""
    then OpenedCards(events, n - 1, h) + [(n - 1, CardAt(events, n - 1, h, MergeSet()))]
    else OpenedCards(events, n - 1, h)
  }

  lemma {:induction false} OpenedCardsAt(events: seq<Event>, n: nat, h: nat)
    requires n <= h <= |events|
    ensures |OpenedCards(events, n, h)| == |Openers(events, n)|
    ensures forall k | 0 <= k < |Openers(events, n)| ::
              && Openers(events, n)[k] < h
              && OpenedCards(events, n, h)[k] == (Openers(events, n)[k], CardAt(events, Openers(events, n)[k], h, MergeSet()))
  {
    hide CardAt, MergeSet, OpensCard, Key;
    if n > 0 { OpenedCardsAt(events, n - 1, h); }
  }

  lemma {:induction false} KeyedCardsOfPairs(events: seq<Event>, n: nat, h: nat)
    requires n <= h <= |events| && forall e | e in events :: IdsAreText(e)
    ensures KeyedCards(PairsUpTo(events, n, h)) == OpenedCards(events, n, h)
  {
    hide Emit, CardAt, MergeSet, OpensCard, Key, KeyedCards, IdsAreText;
    if n == 0 {
      assert KeyedCards([]) == [] by { NoCards(); }
    } else {
      KeyedCardsOfPairs(events, n - 1, h);
      KeyedEmit(events, n - 1, h);
      var emitted := Emit(events, n - 1, h);
      if emitted.Some? {
        KeyedCardsSnoc(PairsUpTo(events, n - 1, h), emitted.value);
      }
    }
  }

  /** A card has a key exactly when the event that opened it had one. */
  lemma KeyedEmit(events: seq<Event>, i: nat, h: nat)
    requires i < h <= |events| && forall e | e in events :: IdsAreText(e)
    ensures var p := Emit(events, i, h);
            p.Some? && p.value.event.kind.Subagent? && Key(p.value.event) != ""
            <==> OpensCard(events, i) && Key(events[i]) != ""
    ensures OpensCard(events, i) && Key(events[i]) != "" ==>
              Emit(events, i, h) == Some(Paired(i, CardAt(events, i, h, MergeSet()), None))
  {
    var key, rest := Key(events[i]), events[i + 1..h];
    if events[i].kind.Subagent? {
      MergesIdsTogether();
      if key != "" {
        FoldKeepsKey(events[i], key, rest, MergeSet());
      } else {
        NoKeyNoFold(events[i], rest);
      }
    }
    hide Echo, LastResult, UseBefore, Folded, MergeSet, Key;
  }

  lemma {:induction false} NoKeyNoFold(card: Event, rest: seq<Event>)
    ensures Folded(card, "", rest, MergeSet()) == card
    decreases |rest|
  {
    if rest != [] { NoKeyNoFold(card, rest[..|rest| - 1]); }
  }

  /**
   The sidebar and the cards never disagree: row by row it visits the keyed cards that
   pairing emits, in the same order and with the same merged fields; and merging has left
   each card the key it was opened with.
   */
  lemma SidebarMatchesCards(events: seq<Event>)
    requires forall e | e in events :: IdsAreText(e)
    ensures |KeyedCards(Pairs(events))| == |Openers(events, |events|)|
    ensures forall k | 0 <= k < |Openers(events, |events|)| ::
              SameCard(events, Openers(events, |events|)[k], KeyedCards(Pairs(events))[k])
  {
    var n := |events|;
    KeyedCardsOfPairs(events, n, n);
    OpenedCardsAt(events, n, n);
    forall k | 0 <= k < |Openers(events, n)|
      ensures SameCard(events, Openers(events, n)[k], KeyedCards(Pairs(events))[k])
    {
      CardKeepsKey(events, Openers(events, n)[k]);
    }
    hide CardAt, MergeSet, Key, PairsUpTo, TaskDescription, FirstText;
  }

  /** The card shown for `opener` is the one in its sidebar row, under the key it was opened with. */
  ghost predicate SameCard(events: seq<Event>, opener: nat, shown: (nat, Event)) {
    && opener < |events|
    && shown == (opener, RowAt(events, opener).card)
    && Key(shown.1) == Key(events[opener])
  }

  lemma CardKeepsKey(events: seq<Event>, i: nat)
    requires i < |events| && OpensCard(events, i) && Key(events[i]) != "" && forall e | e in events :: IdsAreText(e)
    ensures Key(CardAt(events, i, |events|, MergeSet())) == Key(events[i])
  {
    MergesIdsTogether();
    FoldKeepsKey(events[i], Key(events[i]), events[i + 1..|events|], MergeSet());
    hide MergeSet, Key;
  }
}
