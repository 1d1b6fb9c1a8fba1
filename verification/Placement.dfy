/** Where each event of a transcript ends up after pairing and grouping: nothing lost, nothing doubled. */
module Placement {
  import opened Options
  import opened Text
  import opened Transcript
  import opened Pairing
  import opened Grouping

  // ---- Counting places ----

  function One(b: bool): nat {
    if b then 1 else 0
  }

  /** The places event `i` has in a unit: as its event, and as its paired result. */
  function InUnit(p: Paired, i: nat): nat {
    One(p.at == i) + One(p.resultAt == Some(i))
  }

  function InUnits(ps: seq<Paired>, i: nat): nat {
    if ps == [] then 0 else InUnits(ps[..|ps| - 1], i) + InUnit(ps[|ps| - 1], i)
  }

  /** The places event `i` has in a forest, at top level or nested. */
  function Places(forest: seq<Node>, i: nat): nat {
    if forest == [] then 0
    else
      var last := forest[|forest| - 1];
      Places(forest[..|forest| - 1], i) + InUnit(last.unit, i) + InUnits(last.children, i)
  }

  lemma InUnitsSnoc(ps: seq<Paired>, p: Paired, i: nat)
    ensures InUnits(ps + [p], i) == InUnits(ps, i) + InUnit(p, i)
  {
    assert (ps + [p])[..|ps|] == ps;
  }

  lemma PlacesSnoc(forest: seq<Node>, n: Node, i: nat)
    ensures Places(forest + [n], i) == Places(forest, i) + InUnit(n.unit, i) + InUnits(n.children, i)
  {
    assert (forest + [n])[..|forest|] == forest;
  }

  lemma {:induction false} PlacesNest(forest: seq<Node>, k: nat, p: Paired, i: nat)
    requires k < |forest|
    ensures Places(forest[k := Node(forest[k].unit, forest[k].children + [p])], i) == Places(forest, i) + InUnit(p, i)
    decreases |forest|
  {
    var n := |forest| - 1;
    var node := Node(forest[k].unit, forest[k].children + [p]);
    InUnitsSnoc(forest[k].children, p, i);
    if k == n {
      assert forest[k := node][..n] == forest[..n];
    } else {
      assert forest[k := node][..n] == forest[..n][k := node];
      PlacesNest(forest[..n], k, p, i);
    }
  }

  lemma GroupNext(paired: seq<Paired>, n: nat, i: nat)
    requires n < |paired|
    ensures Places(Forest(paired, n + 1), i) == Places(Forest(paired, n), i) + InUnit(paired[n], i)
  {
    var f, p := Forest(paired, n), paired[n];
    assert |f| == |Tops(paired, n)|;
    hide Forest, Owner, Children, Places, InUnit, Tops;
    ForestStep(paired, n);
    match Owner(paired, n)
    case None =>
      PlacesSnoc(f, Node(p, []), i);
    case Some(_) =>
      var k :| 0 <= k < |f| && Forest(paired, n + 1) == f[k := Node(f[k].unit, f[k].children + [p])];
      PlacesNest(f, k, p, i);
  }

  /** Grouping moves units but neither loses nor copies any. */
  lemma {:induction false} GroupKeepsUnits(paired: seq<Paired>, n: nat, i: nat)
    requires n <= |paired|
    ensures Places(Forest(paired, n), i) == InUnits(paired[..n], i)
  {
    if n == 0 {
      NothingPlaced(paired, i);
      hide *;
    } else {
      hide *;
      GroupKeepsUnits(paired, n - 1, i);
      GroupNext(paired, n - 1, i);
      UnitsNext(paired, n - 1, i);
    }
  }

  lemma NothingPlaced(paired: seq<Paired>, i: nat)
    ensures Places(Forest(paired, 0), i) == InUnits(paired[..0], i)
  {
    assert Forest(paired, 0) == [];
    hide Forest;
  }

  lemma UnitsNext(paired: seq<Paired>, n: nat, i: nat)
    requires n < |paired|
    ensures InUnits(paired[..n + 1], i) == InUnits(paired[..n], i) + InUnit(paired[n], i)
  {
    hide *;
    assert paired[..n + 1] == paired[..n] + [paired[n]];
    InUnitsSnoc(paired[..n], paired[n], i);
  }

  // ---- Places in the pairs ----

  /** How many of the first `n` events are calls with this id. */
  function Uses(events: seq<Event>, n: nat, id: string): nat
    requires n <= |events|
  {
    if n == 0 then 0 else Uses(events, n - 1, id) + One(IsUse(events[n - 1], id))
  }

  lemma {:induction false} UseBeforeCounts(events: seq<Event>, n: nat, id: string)
    requires n <= |events|
    ensures UseBefore(events, n, id) <==> Uses(events, n, id) > 0
  {
    if n > 0 { UseBeforeCounts(events, n - 1, id); }
  }

  lemma {:induction false} UsesGrow(events: seq<Event>, m: nat, n: nat, id: string)
    requires m <= n <= |events|
    ensures Uses(events, m, id) <= Uses(events, n, id)
    decreases n
  {
    if m < n { UsesGrow(events, m, n - 1, id); }
  }

  /** Event `i` is the result that every call with its id is paired with. */
  predicate IsLastResult(events: seq<Event>, i: nat)
    requires i < |events|
  {
    LastResult(events, |events|, TextOf(events[i], ToolUseId)) == Some(i)
  }

  lemma PairsNext(events: seq<Event>, n: nat, i: nat)
    requires n < |events|
    ensures InUnits(PairsUpTo(events, n + 1, |events|), i) ==
            InUnits(PairsUpTo(events, n, |events|), i)
            + match Emit(events, n, |events|) case None => 0 case Some(p) => InUnit(p, i)
  {
    hide Emit;
    if Emit(events, n, |events|).Some? {
      InUnitsSnoc(PairsUpTo(events, n, |events|), Emit(events, n, |events|).value, i);
    }
  }

  lemma {:induction false} PlacesInPairs(events: seq<Event>, n: nat, i: nat)
    requires n <= |events| && i < |events|
    ensures InUnits(PairsUpTo(events, n, |events|), i) ==
            One(i < n && Emit(events, i, |events|).Some?)
            + if IsLastResult(events, i) then Uses(events, n, TextOf(events[i], ToolUseId)) else 0
  {
    hide Emit, IsLastResult, IsUse, TextOf;
    if n > 0 {
      PlacesInPairs(events, n - 1, i);
      EmitPlaces(events, n - 1, i);
      PairsNext(events, n - 1, i);
      hide PairsUpTo, InUnits;
    }
  }

  /** A unit is placed where its event stands, and its result is the last one of its call. */
  lemma EmitPlaces(events: seq<Event>, u: nat, i: nat)
    requires u < |events| && i < |events|
    ensures match Emit(events, u, |events|)
            case None => !IsUse(events[u], TextOf(events[i], ToolUseId))
            case Some(p) =>
              && p.at == u
              && (p.resultAt == Some(i) <==> IsLastResult(events, i) && IsUse(events[u], TextOf(events[i], ToolUseId)))
  {
    hide Echo, OpensCard, CardAt, UseBefore;
  }

  // ---- The results ----

  /** Events that are not shown where they stand. */
  predicate Hidden(events: seq<Event>, i: nat)
    requires i < |events|
  {
    var e := events[i];
    || (e.kind.Result? && Echo(events))                                          // repeats the closing prose
    || (e.kind.Subagent? && !OpensCard(events, i))                               // folded into its card
    || (e.kind.ToolResult? && UseBefore(events, i, TextOf(e, ToolUseId)))        // shown with its call
  }

  /** Exactly how often event `i` is shown, for every stream. */
  lemma PlacedExactly(events: seq<Event>, i: nat)
    requires i < |events|
    ensures Places(Group(Pairs(events)), i) ==
            One(!Hidden(events, i)) + if IsLastResult(events, i) then Uses(events, |events|, TextOf(events[i], ToolUseId)) else 0
  {
    var ps := Pairs(events);
    GroupKeepsUnits(ps, |ps|, i);
    assert ps[..|ps|] == ps;
    PlacesInPairs(events, |events|, i);
    HiddenMeansNotEmitted(events, i);
    hide Emit, Hidden, IsLastResult;
  }

  lemma HiddenMeansNotEmitted(events: seq<Event>, i: nat)
    requires i < |events|
    ensures Emit(events, i, |events|).None? <==> Hidden(events, i)
  {
    hide Echo, OpensCard, CardAt, UseBefore, LastResult;
  }

  /** A tool result is shown exactly once if and only if its id behaves. */
  lemma ResultPlacedOnce(events: seq<Event>, i: nat)
    requires i < |events| && events[i].kind.ToolResult?
    ensures var id := TextOf(events[i], ToolUseId);
            Places(Group(Pairs(events)), i) == 1 <==>
              if IsLastResult(events, i) then Uses(events, |events|, id) == Uses(events, i, id) <= 1
              else Uses(events, i, id) == 0
  {
    var id := TextOf(events[i], ToolUseId);
    PlacedExactly(events, i);
    UseBeforeCounts(events, i, id);
    UsesGrow(events, i, |events|, id);
    hide Echo, UseBefore, Group, Pairs, IsLastResult;
  }

  /** Ids are unique, and each result follows its call. */
  predicate WellFormed(events: seq<Event>) {
    && (forall i, j | 0 <= i < |events| && 0 <= j < |events| && events[i].kind.ToolUse? && IsUse(events[j], TextOf(events[i], Id)) :: i == j)
    && (forall i, j | 0 <= i < |events| && 0 <= j < |events| && events[i].kind.ToolResult?
                      && IsResultOf(events[j], TextOf(events[i], ToolUseId)) :: i == j)
    && (forall i, j | 0 <= i < |events| && 0 <= j < |events| && events[i].kind.ToolResult?
                      && IsUse(events[j], TextOf(events[i], ToolUseId)) :: j < i)
  }

  lemma {:induction false} UsesAtMostOne(events: seq<Event>, n: nat, id: string)
    requires n <= |events| && WellFormed(events)
    ensures Uses(events, n, id) <= 1
  {
    if n > 0 {
      UsesAtMostOne(events, n - 1, id);
      if IsUse(events[n - 1], id) {
        UseBeforeCounts(events, n - 1, id);
      }
    }
  }

  /** On such streams every event is shown exactly once, but for folded and echoing ones. */
  lemma WellFormedPlacesOnce(events: seq<Event>, i: nat)
    requires WellFormed(events) && i < |events|
    ensures Places(Group(Pairs(events)), i) ==
            One(!(events[i].kind.Result? && Echo(events)) && !(events[i].kind.Subagent? && !OpensCard(events, i)))
  {
    PlacedExactly(events, i);
    var id := TextOf(events[i], ToolUseId);
    if events[i].kind.ToolResult? {
      UsesAtMostOne(events, |events|, id);
      UseBeforeCounts(events, |events|, id);
      UseBeforeCounts(events, i, id);
      UsesGrow(events, i, |events|, id);
      if UseBefore(events, |events|, id) {
        var j :| 0 <= j < |events| && IsUse(events[j], id);
        assert UseBefore(events, i, id);
        assert IsResultOf(events[i], id);
        assert IsLastResult(events, i);
      }
    }
    hide Echo, OpensCard, Group, Pairs;
  }

  // ---- Content ----

  /** A unit shows its own event, or its agent's merged card; a paired result is the last one of the call. */
  ghost predicate ShowsItsEvent(events: seq<Event>, p: Paired) {
    && p.at < |events|
    && (if events[p.at].kind.Subagent? then p.event == CardAt(events, p.at, |events|, MergeSet()) && OpensCard(events, p.at)
        else p.event == events[p.at])
    && (p.resultAt.Some? ==>
          var r := p.resultAt.value;
          r < |events| && events[p.at].kind.ToolUse? && IsResultOf(events[r], TextOf(events[p.at], Id))
          && forall j | r < j < |events| :: !IsResultOf(events[j], TextOf(events[p.at], Id)))
    && (p.resultAt.None? && events[p.at].kind.ToolUse? ==>
          forall j | 0 <= j < |events| :: !IsResultOf(events[j], TextOf(events[p.at], Id)))
  }

  lemma PairsShowTheirEvents(events: seq<Event>)
    ensures forall p | p in Pairs(events) :: ShowsItsEvent(events, p)
  {
    PairsInOrder(events, |events|, |events|);
    forall p | p in Pairs(events) ensures ShowsItsEvent(events, p) {
      hide Echo, UseBefore, CardAt, OpensCard, PairsUpTo;
    }
  }

  lemma {:induction false} ChildrenAreOwned(paired: seq<Paired>, p: nat, h: nat)
    requires p < |paired| && h <= |paired|
    ensures forall c | c in Children(paired, p, h) ::
              exists r | p < r < h :: paired[r] == c && Owner(paired, r) == Some(p)
    decreases h
  {
    hide Owner;
    if h > 0 {
      ChildrenAreOwned(paired, p, h - 1);
      if Owner(paired, h - 1) == Some(p) {
        OwnerIsBefore(paired, h - 1);
        assert Owner(paired, h - 1) == Some(p) && p < h - 1;
      }
    }
  }

  lemma OwnerIsBefore(paired: seq<Paired>, q: nat)
    requires q < |paired|
    ensures Owner(paired, q).Some? ==> Owner(paired, q).value < q
  {
  }

  /** Nesting is right: a child names its card, it is no card, and no later card before it has that id. */
  lemma ChildrenNameTheirCard(paired: seq<Paired>, k: nat, c: Paired)
    requires k < |Group(paired)| && c in Group(paired)[k].children
    ensures var card := Group(paired)[k].unit;
            && card.event.kind.Subagent? && !c.event.kind.Subagent?
            && TextOf(c.event, ParentToolUseId) == TextOf(card.event, ToolUseId) != ""
            && exists p, r | 0 <= p < r < |paired| :: paired[p] == card && paired[r] == c
                 && forall j | p < j < r :: !IsCardFor(paired[j], TextOf(card.event, ToolUseId))
  {
    var p := Tops(paired, |paired|)[k];
    assert Group(paired)[k] == Node(paired[p], Children(paired, p, |paired|));
    ChildrenAreOwned(paired, p, |paired|);
    var r :| p < r < |paired| && paired[r] == c && Owner(paired, r) == Some(p);
    hide Group, Forest, Children;
  }

  // ---- Order ----

  lemma {:induction false} ChildrenInOrder(paired: seq<Paired>, p: nat, h: nat)
    requires Increasing(paired) && p < |paired| && h <= |paired|
    ensures Increasing(Children(paired, p, h))
    ensures forall c | c in Children(paired, p, h) :: paired[p].at < c.at
    ensures forall c | c in Children(paired, p, h) :: exists r | 0 <= r < h :: paired[r] == c
    decreases h
  {
    if h > 0 {
      ChildrenInOrder(paired, p, h - 1);
      if Owner(paired, h - 1) == Some(p) {
        assert p < h - 1;
        hide Owner;
        forall c | c in Children(paired, p, h - 1) ensures c.at < paired[h - 1].at {
          var r :| 0 <= r < h - 1 && paired[r] == c;
        }
      }
    }
  }

  /** The forest keeps stream order at the top level, inside each card, and from card to child. */
  lemma ForestInOrder(events: seq<Event>)
    ensures var f := Group(Pairs(events));
            && (forall j, k | 0 <= j < k < |f| :: f[j].unit.at < f[k].unit.at)
            && (forall k | 0 <= k < |f| :: Increasing(f[k].children))
            && (forall k, c | 0 <= k < |f| && c in f[k].children :: f[k].unit.at < c.at)
  {
    var ps := Pairs(events);
    PairsInOrder(events, |events|, |events|);
    var ts := Tops(ps, |ps|);
    forall k | 0 <= k < |ts|
      ensures Increasing(Children(ps, ts[k], |ps|)) && forall c | c in Children(ps, ts[k], |ps|) :: ps[ts[k]].at < c.at
    {
      ChildrenInOrder(ps, ts[k], |ps|);
    }
    hide Pairs, Children, Owner, Emit;
  }

  // ---- The echo rule drops more than the echo ----

  /** Event `j` is prose with the text of result `i`, up to surrounding white space. */
  predicate SaysTheSame(events: seq<Event>, i: nat, j: nat)
    requires i < |events| && j < |events|
  {
    events[j].kind.AssistantText? && Trim(Py, TextOf(events[i], Summary)) == Trim(Py, TextOf(events[j], TextField))
  }

  /** The text of result `i` is on the page: in its own unit, or in that of some prose. */
  predicate TextShown(events: seq<Event>, i: nat)
    requires i < |events|
  {
    var forest := Group(Pairs(events));
    Places(forest, i) > 0 || exists j | 0 <= j < |events| :: SaysTheSame(events, i, j) && Places(forest, j) > 0
  }

  /** Results are shown once each, or not at all; prose is always shown once. */
  lemma ResultsAndProse(events: seq<Event>, i: nat)
    requires i < |events|
    ensures events[i].kind.Result? ==> Places(Group(Pairs(events)), i) == One(!Echo(events))
    ensures events[i].kind.AssistantText? ==> Places(Group(Pairs(events)), i) == 1
  {
    PlacedExactly(events, i);
    if !events[i].kind.ToolResult? { ResultIsNoToolResult(events, i); }
    hide Echo, OpensCard, UseBefore, Group, Pairs, IsLastResult, Places;
  }

  /** The text of a result is on the page if and only if there is no echo or some prose says the same. */
  lemma ResultTextShownExactly(events: seq<Event>, i: nat)
    requires i < |events| && events[i].kind.Result?
    ensures TextShown(events, i) <==> !Echo(events) || exists j | 0 <= j < |events| :: SaysTheSame(events, i, j)
  {
    ResultsAndProse(events, i);
    hide Trim, Echo, Group, Pairs, Places;
    forall j | 0 <= j < |events| && SaysTheSame(events, i, j) ensures Places(Group(Pairs(events)), j) > 0 {
      ResultsAndProse(events, j);
    }
  }

  /** All results that the echo rule drops repeat the closing prose. */
  predicate AllRepeatClosing(events: seq<Event>) {
    var last := LastProse(events, |events|);
    forall i | 0 <= i < |events| && events[i].kind.Result? :: last.Some? && SaysTheSame(events, i, last.value)
  }

  /**
   No text of a result is lost if and only if there is no echo or each result repeats some
   prose of the stream; in particular not when all of them repeat the closing prose.
   */
  lemma NoResultTextLostExactly(events: seq<Event>)
    ensures (forall i | 0 <= i < |events| && events[i].kind.Result? :: TextShown(events, i))
            <==>
            || !Echo(events)
            || forall i | 0 <= i < |events| && events[i].kind.Result? :: exists j | 0 <= j < |events| :: SaysTheSame(events, i, j)
    ensures !Echo(events) || AllRepeatClosing(events) ==>
              forall i | 0 <= i < |events| && events[i].kind.Result? :: TextShown(events, i)
  {
    hide Trim, Echo, TextShown, SaysTheSame;
    forall i | 0 <= i < |events| && events[i].kind.Result?
      ensures TextShown(events, i) <==> !Echo(events) || exists j | 0 <= j < |events| :: SaysTheSame(events, i, j)
    {
      ResultTextShownExactly(events, i);
    }
  }

  /** Results that do not repeat the closing prose may be dropped without a loss: an earlier turn shows this one's text. */
  lemma EarlierProseShowsIt(first: string, closing: string)
    requires !Blank(closing) && Trim(Py, first) != Trim(Py, closing)
    ensures var events := [Event(AssistantText, map[TextField := Str(first)]),
                           Event(Result, map[Summary := Str(first)]),
                           Event(AssistantText, map[TextField := Str(closing)]),
                           Event(Result, map[Summary := Str(closing)])];
            && Echo(events) && !AllRepeatClosing(events)
            && TextShown(events, 1) && TextShown(events, 3)
  {
    var events := [Event(AssistantText, map[TextField := Str(first)]),
                   Event(Result, map[Summary := Str(first)]),
                   Event(AssistantText, map[TextField := Str(closing)]),
                   Event(Result, map[Summary := Str(closing)])];
    hide Trim, TextShown, Blank;
    assert LastSummary(events, 4) == Some(3);
    assert HasProse(events[2]) && !HasProse(events[3]);
    assert LastProse(events, 3) == Some(2);
    assert LastProse(events, 4) == Some(2);
    assert SaysTheSame(events, 1, 0) && SaysTheSame(events, 3, 2) && !SaysTheSame(events, 1, 2);
    ResultTextShownExactly(events, 1);
    ResultTextShownExactly(events, 3);
  }

  /**
   When the final result is an echo, all results of the stream are dropped, so one with other
   text is shown nowhere: here the error that ended an earlier turn.
   */
  lemma EchoDropsOtherResults(error: string, prose: string)
    requires !Blank(prose)
    ensures var events := [Event(Result, map[Summary := Str(error)]),
                           Event(AssistantText, map[TextField := Str(prose)]),
                           Event(Result, map[Summary := Str(prose)])];
            && Places(Group(Pairs(events)), 0) == 0
            && (Trim(Py, error) != Trim(Py, prose) ==> !TextShown(events, 0))
  {
    var events := [Event(Result, map[Summary := Str(error)]),
                   Event(AssistantText, map[TextField := Str(prose)]),
                   Event(Result, map[Summary := Str(prose)])];
    hide Trim, Places, Group, Pairs, LastResult, Blank, TextShown;
    assert LastSummary(events, 3) == Some(2);
    assert HasProse(events[1]) && !HasProse(events[2]);
    assert LastProse(events, 2) == Some(1);
    assert LastProse(events, 3) == Some(1);
    assert Echo(events);
    PlacedExactly(events, 0);
    ResultIsNoToolResult(events, 0);
    ResultTextShownExactly(events, 0);
    hide Echo, IsLastResult;
  }

  lemma ResultIsNoToolResult(events: seq<Event>, i: nat)
    requires i < |events| && !events[i].kind.ToolResult?
    ensures !IsLastResult(events, i)
  {
  }
}
