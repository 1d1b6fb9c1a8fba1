/** Which results, calls and children the two views show, told by kinds, ids and texts alone. */
module ShownResults {
  import opened Options
  import opened Text
  import opened Transcript
  import opened Pairing
  import opened Grouping
  import opened Placement
  import opened RenderTree
  import opened TreePlacement
  import opened AgentCards

  // ---- The browser: results of a turn ----

  /** Assistant text of the main conversation that is not blank. */
  predicate MainProse(e: Event) {
    && (e.kind == AssistantText || e.kind == PlainText || e.kind == Assistant)
    && !(ParentToolUseId in e.fields && e.fields[ParentToolUseId].Str?)
    && Trim(Js, TextOf(e, TextField)) != ""
  }

  predicate NewTurn(e: Event) {
    e.kind == UserMessage || e.kind == User || e.kind == SteerDelivered
  }

  /** The five letters at this place, in either case. */
  predicate ErrorAt(s: string, a: nat) {
    && a + 5 <= |s|
    && (s[a] == 'e' || s[a] == 'E') && (s[a + 1] == 'r' || s[a + 1] == 'R') && (s[a + 2] == 'r' || s[a + 2] == 'R')
    && (s[a + 3] == 'o' || s[a + 3] == 'O') && (s[a + 4] == 'r' || s[a + 4] == 'R')
  }

  /** The result says that it is an error: in its subtype, or by a flag that is set. */
  ghost predicate SaysError(e: Event) {
    || (Subtype in e.fields && e.fields[Subtype].Str? && exists a :: ErrorAt(e.fields[Subtype].s, a))
    || (IsError in e.fields
        && match e.fields[IsError]
           case Null => false
           case Str(s) => s != ""
           case Dict(_) => true
           case Other(tag) => tag != 0)
  }

  /** One of two non-empty texts begins or ends with the other. */
  ghost predicate Overlap(a: string, b: string) {
    a != "" && b != "" && (Begins(a, b) || Begins(b, a) || Ends(a, b) || Ends(b, a))
  }

  ghost predicate Begins(a: string, b: string) {
    exists c: string :: a == b + c
  }

  ghost predicate Ends(a: string, b: string) {
    exists c: string :: a == c + b
  }

  lemma ErrorIs(e: Event)
    ensures IsErrorResult(e) <==> SaysError(e)
  {
    var s := TextOf(e, Subtype);
    forall a: nat | a + 5 <= |s| ensures OccursAt(s, "error", a) <==> ErrorAt(s, a) {
      assert Lower(s[a + 0]) == "error"[0] <==> s[a] == 'e' || s[a] == 'E';
      assert Lower(s[a + 1]) == "error"[1] <==> s[a + 1] == 'r' || s[a + 1] == 'R';
      assert Lower(s[a + 2]) == "error"[2] <==> s[a + 2] == 'r' || s[a + 2] == 'R';
      assert Lower(s[a + 3]) == "error"[3] <==> s[a + 3] == 'o' || s[a + 3] == 'O';
      assert Lower(s[a + 4]) == "error"[4] <==> s[a + 4] == 'r' || s[a + 4] == 'R';
    }
    hide Lower;
    if IncludesIgnoringCase(s, "error") {
      var a :| 0 <= a <= |s| - 5 && OccursAt(s, "error", a);
      assert ErrorAt(s, a);
    }
    if Subtype in e.fields && e.fields[Subtype].Str? && exists a :: ErrorAt(e.fields[Subtype].s, a) {
      var a: nat :| ErrorAt(s, a);
      assert OccursAt(s, "error", a);
    }
    hide OccursAt, ErrorAt;
  }

  lemma BeginsIs(a: string, b: string)
    ensures StartsWith(a, b) <==> Begins(a, b)
  {
    if StartsWith(a, b) { assert a == b + a[|b|..]; }
  }

  lemma EndsIs(a: string, b: string)
    ensures EndsWith(a, b) <==> Ends(a, b)
  {
    if EndsWith(a, b) { assert a == a[..|a| - |b|] + b; }
    if c: string :| a == c + b {
      assert a[|a| - |b|..] == b;
    }
  }

  lemma OverlapIs(a: string, b: string)
    ensures EchoesAssistant(a, b) <==> Overlap(a, b)
  {
    BeginsIs(a, b);
    BeginsIs(b, a);
    EndsIs(a, b);
    EndsIs(b, a);
    assert a == b ==> StartsWith(a, b);
    hide StartsWith, EndsWith, Begins, Ends;
  }

  lemma ProseIs(e: Event)
    ensures TopProse(e) <==> MainProse(e)
    ensures OpensTurn(e) <==> NewTurn(e)
  {
    hide Trim;
  }

  /** Event `j` is the latest main prose before `i`, and no turn has opened since. */
  predicate LatestProse(events: seq<Event>, i: nat, j: nat)
    requires j < i <= |events|
  {
    MainProse(events[j]) && forall u | j < u < i :: !MainProse(events[u]) && !NewTurn(events[u])
  }

  lemma TurnProseIsLatest(events: seq<Event>, i: nat)
    requires i <= |events|
    ensures match TurnProse(events, i)
            case None => forall j | 0 <= j < i :: !LatestProse(events, i, j)
            case Some(j) => LatestProse(events, i, j) && forall k | 0 <= k < i && LatestProse(events, i, k) :: k == j
  {
    hide TopProse, OpensTurn, MainProse, NewTurn, TurnProse;
    TurnProseIs(events, i);
    forall j | 0 <= j < i
      ensures TopProse(events[j]) <==> MainProse(events[j])
      ensures OpensTurn(events[j]) <==> NewTurn(events[j])
    {
      ProseIs(events[j]);
    }
    if TurnProse(events, i).None? {
      OldProseIsNotLatest(events, i);
    }
  }

  lemma OldProseIsNotLatest(events: seq<Event>, i: nat)
    requires i <= |events|
    requires forall j | 0 <= j < i && MainProse(events[j]) :: exists u | j < u < i :: NewTurn(events[u])
    ensures forall j | 0 <= j < i :: !LatestProse(events, i, j)
  {
    hide MainProse, NewTurn;
    forall j | 0 <= j < i && MainProse(events[j]) ensures !LatestProse(events, i, j) {
      var u :| j < u < i && NewTurn(events[u]);
    }
  }

  /** Results are no tool results: they are shown once in their own place, or not at all. */
  lemma ResultPlaces(events: seq<Event>, i: nat)
    requires i < |events| && events[i].kind == Result
    ensures Places(TreeOf(events, |events|), i) == One(!Dropped(events, i))
  {
    TreePlacedExactly(events, i);
    ResultIsNoToolResult(events, i);
    hide TreeOf, Dropped, IsTaskId, OpensCard, UseBefore, IsLastResult;
  }

  /** It says no error, and begins or ends with, or begins or ends, the latest main prose of the turn still open. */
  ghost predicate LeftOut(events: seq<Event>, i: nat)
    requires i < |events|
  {
    && !SaysError(events[i])
    && exists j | 0 <= j < i :: LatestProse(events, i, j)
         && Overlap(Trim(Js, TextOf(events[i], Summary)), Trim(Js, TextOf(events[j], TextField)))
  }

  /** The tree shows a result once, or, if and only if it is such a one, not at all. */
  lemma LeftOutExactly(events: seq<Event>, i: nat)
    requires i < |events| && events[i].kind == Result
    ensures Places(TreeOf(events, |events|), i) == One(!LeftOut(events, i))
  {
    ResultPlaces(events, i);
    ErrorIs(events[i]);
    TurnProseIsLatest(events, i);
    var summary := Trim(Js, TextOf(events[i], Summary));
    OverlapIs(summary, LastAssistant(events, i));
    hide TreeOf, IsErrorResult, SaysError, Trim, EchoesAssistant, LatestProse, TurnProse, Overlap;
    if TurnProse(events, i).None? { EmptyOverlapsNothing(summary); }
  }

  lemma EmptyOverlapsNothing(a: string)
    ensures !Overlap(a, "")
  {
  }

  /** A user message, a user turn or a delivered follow-up keeps a later result from repeating older prose. */
  lemma NewTurnKeepsResult(events: seq<Event>, u: nat, i: nat)
    requires u < i < |events| && events[i].kind == Result
    requires events[u].kind == UserMessage || events[u].kind == User || events[u].kind == SteerDelivered
    requires forall j | u < j < i && (events[j].kind == AssistantText || events[j].kind == PlainText || events[j].kind == Assistant) ::
               (ParentToolUseId in events[j].fields && events[j].fields[ParentToolUseId].Str?)
               || Trim(Js, TextOf(events[j], TextField)) == ""
    ensures Places(TreeOf(events, |events|), i) == 1
  {
    LeftOutExactly(events, i);
    NoProseSince(events, u, i);
    hide LatestProse, TreeOf, SaysError, Overlap, Places, Trim;
  }

  lemma NoProseSince(events: seq<Event>, u: nat, i: nat)
    requires u < i < |events| && NewTurn(events[u]) && forall j | u < j < i :: !MainProse(events[j])
    ensures forall j | 0 <= j < i :: !LatestProse(events, i, j)
  {
    hide MainProse;
    assert !MainProse(events[u]) by { TurnIsNoProse(events[u]); }
  }

  lemma TurnIsNoProse(e: Event)
    requires NewTurn(e)
    ensures !MainProse(e)
  {
    hide Trim;
  }

  /** A result that says it is an error is always shown. */
  lemma ErrorIsShown(events: seq<Event>, i: nat)
    requires i < |events| && events[i].kind == Result
    requires || (IsError in events[i].fields && events[i].fields[IsError] == Other(1))
             || (Subtype in events[i].fields && events[i].fields[Subtype].Str? && "error" <= events[i].fields[Subtype].s)
    ensures Places(TreeOf(events, |events|), i) == 1
  {
    LeftOutExactly(events, i);
    SubtypeSays(events[i]);
    hide SaysError, LatestProse, TreeOf, Overlap, Places, Trim;
  }

  lemma SubtypeSays(e: Event)
    requires || (IsError in e.fields && e.fields[IsError] == Other(1))
             || (Subtype in e.fields && e.fields[Subtype].Str? && "error" <= e.fields[Subtype].s)
    ensures SaysError(e)
  {
    if Subtype in e.fields && e.fields[Subtype].Str? && "error" <= e.fields[Subtype].s {
      assert ErrorAt(e.fields[Subtype].s, 0);
    }
  }

  // ---- The browser: the calls that started a sub-agent ----

  /** A call is left out exactly when some sub-agent carries its id: the card stands for it. */
  lemma TaskCallLeftOut(events: seq<Event>, i: nat)
    requires i < |events| && events[i].kind == ToolUse
    ensures Places(TreeOf(events, |events|), i) ==
            One(!(Id in events[i].fields && events[i].fields[Id].Str?
                  && exists j | 0 <= j < |events| :: events[j].kind == Subagent
                       && ToolUseId in events[j].fields && events[j].fields[ToolUseId] == events[i].fields[Id]))
  {
    TreePlacedExactly(events, i);
    ResultIsNoToolResult(events, i);
    if Id in events[i].fields && events[i].fields[Id].Str? {
      var id := events[i].fields[Id].s;
      forall j | 0 <= j < |events|
        ensures events[j].kind.Subagent? && StrOf(events[j], ToolUseId) == Some(id) <==>
                events[j].kind == Subagent && ToolUseId in events[j].fields && events[j].fields[ToolUseId] == events[i].fields[Id]
      {
      }
    }
    hide TreeOf, IsErrorResult, EchoesAssistant, LastAssistant, UseBefore, IsLastResult;
  }

  // ---- The browser: children ----

  /** An event that is shown, and whose parent id an earlier card was opened with, is a child of the latest such card. */
  lemma ChildOfLatestCard(events: seq<Event>, i: nat, p: nat, parent: string)
    requires p < i < |events| && Places(TreeOf(events, i + 1), i) > Places(TreeOf(events, i), i)
    requires events[i].kind != Subagent && parent != ""
    requires ParentToolUseId in events[i].fields && events[i].fields[ParentToolUseId] == Str(parent)
    requires FirstOfAgent(events, p) && ToolUseId in events[p].fields && events[p].fields[ToolUseId] == Str(parent)
    requires forall j | p < j < i && FirstOfAgent(events, j) :: !(ToolUseId in events[j].fields && events[j].fields[ToolUseId] == Str(parent))
    ensures RoleOf(events, i) == Nested(p)
  {
    forall j | 0 <= j < i ensures OpensCardFor(events, j, parent) <==>
              FirstOfAgent(events, j) && ToolUseId in events[j].fields && events[j].fields[ToolUseId] == Str(parent)
    {
      OpensExactly(events, j);
      hide OpensCard, FirstOfAgent;
    }
    hide FirstOfAgent;
    LatestIs(events, i, p, parent);
    StandsIfPlaced(events, i);
    hide OpensCardFor, Dropped, IsTaskCall, ShownWithCall, OpenedFor, TreeOf, Places;
  }

  lemma {:induction false} LatestIs(events: seq<Event>, n: nat, p: nat, tuid: string)
    requires p < n <= |events| && OpensCardFor(events, p, tuid) && forall j | p < j < n :: !OpensCardFor(events, j, tuid)
    ensures OpenedFor(events, n, tuid) == Some(p)
  {
    hide OpensCardFor;
    if p < n - 1 { LatestIs(events, n - 1, p, tuid); }
  }

  lemma StandsIfPlaced(events: seq<Event>, i: nat)
    requires i < |events| && Places(TreeOf(events, i + 1), i) > Places(TreeOf(events, i), i)
    ensures Stands(RoleOf(events, i))
  {
    PlacesNext(events, i, i);
    hide RoleOf, TreeOf, Places, UnitAt;
  }

  // ---- The server: results, calls and children ----

  /** Assistant text, and nothing else, counts as prose here. */
  predicate ServerProse(e: Event) {
    e.kind == AssistantText && Trim(Py, TextOf(e, TextField)) != ""
  }

  predicate ClosingProse(events: seq<Event>, p: nat)
    requires p < |events|
  {
    ServerProse(events[p]) && forall j | p < j < |events| :: !ServerProse(events[j])
  }

  predicate FinalResult(events: seq<Event>, r: nat)
    requires r < |events|
  {
    events[r].kind == Result && forall j | r < j < |events| :: events[j].kind != Result
  }

  lemma ClosingIs(events: seq<Event>, p: nat)
    requires p < |events|
    ensures ClosingProse(events, p) <==> LastProse(events, |events|) == Some(p)
  {
    hide LastProse, HasProse, ServerProse;
    LastProseIs(events, |events|);
    forall j | 0 <= j < |events| ensures HasProse(events[j]) <==> ServerProse(events[j]) { ProseIsProse(events[j]); }
    if LastProse(events, |events|).Some? { LastProseInside(events); }
  }

  lemma ProseIsProse(e: Event)
    ensures HasProse(e) <==> ServerProse(e)
  {
    hide Trim, TextOf;
  }

  lemma LastProseInside(events: seq<Event>)
    ensures LastProse(events, |events|).Some? ==> LastProse(events, |events|).value < |events|
  {
    hide HasProse;
  }

  lemma FinalIs(events: seq<Event>, r: nat)
    requires r < |events|
    ensures FinalResult(events, r) <==> LastSummary(events, |events|) == Some(r)
  {
  }

  lemma EchoIs(events: seq<Event>)
    ensures Echo(events) <==>
            exists p, r | 0 <= p < |events| && 0 <= r < |events| && ClosingProse(events, p) && FinalResult(events, r) ::
              Trim(Py, TextOf(events[r], Summary)) == Trim(Py, TextOf(events[p], TextField))
  {
    var prose, summary := LastProse(events, |events|), LastSummary(events, |events|);
    forall p | 0 <= p < |events| ensures ClosingProse(events, p) <==> prose == Some(p) { ClosingIs(events, p); }
    forall r | 0 <= r < |events| ensures FinalResult(events, r) <==> summary == Some(r) { FinalIs(events, r); }
    hide Trim, TextOf, LastProse, ClosingProse, FinalResult;
    assert prose.Some? ==> prose.value < |events| by { LastProseIs(events, |events|); }
  }

  /** The server leaves all results out if and only if the final one repeats the closing prose. */
  lemma ServerLeavesOutExactly(events: seq<Event>, i: nat)
    requires i < |events| && events[i].kind == Result
    ensures Places(Group(Pairs(events)), i) ==
            One(!exists p, r | 0 <= p < |events| && 0 <= r < |events| && ClosingProse(events, p) && FinalResult(events, r) ::
                  Trim(Py, TextOf(events[r], Summary)) == Trim(Py, TextOf(events[p], TextField)))
  {
    ResultsAndProse(events, i);
    EchoIs(events);
    hide Echo, Group, Pairs, Places, ClosingProse, FinalResult, Trim;
  }

  /** A call is shown with the last result that carries its id, if any does. */
  lemma CallShowsItsResult(events: seq<Event>, i: nat, id: string)
    requires i < |events| && events[i].kind == ToolUse && id != ""
    requires Id in events[i].fields && events[i].fields[Id] == Str(id)
    ensures forall r | 0 <= r < |events| && Carries(events[r], id) && (forall j | r < j < |events| :: !Carries(events[j], id)) ::
              Paired(i, events[i], Some(r)) in Pairs(events)
    ensures (forall r | 0 <= r < |events| :: !Carries(events[r], id)) ==> Paired(i, events[i], None) in Pairs(events)
  {
    assert StrOf(events[i], Id) == Some(id);
    CallUnit(events, i, id);
    forall r | 0 <= r < |events| ensures IsResultOf(events[r], id) <==> Carries(events[r], id) { }
    hide *;
    LastCarrier(events, id);
  }

  lemma CallUnit(events: seq<Event>, i: nat, id: string)
    requires i < |events| && events[i].kind == ToolUse && StrOf(events[i], Id) == Some(id)
    ensures Paired(i, events[i], LastResult(events, |events|, id)) in Pairs(events)
  {
    assert Emit(events, i, |events|) == Some(Paired(i, events[i], LastResult(events, |events|, id)));
    hide Emit, LastResult;
    Emitted(events, |events|, i);
  }

  lemma LastCarrier(events: seq<Event>, id: string)
    requires forall r | 0 <= r < |events| :: IsResultOf(events[r], id) <==> Carries(events[r], id)
    ensures forall r | 0 <= r < |events| && Carries(events[r], id) && (forall j | r < j < |events| :: !Carries(events[j], id)) ::
              LastResult(events, |events|, id) == Some(r)
    ensures (forall r | 0 <= r < |events| :: !Carries(events[r], id)) ==> LastResult(events, |events|, id) == None
  {
    hide IsResultOf, Carries;
  }

  /** A tool result with this id. */
  predicate Carries(e: Event, id: string) {
    e.kind == ToolResult && ToolUseId in e.fields && e.fields[ToolUseId] == Str(id)
  }

  /** A unit that names the id of an earlier card is under the latest such card, and nowhere else. */
  lemma UnitUnderLatestCard(paired: seq<Paired>, q: nat, c: nat)
    requires c < q < |paired| && paired[q].event.kind != Subagent
    requires TextOf(paired[q].event, ParentToolUseId) != "" && IsCardWith(paired[c], TextOf(paired[q].event, ParentToolUseId))
    requires forall j | c < j < q :: !IsCardWith(paired[j], TextOf(paired[q].event, ParentToolUseId))
    ensures exists k | 0 <= k < |Group(paired)| :: Group(paired)[k].unit == paired[c] && paired[q] in Group(paired)[k].children
  {
    var parent := TextOf(paired[q].event, ParentToolUseId);
    forall j | 0 <= j < q ensures IsCardFor(paired[j], parent) <==> IsCardWith(paired[j], parent) { }
    hide IsCardWith, TextOf;
    LatestCardIs(paired, q, c, parent);
    assert Owner(paired, q) == Some(c) && Owner(paired, c) == None by { CardsAreTops(paired, c, parent); }
    hide Owner;
    TopsComplete(paired, |paired|, c);
    ChildrenHave(paired, c, |paired|, q);
    var ts := Tops(paired, |paired|);
    var k :| 0 <= k < |ts| && ts[k] == c;
    assert Group(paired)[k] == Node(paired[c], Children(paired, c, |paired|));
  }

  predicate IsCardWith(p: Paired, id: string) {
    p.event.kind == Subagent && TextOf(p.event, ToolUseId) == id
  }

  lemma CardsAreTops(paired: seq<Paired>, c: nat, tuid: string)
    requires c < |paired| && IsCardFor(paired[c], tuid)
    ensures Owner(paired, c) == None
  {
  }

  lemma {:induction false} LatestCardIs(paired: seq<Paired>, n: nat, c: nat, tuid: string)
    requires c < n <= |paired| && IsCardFor(paired[c], tuid) && forall j | c < j < n :: !IsCardFor(paired[j], tuid)
    ensures CardFor(paired, n, tuid) == Some(c)
  {
    hide IsCardFor;
    if c < n - 1 { LatestCardIs(paired, n - 1, c, tuid); }
  }

  lemma {:induction false} ChildrenHave(paired: seq<Paired>, c: nat, h: nat, q: nat)
    requires q < h <= |paired| && Owner(paired, q) == Some(c)
    ensures paired[q] in Children(paired, c, h)
  {
    hide Owner;
    if q < h - 1 { ChildrenHave(paired, c, h - 1, q); }
  }
}
