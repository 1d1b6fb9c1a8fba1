/** Where each event ends up in the browser's tree, and which results it leaves out. */
module TreePlacement {
  import opened Options
  import opened Text
  import opened Transcript
  import opened Pairing
  import opened Grouping
  import opened Placement
  import opened RenderTree

  lemma {:induction false} PlacesAlike(a: seq<Node>, b: seq<Node>, i: nat)
    requires |a| == |b|
    requires forall k | 0 <= k < |a| ::
               a[k].unit.at == b[k].unit.at && a[k].unit.resultAt == b[k].unit.resultAt && a[k].children == b[k].children
    ensures Places(a, i) == Places(b, i)
    decreases |a|
  {
    if a != [] { PlacesAlike(a[..|a| - 1], b[..|b| - 1], i); }
  }

  /** The event has a place of its own in the tree. */
  predicate Stands(r: Role) {
    r.Top? || r.Nested?
  }

  lemma NestedNext(events: seq<Event>, n: nat, i: nat, p: nat)
    requires n < |events| && RoleOf(events, n) == Nested(p)
    ensures Places(TreeOf(events, n + 1), i) == Places(TreeOf(events, n), i) + InUnit(UnitAt(events, n, n + 1), i)
  {
    OwnerIsEarlier(events, n);
    TreeTopsComplete(events, n, p);
    var k :| 0 <= k < |TreeTops(events, n)| && TreeTops(events, n)[k] == p;
    TreeChangesAt(events, n, k);
    hide RoleOf, UnitAt, TreeOf, TreeTops, Places, InUnit;
    PlacesNest(TreeOf(events, n), k, UnitAt(events, n, n + 1), i);
  }

  /** What event `n` adds to the places of event `i`. */
  lemma PlacesNext(events: seq<Event>, n: nat, i: nat)
    requires n < |events|
    ensures Places(TreeOf(events, n + 1), i) ==
            Places(TreeOf(events, n), i) + if Stands(RoleOf(events, n)) then InUnit(UnitAt(events, n, n + 1), i) else 0
  {
    hide RoleOf, UnitAt, TreeOf, NodeAt, TreeTops, Places, Merged;
    var tree, next := TreeOf(events, n), TreeOf(events, n + 1);
    TreeStep(events, n);
    match RoleOf(events, n)
    case Top =>
      assert next == tree + [Node(UnitAt(events, n, n + 1), [])];
      PlacesSnoc(tree, Node(UnitAt(events, n, n + 1), []), i);
    case Nested(p) => NestedNext(events, n, i, p);
    case Merges(_) => PlacesAlike(next, tree, i);
    case Skipped => assert next == tree;
  }

  /** The unit of event `n` holds `i` as its result when `n` is a call that `i` is the last result of. */
  lemma UnitPlaces(events: seq<Event>, n: nat, i: nat)
    requires n < |events| && i < |events|
    ensures (if Stands(RoleOf(events, n)) then InUnit(UnitAt(events, n, n + 1), i) else 0) ==
            One(n == i && Stands(RoleOf(events, i)))
            + One(IsUse(events[n], TextOf(events[i], ToolUseId)) && IsLastResult(events, i)
                  && !IsTaskId(events, TextOf(events[i], ToolUseId)))
  {
    var id := TextOf(events[i], ToolUseId);
    if IsUse(events[n], id) {
      assert IsTaskCall(events, events[n]) <==> IsTaskId(events, id);
      assert Stands(RoleOf(events, n)) <==> !IsTaskId(events, id);
    }
    hide RoleOf, CardAt, IsTaskId;
  }

  lemma NoPlaces(events: seq<Event>, i: nat)
    ensures Places(TreeOf(events, 0), i) == 0
  {
  }

  /** Calls among the first `n` that show event `i` as their result. */
  function Showings(events: seq<Event>, n: nat, i: nat): nat
    requires n <= |events| && i < |events|
  {
    var id := TextOf(events[i], ToolUseId);
    if IsLastResult(events, i) && !IsTaskId(events, id) then Uses(events, n, id) else 0
  }

  lemma ShowingsNext(events: seq<Event>, n: nat, i: nat)
    requires n < |events| && i < |events|
    ensures Showings(events, n + 1, i) ==
            Showings(events, n, i)
            + One(IsUse(events[n], TextOf(events[i], ToolUseId)) && IsLastResult(events, i)
                  && !IsTaskId(events, TextOf(events[i], ToolUseId)))
  {
    hide IsLastResult, IsTaskId, IsUse;
  }

  lemma {:induction false} PlacesUpTo(events: seq<Event>, n: nat, i: nat)
    requires n <= |events| && i < |events|
    ensures Places(TreeOf(events, n), i) == One(i < n && Stands(RoleOf(events, i))) + Showings(events, n, i)
  {
    NoPlaces(events, i);
    hide RoleOf, IsLastResult, IsTaskId, IsUse, UnitAt, TreeOf, Places, Stands, InUnit;
    if n > 0 {
      PlacesUpTo(events, n - 1, i);
      PlacesNext(events, n - 1, i);
      UnitPlaces(events, n - 1, i);
      ShowingsNext(events, n - 1, i);
      hide Showings;
    }
  }

  /** Exactly how often event `i` is shown, for every stream. */
  lemma TreePlacedExactly(events: seq<Event>, i: nat)
    requires i < |events|
    ensures var e := events[i];
            Places(TreeOf(events, |events|), i) ==
            One(if e.kind.Subagent? then OpensCard(events, i)
                else !Dropped(events, i) && !IsTaskCall(events, e) && !ShownWithCall(events, i))
            + Showings(events, |events|, i)
  {
    PlacesUpTo(events, |events|, i);
    hide Dropped, IsTaskCall, ShownWithCall, IsLastResult, IsTaskId, TreeOf;
  }

  /**
   On well-formed streams each event is shown exactly once, except dropped results, merged
   sub-agent events, and the calls that started a sub-agent: their card stands for them.
   */
  lemma WellFormedTreePlacesOnce(events: seq<Event>, i: nat)
    requires WellFormed(events) && i < |events|
    ensures var e := events[i];
            Places(TreeOf(events, |events|), i) ==
            One(!Dropped(events, i) && !IsTaskCall(events, e) && !(e.kind.Subagent? && !OpensCard(events, i)))
  {
    var id := TextOf(events[i], ToolUseId);
    TreePlacedExactly(events, i);
    if events[i].kind.ToolResult? {
      UsesAtMostOne(events, |events|, id);
      UseBeforeCounts(events, |events|, id);
      UseBeforeCounts(events, i, id);
      UsesGrow(events, i, |events|, id);
      if UseBefore(events, |events|, id) {
        var j :| 0 <= j < |events| && IsUse(events[j], id);
        assert UseBefore(events, i, id);
        assert IsResultOf(events[i], id);
        assert IsLastResult(events, i);
      }
    }
    hide TreeOf, IsTaskId, OpensCard;
  }

  /** A tool result is shown exactly once if and only if its id behaves. */
  lemma ResultInTreeOnce(events: seq<Event>, i: nat)
    requires i < |events| && events[i].kind.ToolResult?
    ensures var id := TextOf(events[i], ToolUseId);
            Places(TreeOf(events, |events|), i) == 1 <==>
              || IsTaskId(events, id)
              || (if IsLastResult(events, i) then Uses(events, |events|, id) == Uses(events, i, id) <= 1
                  else Uses(events, i, id) == 0)
  {
    var id := TextOf(events[i], ToolUseId);
    TreePlacedExactly(events, i);
    UseBeforeCounts(events, i, id);
    UsesGrow(events, i, |events|, id);
    hide TreeOf, UseBefore, IsLastResult, IsTaskId;
  }

  // ---- Content and order ----

  lemma {:induction false} TreeChildrenOwned(events: seq<Event>, p: nat, h: nat)
    requires p < |events| && h <= |events|
    ensures forall c | c in TreeChildren(events, p, h) ::
              c.at < h && RoleOf(events, c.at) == Nested(p) && c == UnitAt(events, c.at, c.at + 1)
    ensures Increasing(TreeChildren(events, p, h))
    decreases h
  {
    hide RoleOf, UnitAt;
    if h > 0 {
      TreeChildrenOwned(events, p, h - 1);
      UnitStands(events, h - 1, h);
    }
  }

  lemma UnitStands(events: seq<Event>, i: nat, h: nat)
    requires i < h <= |events|
    ensures UnitAt(events, i, h).at == i
  {
    hide CardAt, LastResult;
  }

  /**
   A tree node holds the event it stands for, in stream order; its children come after it,
   name its tool id as their parent, and no later card before them was opened for that id.
   */
  lemma TreeNesting(events: seq<Event>, k: nat, c: Paired)
    requires k < |TreeOf(events, |events|)|
    ensures var tree := TreeOf(events, |events|);
            var card := tree[k].unit.at;
            && card < |events|
            && (k + 1 < |tree| ==> card < tree[k + 1].unit.at)
            && Increasing(tree[k].children)
            && (c in tree[k].children ==>
                  && card < c.at < |events| && c.event == events[c.at]
                  && StrOf(events[card], ToolUseId) == StrOf(events[c.at], ParentToolUseId)
                  && OpensCard(events, card)
                  && forall j | card < j < c.at :: !OpensCardFor(events, j, TextOf(events[c.at], ParentToolUseId)))
  {
    var n := |events|;
    var ts := TreeTops(events, n);
    assert TreeOf(events, n)[k] == NodeAt(events, ts[k], n);
    UnitStands(events, ts[k], n);
    if k + 1 < |ts| {
      assert TreeOf(events, n)[k + 1] == NodeAt(events, ts[k + 1], n);
      UnitStands(events, ts[k + 1], n);
    }
    TreeChildrenOwned(events, ts[k], n);
    if c in TreeOf(events, n)[k].children {
      hide TreeOf, CardAt, LastResult, Dropped, IsTaskCall, ShownWithCall;
      assert RoleOf(events, c.at) == Nested(ts[k]);
    }
    hide TreeOf, UnitAt, RoleOf, TreeChildren;
  }

  // ---- Dropped results ----

  /** Top-level prose is a top of the tree. */
  lemma ProseIsTop(events: seq<Event>, j: nat) returns (k: nat)
    requires j < |events| && TopProse(events[j])
    ensures k < |TreeOf(events, |events|)| && TreeOf(events, |events|)[k].unit.at == j
  {
    ProseStands(events, j);
    TreeTopsComplete(events, |events|, j);
    hide RoleOf, TopProse;
    var ts := TreeTops(events, |events|);
    k :| 0 <= k < |ts| && ts[k] == j;
    assert TreeOf(events, |events|)[k] == NodeAt(events, j, |events|);
    UnitStands(events, j, |events|);
    hide TreeOf, UnitAt;
  }

  lemma ProseStands(events: seq<Event>, j: nat)
    requires j < |events| && TopProse(events[j])
    ensures RoleOf(events, j) == Top
  {
    assert TextOf(events[j], ParentToolUseId) == "" && !events[j].kind.Subagent?;
    ProseIsKept(events, j);
    hide TopProse, Dropped, IsTaskCall, ShownWithCall, TextOf;
  }

  lemma ProseIsKept(events: seq<Event>, j: nat)
    requires j < |events| && TopProse(events[j])
    ensures !Dropped(events, j) && !IsTaskCall(events, events[j]) && !ShownWithCall(events, j)
  {
    assert !events[j].kind.Result? && !events[j].kind.ToolUse? && !events[j].kind.ToolResult?;
    hide Trim, EchoesAssistant, IsErrorResult, LastAssistant, UseBefore, IsTaskId, TextOf;
  }

  /**
   A result is dropped exactly when it is no error and the turn still open already shows, at
   top level, a latest prose that the summary extends or repeats at one end.
   */
  lemma DroppedExactly(events: seq<Event>, i: nat)
    requires i < |events| && events[i].kind.Result?
    ensures Dropped(events, i) <==>
            && !IsErrorResult(events[i])
            && Trim(Js, TextOf(events[i], Summary)) != ""
            && exists j | 0 <= j < i :: RepeatsProse(events, i, j)
  {
    hide Trim, IsErrorResult;
    TurnProseIs(events, i);
    if Dropped(events, i) {
      var j := TurnProse(events, i).value;
      var k := ProseIsTop(events, j);
      assert RepeatsProse(events, i, j);
    }
    if j :| 0 <= j < i && RepeatsProse(events, i, j) {
      assert TurnProse(events, i) == Some(j) by { hide RoleOf, TreeOf; }
      hide TreeOf, TurnProse;
    }
  }

  /** `j` is the latest top-level prose of the turn that result `i` closes, is shown, and overlaps its summary. */
  ghost predicate RepeatsProse(events: seq<Event>, i: nat, j: nat)
    requires j < i < |events|
  {
    && TopProse(events[j])
    && (forall u | j < u < i :: !OpensTurn(events[u]) && !TopProse(events[u]))
    && (exists k | 0 <= k < |TreeOf(events, |events|)| :: TreeOf(events, |events|)[k].unit.at == j)
    && Comparable(Trim(Js, TextOf(events[i], Summary)), Trim(Js, TextOf(events[j], TextField)))
  }
}
