/** The server's forest and the browser's tree of one stream: exactly when they have the same outline. */
module ViewsAgree {
  import opened Options
  import opened Transcript
  import opened Pairing
  import opened Grouping
  import opened Placement
  import opened RenderTree

  // ---- Outlines ----

  /** A place on the page: the event that stands there, and the result shown with it. */
  datatype Mark = Mark(at: nat, resultAt: Option<nat>)

  datatype Outline = Outline(top: Mark, children: seq<Mark>)

  function MarkOf(p: Paired): Mark {
    Mark(p.at, p.resultAt)
  }

  function Marks(ps: seq<Paired>): seq<Mark> {
    seq(|ps|, k requires 0 <= k < |ps| => MarkOf(ps[k]))
  }

  /** The shape of a forest, without the contents of its events. */
  function Outlines(forest: seq<Node>): seq<Outline> {
    seq(|forest|, k requires 0 <= k < |forest| => Outline(MarkOf(forest[k].unit), Marks(forest[k].children)))
  }

  /** Where an event goes. */
  datatype Spot = Gone | OnTop | Under(card: nat)

  function AddChild(o: seq<Outline>, p: nat, m: Mark): seq<Outline> {
    seq(|o|, k requires 0 <= k < |o| => if o[k].top.at == p then Outline(o[k].top, o[k].children + [m]) else o[k])
  }

  function Place(o: seq<Outline>, spot: Spot, m: Mark): seq<Outline> {
    match spot
    case Gone => o
    case OnTop => o + [Outline(m, [])]
    case Under(p) => AddChild(o, p, m)
  }

  /** The result an event is shown with, if it is a call. */
  function OwnMark(events: seq<Event>, i: nat): Mark
    requires i < |events|
  {
    Mark(i, if events[i].kind.ToolUse? then LastResult(events, |events|, TextOf(events[i], Id)) else None)
  }

  /** The outline that puts one event after another in its spot. */
  function Build(events: seq<Event>, spots: seq<Spot>, n: nat): seq<Outline>
    requires n <= |spots| == |events|
  {
    if n == 0 then [] else Place(Build(events, spots, n - 1), spots[n - 1], OwnMark(events, n - 1))
  }

  lemma BuildNext(events: seq<Event>, spots: seq<Spot>, n: nat)
    requires n < |spots| == |events|
    ensures Build(events, spots, n + 1) == Place(Build(events, spots, n), spots[n], OwnMark(events, n))
    ensures Build(events, spots, 0) == []
  {
    hide Place, OwnMark;
  }

  /** Cards stand on top, before what is nested under them. */
  predicate Sound(spots: seq<Spot>) {
    forall i | 0 <= i < |spots| && spots[i].Under? :: spots[i].card < i && spots[spots[i].card] == OnTop
  }

  // ---- An outline tells where each event went ----

  predicate OnTopIn(o: seq<Outline>, i: nat) {
    exists k | 0 <= k < |o| :: o[k].top.at == i
  }

  predicate UnderIn(o: seq<Outline>, i: nat, p: nat) {
    exists k, c | 0 <= k < |o| && 0 <= c < |o[k].children| :: o[k].top.at == p && o[k].children[c].at == i
  }

  lemma OnTopPlace(o: seq<Outline>, spot: Spot, m: Mark, i: nat)
    ensures OnTopIn(Place(o, spot, m), i) <==> OnTopIn(o, i) || (spot.OnTop? && m.at == i)
  {
    var q := Place(o, spot, m);
    if k :| 0 <= k < |o| && o[k].top.at == i {
      assert q[k].top.at == i;
    }
    if spot.OnTop? { assert q[|o|].top == m; }
  }

  lemma UnderPlace(o: seq<Outline>, spot: Spot, m: Mark, i: nat, p: nat)
    ensures UnderIn(Place(o, spot, m), i, p) <==> UnderIn(o, i, p) || (spot == Under(p) && m.at == i && OnTopIn(o, p))
  {
    var q := Place(o, spot, m);
    if k, c :| 0 <= k < |o| && 0 <= c < |o[k].children| && o[k].top.at == p && o[k].children[c].at == i {
      assert q[k].top.at == p && q[k].children[c].at == i;
    }
    if spot == Under(p) && m.at == i && OnTopIn(o, p) {
      var k :| 0 <= k < |o| && o[k].top.at == p;
      assert q[k].children[|o[k].children|] == m;
    }
    if k, c :| 0 <= k < |q| && 0 <= c < |q[k].children| && q[k].top.at == p && q[k].children[c].at == i {
      if k < |o| && c < |o[k].children| {
        assert o[k].top.at == p && o[k].children[c].at == i;
      } else {
        assert k < |o| && o[k].top.at == p;
      }
    }
  }

  lemma {:induction false} SpotsShow(events: seq<Event>, spots: seq<Spot>, n: nat, i: nat, p: nat)
    requires n <= |spots| == |events| && Sound(spots)
    ensures OnTopIn(Build(events, spots, n), i) <==> i < n && spots[i] == OnTop
    ensures UnderIn(Build(events, spots, n), i, p) <==> i < n && spots[i] == Under(p)
  {
    if n > 0 {
      var o := Build(events, spots, n - 1);
      SpotsShow(events, spots, n - 1, i, p);
      SpotsShow(events, spots, n - 1, p, p);
      OnTopPlace(o, spots[n - 1], OwnMark(events, n - 1), i);
      UnderPlace(o, spots[n - 1], OwnMark(events, n - 1), i, p);
      hide Place, OnTopIn, UnderIn;
    }
  }

  /** Equal outlines come from equal spots only. */
  lemma OutlinesTellSpots(events: seq<Event>, a: seq<Spot>, b: seq<Spot>)
    requires |a| == |b| == |events| && Sound(a) && Sound(b)
    ensures Build(events, a, |events|) == Build(events, b, |events|) <==> a == b
  {
    if Build(events, a, |events|) == Build(events, b, |events|) {
      forall i | 0 <= i < |a| ensures a[i] == b[i] {
        var p, q := if a[i].Under? then a[i].card else 0, if b[i].Under? then b[i].card else 0;
        SpotsShow(events, a, |events|, i, p);
        SpotsShow(events, b, |events|, i, p);
        SpotsShow(events, a, |events|, i, q);
        SpotsShow(events, b, |events|, i, q);
        hide Build, Sound, OnTopIn, UnderIn;
      }
    }
  }

  // ---- The browser's tree ----

  function TreeSpot(events: seq<Event>, i: nat): Spot
    requires i < |events|
  {
    match RoleOf(events, i)
    case Skipped | Merges(_) => Gone
    case Top => OnTop
    case Nested(p) => Under(p)
  }

  function TreeSpots(events: seq<Event>): seq<Spot> {
    seq(|events|, i requires 0 <= i < |events| => TreeSpot(events, i))
  }

  lemma UnitMark(events: seq<Event>, i: nat, h: nat)
    requires i < h <= |events|
    ensures MarkOf(UnitAt(events, i, h)) == OwnMark(events, i)
  {
    hide LastResult, CardAt;
  }

  lemma NodeAfterMark(events: seq<Event>, i: nat, n: nat)
    requires i < n < |events|
    ensures var node, next := NodeAt(events, i, n), NodeAfter(events, i, n);
            && MarkOf(next.unit) == MarkOf(node.unit) == OwnMark(events, i)
            && Marks(next.children) ==
               Marks(node.children) + if RoleOf(events, n) == Nested(i) then [OwnMark(events, n)] else []
  {
    UnitMark(events, i, n);
    UnitMark(events, n, n + 1);
    hide RoleOf, UnitAt, OwnMark, TreeChildren;
  }

  /** An outline that differs from another in one spot only. */
  lemma PlaceIs(o: seq<Outline>, q: seq<Outline>, spot: Spot, m: Mark)
    requires |q| == |o| + if spot.OnTop? then 1 else 0
    requires forall k | 0 <= k < |o| ::
               q[k].top == o[k].top && q[k].children == o[k].children + if spot == Under(o[k].top.at) then [m] else []
    requires spot.OnTop? ==> q[|o|] == Outline(m, [])
    ensures q == Place(o, spot, m)
  {
    forall k | 0 <= k < |o| && spot != Under(o[k].top.at) ensures q[k] == o[k] {
      assert o[k].children + [] == o[k].children;
    }
  }

  lemma TreeOutlineStep(events: seq<Event>, n: nat)
    requires n < |events|
    ensures Outlines(TreeOf(events, n + 1)) == Place(Outlines(TreeOf(events, n)), TreeSpot(events, n), OwnMark(events, n))
  {
    var ts, tree, next := TreeTops(events, n), TreeOf(events, n), TreeOf(events, n + 1);
    TreeStep(events, n);
    UnitMark(events, n, n + 1);
    hide RoleOf, UnitAt, OwnMark, TreeOf, TreeTops, NodeAt, NodeAfter, Place;
    var o, q := Outlines(tree), Outlines(next);
    OutlineCounts(tree);
    OutlineCounts(next);
    forall k | 0 <= k < |o|
      ensures q[k].top == o[k].top
      ensures q[k].children == o[k].children + if TreeSpot(events, n) == Under(o[k].top.at) then [OwnMark(events, n)] else []
    {
      NodeAfterMark(events, ts[k], n);
      OwnMarkAt(events, ts[k]);
    }
    if RoleOf(events, n).Top? { LastOutline(next); }
    hide Outlines;
    PlaceIs(o, q, TreeSpot(events, n), OwnMark(events, n));
  }

  lemma OwnMarkAt(events: seq<Event>, i: nat)
    requires i < |events|
    ensures OwnMark(events, i).at == i
  {
  }

  lemma OutlineCounts(forest: seq<Node>)
    ensures |Outlines(forest)| == |forest|
  {
  }

  lemma LastOutline(forest: seq<Node>)
    requires forest != [] && forest[|forest| - 1].children == []
    ensures Outlines(forest)[|forest| - 1] == Outline(MarkOf(forest[|forest| - 1].unit), [])
  {
  }

  lemma EmptyTree(events: seq<Event>)
    ensures Outlines(TreeOf(events, 0)) == [] == Build(events, TreeSpots(events), 0)
  {
    assert TreeOf(events, 0) == [];
    hide TreeOf, TreeSpot;
  }

  ghost predicate TreeBuilt(events: seq<Event>, n: nat)
    requires n <= |events|
  {
    Outlines(TreeOf(events, n)) == Build(events, TreeSpots(events), n)
  }

  lemma TreeBuiltNext(events: seq<Event>, n: nat)
    requires n < |events| && TreeBuilt(events, n)
    ensures TreeBuilt(events, n + 1)
  {
    TreeSpotsAt(events, n);
    TreeOutlineStep(events, n);
    BuildNext(events, TreeSpots(events), n);
    hide Outlines, TreeOf, Build, TreeSpots, TreeSpot, OwnMark, Place;
  }

  lemma {:induction false} TreeOutline(events: seq<Event>, n: nat)
    requires n <= |events|
    ensures TreeBuilt(events, n)
  {
    EmptyTree(events);
    hide Outlines, TreeOf, Build, TreeSpots;
    if n > 0 {
      hide TreeBuilt;
      TreeOutline(events, n - 1);
      TreeBuiltNext(events, n - 1);
    }
  }

  lemma TreeSpotsAt(events: seq<Event>, i: nat)
    requires i < |events|
    ensures |TreeSpots(events)| == |events| && TreeSpots(events)[i] == TreeSpot(events, i)
  {
    hide TreeSpot;
  }

  lemma TreeSpotsSound(events: seq<Event>)
    ensures Sound(TreeSpots(events))
  {
    var spots := TreeSpots(events);
    forall i | 0 <= i < |events| && spots[i].Under? ensures spots[i].card < i && spots[spots[i].card] == OnTop {
      OwnerIsEarlier(events, i);
      hide RoleOf;
    }
  }

  // ---- The server's forest ----

  /** The tool id of the card opened at `j`, as all its agent's events have left it. */
  function CardId(events: seq<Event>, j: nat): string
    requires j < |events|
  {
    TextOf(CardAt(events, j, |events|, MergeSet()), ToolUseId)
  }

  /** The latest card among the first `n` events that ends up with this id. */
  function CardBefore(events: seq<Event>, n: nat, tuid: string): (r: Option<nat>)
    requires n <= |events|
    ensures r.Some? ==> r.value < n && OpensCard(events, r.value)
  {
    if n == 0 then None
    else if tuid != "" && OpensCard(events, n - 1) && CardId(events, n - 1) == tuid then Some(n - 1)
    else CardBefore(events, n - 1, tuid)
  }

  function ForestSpot(events: seq<Event>, i: nat): Spot
    requires i < |events|
  {
    if Hidden(events, i) then Gone
    else if events[i].kind.Subagent? then OnTop
    else match CardBefore(events, i, TextOf(events[i], ParentToolUseId))
         case None => OnTop
         case Some(j) => Under(j)
  }

  function ForestSpots(events: seq<Event>): seq<Spot> {
    seq(|events|, i requires 0 <= i < |events| => ForestSpot(events, i))
  }

  lemma {:induction false} FoldKeepsKind(card: Event, key: string, rest: seq<Event>, rule: Rule)
    ensures Folded(card, key, rest, rule).kind == card.kind
    decreases |rest|
  {
    if rest != [] { FoldKeepsKind(card, key, rest[..|rest| - 1], rule); }
  }

  /** How many units the first `n` events have yielded. */
  function Count(events: seq<Event>, n: nat): nat
    requires n <= |events|
  {
    |PairsUpTo(events, n, |events|)|
  }

  lemma {:induction false} PairsPrefix(events: seq<Event>, n: nat, h: nat)
    requires n <= h <= |events|
    ensures PairsUpTo(events, n, |events|) <= PairsUpTo(events, h, |events|)
    decreases h
  {
    hide Emit;
    if n < h { PairsPrefix(events, n, h - 1); }
  }

  /** The unit of event `n`, where it has one, is the next one. */
  lemma NextUnit(events: seq<Event>, n: nat)
    requires n < |events|
    ensures match Emit(events, n, |events|)
            case None => Count(events, n + 1) == Count(events, n)
            case Some(p) =>
              Count(events, n + 1) == Count(events, n) + 1 <= |Pairs(events)| && Pairs(events)[Count(events, n)] == p
  {
    PairsPrefix(events, n + 1, |events|);
    hide Emit;
    if Emit(events, n, |events|).Some? {
      assert PairsUpTo(events, n + 1, |events|)[Count(events, n)] == Emit(events, n, |events|).value;
    }
  }

  lemma CountFits(events: seq<Event>, n: nat)
    requires n <= |events|
    ensures Count(events, n) <= |Pairs(events)|
  {
    PairsPrefix(events, n, |events|);
    hide PairsUpTo;
  }

  /** What the unit of event `n` is. */
  lemma UnitIs(events: seq<Event>, n: nat, p: Paired)
    requires n < |events| && Emit(events, n, |events|) == Some(p)
    ensures !Hidden(events, n) && MarkOf(p) == OwnMark(events, n)
    ensures p.event.kind == events[n].kind
    ensures events[n].kind.Subagent? ==> OpensCard(events, n) && TextOf(p.event, ToolUseId) == CardId(events, n)
    ensures !events[n].kind.Subagent? ==> p.event == events[n]
  {
    FoldKeepsKind(events[n], Key(events[n]), events[n + 1..|events|], MergeSet());
    hide Echo, OpensCard, UseBefore, LastResult, Folded, MergeSet, Key, TextOf;
  }

  predicate IsCard(events: seq<Event>, j: nat, tuid: string)
    requires j < |events|
  {
    tuid != "" && OpensCard(events, j) && CardId(events, j) == tuid
  }

  /** A unit is a card for an id when its event opened one that ends up with it. */
  lemma CardUnit(events: seq<Event>, n: nat, p: Paired, tuid: string)
    requires n < |events| && Emit(events, n, |events|) == Some(p)
    ensures IsCardFor(p, tuid) <==> IsCard(events, n, tuid)
    ensures p.at == n
  {
    UnitIs(events, n, p);
    EmitAt(events, n, |events|);
    hide Emit, CardId, TextOf, AgentBefore, MarkOf, OwnMark, Hidden;
  }

  lemma CardBeforeStep(events: seq<Event>, n: nat, tuid: string)
    requires n < |events|
    ensures CardBefore(events, n + 1, tuid) == if IsCard(events, n, tuid) then Some(n) else CardBefore(events, n, tuid)
  {
    hide CardId, OpensCard;
  }

  lemma CardForStep(paired: seq<Paired>, n: nat, tuid: string)
    requires n < |paired|
    ensures CardFor(paired, n + 1, tuid) == if IsCardFor(paired[n], tuid) then Some(n) else CardFor(paired, n, tuid)
  {
    hide IsCardFor;
  }

  lemma NoCardYet(events: seq<Event>, tuid: string)
    ensures Count(events, 0) == 0 && CardFor(Pairs(events), 0, tuid) == None && CardBefore(events, 0, tuid) == None
  {
    hide Pairs;
  }

  /** The dictionary of cards by id, told in events instead of units. */
  ghost predicate CardsAgree(events: seq<Event>, n: nat, tuid: string)
    requires n <= |events|
  {
    Count(events, n) <= |Pairs(events)| &&
    match CardFor(Pairs(events), Count(events, n), tuid)
    case None => CardBefore(events, n, tuid).None?
    case Some(c) => c < |Pairs(events)| && CardBefore(events, n, tuid) == Some(Pairs(events)[c].at)
  }

  lemma CardsAgreeNext(events: seq<Event>, n: nat, tuid: string)
    requires n < |events| && CardsAgree(events, n, tuid)
    ensures CardsAgree(events, n + 1, tuid)
  {
    NextUnit(events, n);
    CardBeforeStep(events, n, tuid);
    hide Count, Pairs, Emit, IsCard, IsCardFor, CardBefore, CardFor;
    match Emit(events, n, |events|)
    case None =>
      HiddenMeansNotEmitted(events, n);
      HiddenIsNoCard(events, n, tuid);
      hide Hidden;
    case Some(p) =>
      CardUnit(events, n, p, tuid);
      CardForStep(Pairs(events), Count(events, n), tuid);
  }

  lemma {:induction false} CardForIsCardBefore(events: seq<Event>, n: nat, tuid: string)
    requires n <= |events|
    ensures CardsAgree(events, n, tuid)
  {
    NoCardYet(events, tuid);
    hide Count, Pairs, CardFor, CardBefore;
    if n > 0 {
      hide CardsAgree;
      CardForIsCardBefore(events, n - 1, tuid);
      CardsAgreeNext(events, n - 1, tuid);
    }
  }

  lemma HiddenIsNoCard(events: seq<Event>, i: nat, tuid: string)
    requires i < |events| && Hidden(events, i)
    ensures !IsCard(events, i, tuid)
  {
    hide AgentBefore, Echo, UseBefore, CardId;
  }

  lemma OwnerSpot(events: seq<Event>, n: nat, p: Paired)
    requires n < |events| && Emit(events, n, |events|) == Some(p)
    ensures Count(events, n) < |Pairs(events)| && Pairs(events)[Count(events, n)] == p
    ensures match Owner(Pairs(events), Count(events, n))
            case None => ForestSpot(events, n) == OnTop
            case Some(c) => c < |Pairs(events)| && ForestSpot(events, n) == Under(Pairs(events)[c].at)
  {
    NextUnit(events, n);
    UnitIs(events, n, p);
    CardForIsCardBefore(events, n, TextOf(events[n], ParentToolUseId));
    hide Count, Pairs, Emit, Hidden, TextOf, CardFor, CardBefore, MarkOf, OwnMark;
  }

  lemma PlaceTop(forest: seq<Node>, unit: Paired)
    ensures Outlines(forest + [Node(unit, [])]) == Place(Outlines(forest), OnTop, MarkOf(unit))
  {
    assert Marks([]) == [];
    assert Outlines(forest + [Node(unit, [])]) == Outlines(forest) + [Outline(MarkOf(unit), [])];
  }

  lemma PlaceUnder(forest: seq<Node>, k: nat, unit: Paired)
    requires k < |forest| && forall j | 0 <= j < |forest| && j != k :: forest[j].unit.at != forest[k].unit.at
    ensures Outlines(forest[k := Node(forest[k].unit, forest[k].children + [unit])]) ==
            Place(Outlines(forest), Under(forest[k].unit.at), MarkOf(unit))
  {
    var next := forest[k := Node(forest[k].unit, forest[k].children + [unit])];
    assert Marks(next[k].children) == Marks(forest[k].children) + [MarkOf(unit)];
    assert forall j | 0 <= j < |forest| && j != k :: next[j] == forest[j];
    hide Marks;
  }

  /** The tops of a forest stand at different events. */
  lemma TopsDiffer(events: seq<Event>, n: nat)
    requires n <= |Pairs(events)|
    ensures var f, ts := Forest(Pairs(events), n), Tops(Pairs(events), n);
            && |f| == |ts|
            && (forall k | 0 <= k < |f| :: f[k].unit == Pairs(events)[ts[k]])
            && forall j, k | 0 <= j < k < |f| :: f[j].unit.at != f[k].unit.at
  {
    PairsInOrder(events, |events|, |events|);
    assert Increasing(Pairs(events));
    hide Pairs, Owner, Children;
  }

  lemma ForestOutlineStep(events: seq<Event>, n: nat)
    requires n < |events|
    ensures Count(events, n) <= |Pairs(events)| && Count(events, n + 1) <= |Pairs(events)|
    ensures Outlines(Forest(Pairs(events), Count(events, n + 1))) ==
            Place(Outlines(Forest(Pairs(events), Count(events, n))), ForestSpot(events, n), OwnMark(events, n))
  {
    CountFits(events, n);
    CountFits(events, n + 1);
    NextUnit(events, n);
    HiddenMeansNotEmitted(events, n);
    if Emit(events, n, |events|).Some? {
      var p := Emit(events, n, |events|).value;
      hide *;
      UnitIs(events, n, p);
      PlaceUnit(events, n, p);
    } else {
      hide Pairs, Emit, Hidden, Forest, Outlines, OwnMark, Count;
    }
  }

  lemma PlaceUnit(events: seq<Event>, n: nat, p: Paired)
    requires n < |events| && Emit(events, n, |events|) == Some(p)
    ensures Count(events, n) < |Pairs(events)|
    ensures Outlines(Forest(Pairs(events), Count(events, n) + 1)) ==
            Place(Outlines(Forest(Pairs(events), Count(events, n))), ForestSpot(events, n), MarkOf(p))
  {
    hide *;
    OwnerSpot(events, n, p);
    var ps, q := Pairs(events), Count(events, n);
    ForestStep(ps, q);
    TopsDiffer(events, q);
    var f := Forest(ps, q);
    match Owner(ps, q)
    case None => PlaceTop(f, p);
    case Some(c) =>
      var k :| 0 <= k < |Tops(ps, q)| && Tops(ps, q)[k] == c
               && Forest(ps, q + 1) == f[k := Node(f[k].unit, f[k].children + [p])];
      PlaceUnder(f, k, p);
  }

  lemma EmptyForest(events: seq<Event>)
    ensures Count(events, 0) == 0
    ensures Outlines(Forest(Pairs(events), 0)) == [] == Build(events, ForestSpots(events), 0)
  {
    assert Forest(Pairs(events), 0) == [];
    hide Pairs, Forest, ForestSpot;
  }

  ghost predicate ForestBuilt(events: seq<Event>, n: nat)
    requires n <= |events|
  {
    Count(events, n) <= |Pairs(events)| &&
    Outlines(Forest(Pairs(events), Count(events, n))) == Build(events, ForestSpots(events), n)
  }

  lemma ForestBuiltNext(events: seq<Event>, n: nat)
    requires n < |events| && ForestBuilt(events, n)
    ensures ForestBuilt(events, n + 1)
  {
    ForestSpotsAt(events, n);
    ForestOutlineStep(events, n);
    BuildNext(events, ForestSpots(events), n);
    hide Outlines, Forest, Build, ForestSpots, ForestSpot, OwnMark, Place, Pairs, Count;
  }

  lemma {:induction false} ForestOutline(events: seq<Event>, n: nat)
    requires n <= |events|
    ensures ForestBuilt(events, n)
  {
    EmptyForest(events);
    hide Outlines, Forest, Build, ForestSpots, Pairs, Count;
    if n > 0 {
      hide ForestBuilt;
      ForestOutline(events, n - 1);
      ForestBuiltNext(events, n - 1);
    }
  }

  lemma ForestSpotsAt(events: seq<Event>, i: nat)
    requires i < |events|
    ensures |ForestSpots(events)| == |events| && ForestSpots(events)[i] == ForestSpot(events, i)
  {
    hide ForestSpot;
  }

  lemma ForestSpotsSound(events: seq<Event>)
    ensures Sound(ForestSpots(events))
  {
    var spots := ForestSpots(events);
    forall i | 0 <= i < |events| && spots[i].Under? ensures spots[i].card < i && spots[spots[i].card] == OnTop {
      var j := spots[i].card;
      assert OpensCard(events, j) by { hide Hidden, TextOf, OpensCard; }
      hide CardBefore, Echo, AgentBefore, UseBefore;
    }
  }

  // ---- When the two agree ----

  /** What a stream must be like for both views to lay it out alike. */
  ghost predicate ReadAlike(events: seq<Event>) {
    // every result repeats its turn's prose, or none repeats the closing one
    && (forall i | 0 <= i < |events| && events[i].kind.Result? :: Dropped(events, i) <==> Echo(events))
    // no call started a sub-agent
    && (forall i | 0 <= i < |events| :: !IsTaskCall(events, events[i]))
    // the card a shown event names is the same by the ids cards open with and by those they end with
    && (forall i | 0 <= i < |events| && !Hidden(events, i) && !events[i].kind.Subagent? :: SameOwner(events, i))
  }

  predicate SameOwner(events: seq<Event>, i: nat)
    requires i < |events|
  {
    var parent := TextOf(events[i], ParentToolUseId);
    parent != "" ==> OpenedFor(events, i, parent) == CardBefore(events, i, parent)
  }

  lemma NoNamelessCard(events: seq<Event>, n: nat)
    requires n <= |events|
    ensures CardBefore(events, n, "") == None
  {
    hide OpensCard, CardId;
  }

  lemma AgentRole(events: seq<Event>, i: nat)
    requires i < |events| && events[i].kind.Subagent?
    ensures TreeSpot(events, i) == ForestSpot(events, i)
  {
    hide UseBefore, Echo, Key;
  }

  /** With no task calls, the browser leaves out the results the server does. */
  lemma ShownWithCallAlike(events: seq<Event>, i: nat)
    requires i < |events| && forall j | 0 <= j < |events| :: !IsTaskCall(events, events[j])
    ensures ShownWithCall(events, i) <==> events[i].kind.ToolResult? && UseBefore(events, i, TextOf(events[i], ToolUseId))
  {
    var id := TextOf(events[i], ToolUseId);
    if UseBefore(events, i, id) {
      var j :| 0 <= j < i && IsUse(events[j], id);
      assert !IsTaskCall(events, events[j]);
      hide IsTaskId;
    }
  }

  /** The rules for one event that is no sub-agent's. */
  lemma SpotRules(events: seq<Event>, i: nat)
    requires i < |events| && !events[i].kind.Subagent?
    ensures TreeSpot(events, i) == Gone <==>
              Dropped(events, i) || IsTaskCall(events, events[i]) || ShownWithCall(events, i)
    ensures ForestSpot(events, i) == Gone <==>
              || (events[i].kind.Result? && Echo(events))
              || (events[i].kind.ToolResult? && UseBefore(events, i, TextOf(events[i], ToolUseId)))
    ensures TreeSpot(events, i) != Gone && ForestSpot(events, i) != Gone ==>
              (TreeSpot(events, i) == ForestSpot(events, i) <==> SameOwner(events, i))
  {
    NoNamelessCard(events, i);
    hide Dropped, IsTaskCall, ShownWithCall, UseBefore, Echo, TextOf, OpensCard, OpenedFor, CardBefore;
  }

  lemma Kinds(events: seq<Event>, i: nat)
    requires i < |events|
    ensures Dropped(events, i) ==> events[i].kind.Result?
    ensures IsTaskCall(events, events[i]) ==> events[i].kind.ToolUse?
    ensures ShownWithCall(events, i) ==> events[i].kind.ToolResult?
  {
    hide IsTaskId, UseBefore, IsErrorResult, EchoesAssistant, LastAssistant;
  }

  lemma AlikeSpots(events: seq<Event>, i: nat)
    requires ReadAlike(events) && i < |events|
    ensures TreeSpot(events, i) == ForestSpot(events, i)
  {
    if events[i].kind.Subagent? {
      AgentRole(events, i);
    } else {
      SpotRules(events, i);
      ShownWithCallAlike(events, i);
      Kinds(events, i);
    }
    hide TreeSpot, SameOwner, Dropped, IsTaskCall, ShownWithCall, UseBefore, Echo;
  }

  lemma SpotsAlike(events: seq<Event>)
    requires forall i | 0 <= i < |events| :: TreeSpot(events, i) == ForestSpot(events, i)
    ensures ReadAlike(events)
  {
    hide TreeSpot, ForestSpot, SameOwner, Dropped, IsTaskCall, ShownWithCall, UseBefore, Echo;
    forall i | 0 <= i < |events|
      ensures events[i].kind.Result? ==> (Dropped(events, i) <==> Echo(events))
      ensures !IsTaskCall(events, events[i])
      ensures !Hidden(events, i) && !events[i].kind.Subagent? ==> SameOwner(events, i)
    {
      Kinds(events, i);
      if !events[i].kind.Subagent? { SpotRules(events, i); }
    }
  }

  /**
   The browser's tree and the server's forest of a stream have the same outline (the same
   events and results, in the same order, under the same cards) if and only if the results that
   echo are the same, no call started a sub-agent, and ids name the same cards throughout.
   */
  lemma ViewsAgreeExactly(events: seq<Event>)
    ensures Outlines(TreeOf(events, |events|)) == Outlines(Group(Pairs(events))) <==> ReadAlike(events)
  {
    hide *;
    BothBuilt(events);
    TreeSpotsSound(events);
    ForestSpotsSound(events);
    SpotCounts(events);
    OutlinesTellSpots(events, TreeSpots(events), ForestSpots(events));
    SameSpots(events);
  }

  lemma BothBuilt(events: seq<Event>)
    ensures Outlines(TreeOf(events, |events|)) == Build(events, TreeSpots(events), |events|)
    ensures Outlines(Group(Pairs(events))) == Build(events, ForestSpots(events), |events|)
  {
    TreeOutline(events, |events|);
    ForestOutline(events, |events|);
    hide PairsUpTo, Forest, Outlines, TreeOf, Build, TreeSpots, ForestSpots;
  }

  lemma SpotCounts(events: seq<Event>)
    ensures |TreeSpots(events)| == |ForestSpots(events)| == |events|
  {
    hide TreeSpot, ForestSpot;
  }

  lemma SameSpots(events: seq<Event>)
    ensures TreeSpots(events) == ForestSpots(events) <==> ReadAlike(events)
  {
    hide TreeSpot, ForestSpot, ReadAlike;
    var tree, forest := TreeSpots(events), ForestSpots(events);
    if ReadAlike(events) {
      forall i | 0 <= i < |events| ensures tree[i] == forest[i] { AlikeSpots(events, i); }
    }
    if tree == forest {
      forall i | 0 <= i < |events| ensures TreeSpot(events, i) == ForestSpot(events, i) {
        assert tree[i] == forest[i];
      }
      SpotsAlike(events);
    }
  }

  // ---- Streams whose agents keep their ids ----

  /** An agent's later events carry the tool id its card was opened with, or none. */
  ghost predicate StableIds(events: seq<Event>) {
    forall i, j | 0 <= j < i < |events| && OpensCard(events, j) && OfAgent(events[i], Key(events[j])) ::
      IdsAreText(events[i]) && (TextOf(events[i], ToolUseId) == "" || TextOf(events[i], ToolUseId) == TextOf(events[j], ToolUseId))
  }

  lemma FillsWithText(e: Event, key: string)
    requires Fills(e, key, MergeSet(), ToolUseId) && IdsAreText(e)
    ensures OfAgent(e, key) && TextOf(e, ToolUseId) != "" && StrOf(e, ToolUseId) == Some(e.fields[ToolUseId].s)
  {
    assert ToolUseId in [TaskId, ToolUseId];
    hide OfAgent;
  }

  lemma IdKept(card: Event, key: string, rest: seq<Event>)
    requires forall m | 0 <= m < |rest| && OfAgent(rest[m], key) ::
               IdsAreText(rest[m]) && (TextOf(rest[m], ToolUseId) == "" || TextOf(rest[m], ToolUseId) == TextOf(card, ToolUseId))
    ensures TextOf(Folded(card, key, rest, MergeSet()), ToolUseId) == TextOf(card, ToolUseId)
  {
    FoldedField(card, key, rest, MergeSet(), ToolUseId);
    hide Folded, Fills, MergeSet, IdsAreText, OfAgent;
    match LastFill(key, rest, MergeSet(), ToolUseId)
    case None =>
    case Some(m) =>
      FillsOfAgent(rest[m], key);
      FillsWithText(rest[m], key);
  }

  lemma CardIdKept(events: seq<Event>, j: nat)
    requires StableIds(events) && j < |events| && OpensCard(events, j)
    ensures CardId(events, j) == TextOf(events[j], ToolUseId)
  {
    var rest := events[j + 1..|events|];
    hide Key, IdsAreText, OfAgent, TextOf, OpensCard, Folded, MergeSet;
    assert forall m | 0 <= m < |rest| :: rest[m] == events[j + 1 + m];
    IdKept(events[j], Key(events[j]), rest);
  }

  lemma FillsOfAgent(e: Event, key: string)
    requires Fills(e, key, MergeSet(), ToolUseId)
    ensures OfAgent(e, key)
  {
    hide OfAgent;
  }

  lemma {:induction false} SameCardBefore(events: seq<Event>, n: nat, tuid: string)
    requires StableIds(events) && n <= |events| && tuid != ""
    ensures OpenedFor(events, n, tuid) == CardBefore(events, n, tuid)
  {
    if n > 0 {
      SameCardBefore(events, n - 1, tuid);
      if OpensCard(events, n - 1) { CardIdKept(events, n - 1); }
      hide StableIds, OpensCard, CardId;
    }
  }

  /** Where agents keep their ids and no call started one, only results that echo can make a difference. */
  lemma OnlyEchoesDiffer(events: seq<Event>)
    requires StableIds(events) && forall i | 0 <= i < |events| :: !IsTaskCall(events, events[i])
    ensures Outlines(TreeOf(events, |events|)) == Outlines(Group(Pairs(events))) <==>
            forall i | 0 <= i < |events| && events[i].kind.Result? :: Dropped(events, i) <==> Echo(events)
  {
    ViewsAgreeExactly(events);
    hide Outlines, TreeOf, Pairs, StableIds, Dropped, Echo, IsTaskCall, Hidden;
    forall i | 0 <= i < |events| ensures SameOwner(events, i) {
      var parent := TextOf(events[i], ParentToolUseId);
      if parent != "" { SameCardBefore(events, i, parent); }
    }
    hide SameOwner;
  }
}
