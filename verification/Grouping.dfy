/** Nesting of child tool events under the sub-agent card that spawned them. */
module Grouping {
  import opened Options
  import opened Transcript
  import opened Pairing

  /** A top-level unit with the units nested under it. */
  datatype Node = Node(unit: Paired, children: seq<Paired>)

  predicate IsCardFor(p: Paired, tuid: string) {
    p.event.kind.Subagent? && tuid != "" && TextOf(p.event, ToolUseId) == tuid
  }

  /** The last card for `tuid` among the first `n` units. */
  function CardFor(paired: seq<Paired>, n: nat, tuid: string): (r: Option<nat>)
    requires n <= |paired|
    ensures match r
            case None => forall j | 0 <= j < n :: !IsCardFor(paired[j], tuid)
            case Some(i) => i < n && IsCardFor(paired[i], tuid) && forall j | i < j < n :: !IsCardFor(paired[j], tuid)
  {
    if n == 0 then None else if IsCardFor(paired[n - 1], tuid) then Some(n - 1) else CardFor(paired, n - 1, tuid)
  }

  /** The card a unit is nested under: the latest one before it that its parent id names. */
  function Owner(paired: seq<Paired>, q: nat): Option<nat>
    requires q < |paired|
  {
    if paired[q].event.kind.Subagent? then None else CardFor(paired, q, TextOf(paired[q].event, ParentToolUseId))
  }

  /** The top-level units among the first `n`. */
  function Tops(paired: seq<Paired>, n: nat): (ts: seq<nat>)
    requires n <= |paired|
    ensures forall i | 0 <= i < |ts| :: ts[i] < n && Owner(paired, ts[i]).None?
    ensures forall i, j | 0 <= i < j < |ts| :: ts[i] < ts[j]
  {
    if n == 0 then [] else if Owner(paired, n - 1).None? then Tops(paired, n - 1) + [n - 1] else Tops(paired, n - 1)
  }

  /** Those of the first `h` units that are nested under unit `p`. */
  function Children(paired: seq<Paired>, p: nat, h: nat): seq<Paired>
    requires h <= |paired|
  {
    if h == 0 then []
    else if Owner(paired, h - 1) == Some(p) then Children(paired, p, h - 1) + [paired[h - 1]]
    else Children(paired, p, h - 1)
  }

  function Forest(paired: seq<Paired>, n: nat): seq<Node>
    requires n <= |paired|
  {
    var ts := Tops(paired, n);
    seq(|ts|, k requires 0 <= k < |ts| => Node(paired[ts[k]], Children(paired, ts[k], n)))
  }

  function Group(paired: seq<Paired>): seq<Node> {
    Forest(paired, |paired|)
  }

  /** Every unit with no owner is a top; a card is one. */
  lemma {:induction false} TopsComplete(paired: seq<Paired>, n: nat, t: nat)
    requires t < n <= |paired| && Owner(paired, t).None?
    ensures t in Tops(paired, n)
  {
    if t < n - 1 { TopsComplete(paired, n - 1, t); }
  }

  lemma {:induction false} NoChildrenYet(paired: seq<Paired>, p: nat, h: nat)
    requires h <= |paired| && h <= p + 1
    ensures Children(paired, p, h) == []
    decreases h
  {
    if h > 0 { NoChildrenYet(paired, p, h - 1); }
  }

  /** One more unit: a new tree at the end, or a new leaf at the end of its owner's. */
  lemma ForestStep(paired: seq<Paired>, n: nat)
    requires n < |paired|
    ensures match Owner(paired, n)
            case None => Forest(paired, n + 1) == Forest(paired, n) + [Node(paired[n], [])]
            case Some(p) =>
              var ts, f := Tops(paired, n), Forest(paired, n);
              exists k | 0 <= k < |ts| :: ts[k] == p &&
                Forest(paired, n + 1) == f[k := Node(f[k].unit, f[k].children + [paired[n]])]
  {
    var ts, f, g := Tops(paired, n), Forest(paired, n), Forest(paired, n + 1);
    match Owner(paired, n)
    case None =>
      NoChildrenYet(paired, n, n + 1);
      assert g == f + [Node(paired[n], [])];
    case Some(p) =>
      TopsComplete(paired, n, p);
      var k :| 0 <= k < |ts| && ts[k] == p;
      assert g == f[k := Node(f[k].unit, f[k].children + [paired[n]])];
  }

  // ---- The loop, with its shared nodes ----

  class GroupedEvent {
    const unit: Paired
    var children: seq<Paired>

    constructor (p: Paired)
      ensures unit == p && children == []
    {
      unit, children := p, [];
    }
  }

  ghost predicate Builds(out: seq<GroupedEvent>, forest: seq<Node>)
    reads out
  {
    |out| == |forest| && forall k | 0 <= k < |out| :: out[k].unit == forest[k].unit && out[k].children == forest[k].children
  }

  predicate AllDistinct(out: seq<GroupedEvent>) {
    forall k, l | 0 <= k < l < |out| :: out[k] != out[l]
  }

  /** The dictionary holds the node of the latest card for each id. */
  ghost predicate Latest(paired: seq<Paired>, n: nat, out: seq<GroupedEvent>, cards: map<string, GroupedEvent>)
    requires n <= |paired|
  {
    && |out| == |Tops(paired, n)|
    && (forall tuid :: tuid in cards <==> CardFor(paired, n, tuid).Some?)
    && (forall tuid, k | tuid in cards && 0 <= k < |out| && Tops(paired, n)[k] == CardFor(paired, n, tuid).value ::
          out[k] == cards[tuid])
  }

  /** The out sequence and the dictionary after unit `n`. */
  predicate Grown(paired: seq<Paired>, n: nat, out: seq<GroupedEvent>, cards: map<string, GroupedEvent>,
                  out': seq<GroupedEvent>, cards': map<string, GroupedEvent>)
    requires n < |paired|
  {
    var tuid := TextOf(paired[n].event, ToolUseId);
    && (if Owner(paired, n).None? then |out'| == |out| + 1 && out'[..|out|] == out else out' == out)
    && (if paired[n].event.kind.Subagent? && tuid != "" then |out'| > |out| && cards' == cards[tuid := out'[|out|]]
        else cards' == cards)
  }

  lemma LatestStep(paired: seq<Paired>, n: nat, out: seq<GroupedEvent>, cards: map<string, GroupedEvent>,
                   out': seq<GroupedEvent>, cards': map<string, GroupedEvent>)
    requires n < |paired| && Latest(paired, n, out, cards) && Grown(paired, n, out, cards, out', cards')
    ensures Latest(paired, n + 1, out', cards')
  {
    LatestIds(paired, n, out, cards, out', cards');
    var n' := n + 1;
    forall tuid, k | tuid in cards' && 0 <= k < |out'| && k < |Tops(paired, n')| && Tops(paired, n')[k] == CardFor(paired, n', tuid).value
      ensures out'[k] == cards'[tuid]
    {
      LatestAt(paired, n, out, cards, out', cards', tuid, k);
    }
    hide TextOf, CardFor;
  }

  lemma LatestAt(paired: seq<Paired>, n: nat, out: seq<GroupedEvent>, cards: map<string, GroupedEvent>,
                 out': seq<GroupedEvent>, cards': map<string, GroupedEvent>, tuid: string, k: nat)
    requires n < |paired| && Latest(paired, n, out, cards) && Grown(paired, n, out, cards, out', cards')
    requires tuid in cards' && k < |out'| && k < |Tops(paired, n + 1)| && CardFor(paired, n + 1, tuid) == Some(Tops(paired, n + 1)[k])
    ensures out'[k] == cards'[tuid]
  {
    var ts, ts' := Tops(paired, n), Tops(paired, n + 1);
    if k < |out| {
      assert ts'[k] == ts[k] && ts[k] < n && out'[k] == out[k];
      assert !IsCardFor(paired[n], tuid) && CardFor(paired, n, tuid) == Some(ts[k]);
    }
    hide Owner, Tops, CardFor;
  }

  lemma LatestIds(paired: seq<Paired>, n: nat, out: seq<GroupedEvent>, cards: map<string, GroupedEvent>,
                  out': seq<GroupedEvent>, cards': map<string, GroupedEvent>)
    requires n < |paired| && Latest(paired, n, out, cards) && Grown(paired, n, out, cards, out', cards')
    ensures forall tuid :: tuid in cards' <==> CardFor(paired, n + 1, tuid).Some?
  {
    hide Tops, TextOf, Owner;
  }

  /** A unit with an owner is added at the end of the owner's children. */
  method NestUnder(paired: seq<Paired>, i: nat, ghost out: seq<GroupedEvent>, owner: GroupedEvent)
    requires i < |paired| && Owner(paired, i).Some?
    requires AllDistinct(out) && Builds(out, Forest(paired, i))
    requires forall k | 0 <= k < |out| && Tops(paired, i)[k] == Owner(paired, i).value :: out[k] == owner
    modifies owner
    ensures Builds(out, Forest(paired, i + 1))
  {
    ForestStep(paired, i);
    owner.children := owner.children + [paired[i]];
    hide Owner, Children;
  }

  /** A unit without one is added at the end of the forest. */
  lemma AddTop(paired: seq<Paired>, i: nat, out: seq<GroupedEvent>, node: GroupedEvent)
    requires i < |paired| && Owner(paired, i).None?
    requires Builds(out, Forest(paired, i))
    requires node.unit == paired[i] && node.children == []
    ensures Builds(out + [node], Forest(paired, i + 1))
  {
    ForestStep(paired, i);
    hide Owner, Children, Forest;
  }

  lemma StillDistinct(out: seq<GroupedEvent>, node: GroupedEvent)
    requires AllDistinct(out) && node !in out
    ensures AllDistinct(out + [node])
  {
  }

  lemma NothingGrouped(paired: seq<Paired>)
    ensures AllDistinct([]) && Builds([], Forest(paired, 0)) && Latest(paired, 0, [], map[])
  {
  }

  /** What the dictionary says about the owner of the next unit. */
  lemma OwnerKnown(paired: seq<Paired>, i: nat, out: seq<GroupedEvent>, cards: map<string, GroupedEvent>)
    requires i < |paired| && Latest(paired, i, out, cards)
    ensures var ptid := TextOf(paired[i].event, ParentToolUseId);
            if paired[i].event.kind.Subagent? || ptid == "" || ptid !in cards then Owner(paired, i).None?
            else Owner(paired, i).Some? && |out| == |Tops(paired, i)|
                 && forall k | 0 <= k < |out| && Tops(paired, i)[k] == Owner(paired, i).value :: out[k] == cards[ptid]
  {
  }

  method GroupBySubagent(paired: seq<Paired>) returns (out: seq<GroupedEvent>)
    ensures Builds(out, Group(paired))
  {
    hide Forest, Children, Tops, Owner, Latest, Builds, AllDistinct;
    var cardsByTuid: map<string, GroupedEvent> := map[];
    out := [];
    NothingGrouped(paired);
    var i := 0;
    while i < |paired|
      invariant 0 <= i <= |paired|
      invariant forall g | g in out :: fresh(g)
      invariant forall tuid | tuid in cardsByTuid :: fresh(cardsByTuid[tuid])
      invariant AllDistinct(out)
      invariant Builds(out, Forest(paired, i))
      invariant Latest(paired, i, out, cardsByTuid)
    {
      var pe := paired[i];
      ghost var before, cardsBefore := out, cardsByTuid;
      OwnerKnown(paired, i, out, cardsByTuid);
      if pe.event.kind.Subagent? {
        var node := new GroupedEvent(pe);
        var tuid := TextOf(pe.event, ToolUseId);
        AddTop(paired, i, out, node);
        StillDistinct(out, node);
        if tuid != "" {
          cardsByTuid := cardsByTuid[tuid := node];
        }
        out := out + [node];
      } else {
        var ptid := TextOf(pe.event, ParentToolUseId);
        if ptid != "" && ptid in cardsByTuid {
          NestUnder(paired, i, out, cardsByTuid[ptid]);
        } else {
          var node := new GroupedEvent(pe);
          AddTop(paired, i, out, node);
          StillDistinct(out, node);
          out := out + [node];
        }
      }
      LatestStep(paired, i, before, cardsBefore, out, cardsByTuid);
      i := i + 1;
    }
  }
}
