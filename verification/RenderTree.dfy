/** The browser's one-pass build of the transcript tree. */
module RenderTree {
  import opened Options
  import opened Text
  import opened Transcript
  import opened Pairing
  import opened Grouping

  const TREE_MERGE_FIELDS: seq<Field> := [
    SubagentType, TaskType, Description, Prompt, Status, Summary, Usage, Phase, LastToolName]

  /** Unlike the server, the browser merges an empty dictionary in, and no ids. */
  function TreeRule(): Rule {
    RuleOf(TREE_MERGE_FIELDS, false)
  }

  /** `mergeSubagent`. */
  method MergeTree(base: Event, e: Event) returns (card: Event)
    ensures card == Merged(base, e, TreeRule())
  {
    card := MergeFields(base, e, TREE_MERGE_FIELDS, false);
  }

  // ---- Which results echo ----

  predicate TopProse(e: Event) {
    && (e.kind.AssistantText? || e.kind.PlainText? || e.kind.Assistant?)
    && StrOf(e, ParentToolUseId).None?
    && Trim(Js, TextOf(e, TextField)) != ""
  }

  predicate OpensTurn(e: Event) {
    e.kind.UserMessage? || e.kind.User? || e.kind.SteerDelivered?
  }

  /** The latest top-level prose among the first `n` events, if it is of the turn still open. */
  function TurnProse(events: seq<Event>, n: nat): (r: Option<nat>)
    requires n <= |events|
    ensures r.Some? ==> r.value < n
  {
    if n == 0 then None
    else if TopProse(events[n - 1]) then Some(n - 1)
    else if OpensTurn(events[n - 1]) then None
    else TurnProse(events, n - 1)
  }

  lemma {:induction false} TurnProseIs(events: seq<Event>, n: nat)
    requires n <= |events|
    ensures match TurnProse(events, n)
            case None => forall j | 0 <= j < n && TopProse(events[j]) :: exists u | j < u < n :: OpensTurn(events[u])
            case Some(j) => j < n && TopProse(events[j])
                            && forall u | j < u < n :: !OpensTurn(events[u]) && !TopProse(events[u])
  {
    hide TopProse, OpensTurn;
    if n > 0 {
      TurnProseIs(events, n - 1);
      if !TopProse(events[n - 1]) && OpensTurn(events[n - 1]) {
        assert forall j | 0 <= j < n && TopProse(events[j]) :: j < n - 1 < n && OpensTurn(events[n - 1]);
      }
    }
  }

  function LastAssistant(events: seq<Event>, n: nat): string
    requires n <= |events|
  {
    match TurnProse(events, n)
    case None => ""
    case Some(j) => Trim(Js, TextOf(events[j], TextField))
  }

  predicate StartsWith(s: string, t: string) {
    t <= s
  }

  predicate EndsWith(s: string, t: string) {
    |t| <= |s| && s[|s| - |t|..] == t
  }

  /** One text is a prefix or a suffix of the other. */
  predicate Comparable(a: string, b: string) {
    StartsWith(a, b) || StartsWith(b, a) || EndsWith(a, b) || EndsWith(b, a)
  }

  predicate EchoesAssistant(summary: string, lastAssistant: string) {
    if summary == "" || lastAssistant == "" then false
    else
      || summary == lastAssistant
      || StartsWith(summary, lastAssistant)
      || StartsWith(lastAssistant, summary)
      || EndsWith(summary, lastAssistant)
      || EndsWith(lastAssistant, summary)
  }

  function Lower(c: char): char {
    if 'A' <= c <= 'Z' then c + 32 as char else c
  }

  /** `s.toLowerCase().includes(t)` for a lower-case ASCII `t`. */
  predicate IncludesIgnoringCase(s: string, t: string) {
    exists i | 0 <= i <= |s| - |t| :: OccursAt(s, t, i)
  }

  predicate OccursAt(s: string, t: string, i: nat)
    requires i + |t| <= |s|
  {
    forall j | 0 <= j < |t| :: Lower(s[i + j]) == t[j]
  }

  predicate Truthy(v: Value) {
    match v
    case Null => false
    case Str(s) => s != ""
    case Dict(_) => true
    case Other(tag) => tag != 0
  }

  predicate IsErrorResult(e: Event) {
    IncludesIgnoringCase(TextOf(e, Subtype), "error") || (IsError in e.fields && Truthy(e.fields[IsError]))
  }

  /** A result the tree leaves out because its turn already shows the text. */
  predicate Dropped(events: seq<Event>, i: nat)
    requires i < |events|
  {
    events[i].kind.Result? && !IsErrorResult(events[i])
    && EchoesAssistant(Trim(Js, TextOf(events[i], Summary)), LastAssistant(events, i))
  }

  // ---- Which calls a card stands for ----

  /** Some sub-agent of the stream was started by call `id`. */
  predicate IsTaskId(events: seq<Event>, id: string) {
    exists j | 0 <= j < |events| :: events[j].kind.Subagent? && StrOf(events[j], ToolUseId) == Some(id)
  }

  predicate IsTaskCall(events: seq<Event>, e: Event) {
    e.kind.ToolUse? && StrOf(e, Id).Some? && IsTaskId(events, StrOf(e, Id).value)
  }

  /** Result `i` is shown with a call before it. */
  predicate ShownWithCall(events: seq<Event>, i: nat)
    requires i < |events|
  {
    var id := TextOf(events[i], ToolUseId);
    events[i].kind.ToolResult? && UseBefore(events, i, id) && !IsTaskId(events, id)
  }

  // ---- The tree ----

  /** What becomes of an event: left out, merged into an earlier card, a child of a card, or a top. */
  datatype Role = Skipped | Merges(opener: nat) | Nested(owner: nat) | Top

  /** The first of the agent's events. */
  function FirstOf(events: seq<Event>, n: nat, key: string): (r: Option<nat>)
    requires n <= |events|
    ensures match r
            case None => !AgentBefore(events, n, key)
            case Some(j) => j < n && OfAgent(events[j], key) && !AgentBefore(events, j, key)
  {
    if n == 0 then None
    else
      var before := FirstOf(events, n - 1, key);
      if before.Some? then before
      else if OfAgent(events[n - 1], key) then Some(n - 1)
      else
        assert forall j | 0 <= j < n :: j < n - 1 || !OfAgent(events[j], key);
        None
  }

  predicate OpensCardFor(events: seq<Event>, j: nat, tuid: string)
    requires j < |events|
  {
    OpensCard(events, j) && StrOf(events[j], ToolUseId) == Some(tuid)
  }

  /** The latest card opened for `tuid` among the first `n` events. */
  function OpenedFor(events: seq<Event>, n: nat, tuid: string): (r: Option<nat>)
    requires n <= |events|
    ensures match r
            case None => forall j | 0 <= j < n :: !OpensCardFor(events, j, tuid)
            case Some(i) => i < n && OpensCardFor(events, i, tuid) && forall j | i < j < n :: !OpensCardFor(events, j, tuid)
  {
    if n == 0 then None else if OpensCardFor(events, n - 1, tuid) then Some(n - 1) else OpenedFor(events, n - 1, tuid)
  }

  function RoleOf(events: seq<Event>, i: nat): Role
    requires i < |events|
  {
    var e := events[i];
    if e.kind.Subagent? then
      match FirstOf(events, i, Key(e)) case None => Top case Some(j) => Merges(j)
    else if Dropped(events, i) || IsTaskCall(events, e) || ShownWithCall(events, i) then Skipped
    else
      var parent := TextOf(e, ParentToolUseId);
      var owner := if parent == "" then None else OpenedFor(events, i, parent);
      match owner case None => Top case Some(p) => Nested(p)
  }

  /** The render unit of event `i`; a card as the events before `h` have left it. */
  function UnitAt(events: seq<Event>, i: nat, h: nat): Paired
    requires i < h <= |events|
  {
    var e := events[i];
    if e.kind.Subagent? then Paired(i, CardAt(events, i, h, TreeRule()), None)
    else if e.kind.ToolUse? then Paired(i, e, LastResult(events, |events|, TextOf(e, Id)))
    else Paired(i, e, None)
  }

  function TreeTops(events: seq<Event>, n: nat): (ts: seq<nat>)
    requires n <= |events|
    ensures forall k | 0 <= k < |ts| :: ts[k] < n && RoleOf(events, ts[k]) == Top
    ensures forall j, k | 0 <= j < k < |ts| :: ts[j] < ts[k]
  {
    if n == 0 then []
    else if RoleOf(events, n - 1) == Top then TreeTops(events, n - 1) + [n - 1]
    else TreeTops(events, n - 1)
  }

  function TreeChildren(events: seq<Event>, p: nat, h: nat): seq<Paired>
    requires h <= |events|
  {
    if h == 0 then []
    else if RoleOf(events, h - 1) == Nested(p) then TreeChildren(events, p, h - 1) + [UnitAt(events, h - 1, h)]
    else TreeChildren(events, p, h - 1)
  }

  function NodeAt(events: seq<Event>, i: nat, h: nat): Node
    requires i < h <= |events|
  {
    Node(UnitAt(events, i, h), TreeChildren(events, i, h))
  }

  /** The tree after the first `n` events. */
  function TreeOf(events: seq<Event>, n: nat): seq<Node>
    requires n <= |events|
  {
    var ts := TreeTops(events, n);
    seq(|ts|, k requires 0 <= k < |ts| => NodeAt(events, ts[k], n))
  }

  // ---- One more event ----

  lemma {:induction false} TreeTopsComplete(events: seq<Event>, n: nat, t: nat)
    requires t < n <= |events| && RoleOf(events, t) == Top
    ensures t in TreeTops(events, n)
  {
    hide RoleOf;
    if t < n - 1 { TreeTopsComplete(events, n - 1, t); }
  }

  lemma {:induction false} NoTreeChildrenYet(events: seq<Event>, p: nat, h: nat)
    requires h <= |events| && h <= p + 1
    ensures TreeChildren(events, p, h) == []
    decreases h
  {
    hide RoleOf, UnitAt;
    if h > 0 {
      NoTreeChildrenYet(events, p, h - 1);
      OwnerIsEarlier(events, h - 1);
    }
  }

  /** Cards an event refers to were opened before it, and are tops. */
  lemma OwnerIsEarlier(events: seq<Event>, i: nat)
    requires i < |events|
    ensures match RoleOf(events, i)
            case Nested(p) => p < i && RoleOf(events, p) == Top
            case Merges(o) => o < i && RoleOf(events, o) == Top && OfAgent(events[i], Key(events[o])) && events[o].kind.Subagent?
            case _ => true
  {
    hide Dropped, IsTaskCall, ShownWithCall;
  }

  /** A node sees the next event if it is its child, or of its agent. */
  function NodeAfter(events: seq<Event>, i: nat, n: nat): Node
    requires i < n < |events|
  {
    var node := NodeAt(events, i, n);
    match RoleOf(events, n)
    case Nested(p) => if p == i then Node(node.unit, node.children + [UnitAt(events, n, n + 1)]) else node
    case Merges(o) =>
      if o == i then Node(node.unit.(event := Merged(node.unit.event, events[n], TreeRule())), node.children) else node
    case _ => node
  }

  lemma UnitStep(events: seq<Event>, i: nat, n: nat)
    requires i < n < |events| && RoleOf(events, i) == Top
    ensures UnitAt(events, i, n + 1) ==
            if RoleOf(events, n) == Merges(i) then UnitAt(events, i, n).(event := Merged(UnitAt(events, i, n).event, events[n], TreeRule()))
            else UnitAt(events, i, n)
  {
    CardStep(events, i, n, TreeRule());
    if events[i].kind.Subagent? {
      assert !AgentBefore(events, i, Key(events[i]));
      if OfAgent(events[n], Key(events[i])) {
        FirstIs(events, n, i);
      } else {
        OwnerIsEarlier(events, n);
      }
    } else {
      OwnerIsEarlier(events, n);
    }
    hide RoleOf, CardAt, LastResult, Merged, TreeRule;
  }

  /** The opener of an agent's card is the first of its events. */
  lemma FirstIs(events: seq<Event>, n: nat, i: nat)
    requires i < n < |events| && OfAgent(events[n], Key(events[i])) && events[i].kind.Subagent?
    requires !AgentBefore(events, i, Key(events[i]))
    ensures RoleOf(events, n) == Merges(i)
  {
    var key := Key(events[i]);
    assert OfAgent(events[i], key);
    assert AgentBefore(events, n, key);
  }

  lemma NodeStep(events: seq<Event>, i: nat, n: nat)
    requires i < n < |events| && RoleOf(events, i) == Top
    ensures NodeAt(events, i, n + 1) == NodeAfter(events, i, n)
  {
    UnitStep(events, i, n);
    hide RoleOf, UnitAt, Merged, TreeRule;
  }

  /** How the tree changes with event `n`. */
  lemma TreeStep(events: seq<Event>, n: nat)
    requires n < |events|
    ensures var ts, tree, next := TreeTops(events, n), TreeOf(events, n), TreeOf(events, n + 1);
            && |tree| == |ts|
            && |next| == |ts| + (if RoleOf(events, n).Top? then 1 else 0)
            && (forall k | 0 <= k < |ts| :: tree[k] == NodeAt(events, ts[k], n) && next[k] == NodeAfter(events, ts[k], n))
            && (RoleOf(events, n).Top? ==> next[|ts|] == Node(UnitAt(events, n, n + 1), []))
  {
    var ts := TreeTops(events, n);
    NoTreeChildrenYet(events, n, n + 1);
    forall k | 0 <= k < |ts| ensures NodeAt(events, ts[k], n + 1) == NodeAfter(events, ts[k], n) {
      NodeStep(events, ts[k], n);
    }
    hide RoleOf, NodeAfter, UnitAt, TreeChildren;
  }

  /** A child or a merged event changes the one node it goes to. */
  lemma TreeChangesAt(events: seq<Event>, n: nat, k: nat)
    requires n < |events| && k < |TreeTops(events, n)|
    requires RoleOf(events, n) == Nested(TreeTops(events, n)[k]) || RoleOf(events, n) == Merges(TreeTops(events, n)[k])
    ensures var tree, next := TreeOf(events, n), TreeOf(events, n + 1);
            && |tree| == |TreeTops(events, n)|
            && next == tree[k := if RoleOf(events, n).Nested?
                                 then Node(tree[k].unit, tree[k].children + [UnitAt(events, n, n + 1)])
                                 else Node(tree[k].unit.(event := Merged(tree[k].unit.event, events[n], TreeRule())), tree[k].children)]
  {
    TreeStep(events, n);
    var ts, tree, next := TreeTops(events, n), TreeOf(events, n), TreeOf(events, n + 1);
    hide RoleOf, UnitAt, NodeAt, TreeOf, TreeTops, Merged, TreeRule;
    assert forall j | 0 <= j < |tree| && j != k :: ts[j] != ts[k];
    assert forall j | 0 <= j < |tree| && j != k :: next[j] == tree[j];
    assert tree[k] == NodeAt(events, ts[k], n) && next[k] == NodeAfter(events, ts[k], n);
    var changed := next[k];
    hide NodeAfter;
    assert next == tree[k := changed];
  }

  // ---- The loop, with its shared nodes ----

  class TreeNode {
    const at: nat
    const resultAt: Option<nat>
    var event: Event
    var children: seq<Paired>

    constructor (p: Paired)
      ensures at == p.at && resultAt == p.resultAt && event == p.event && children == []
    {
      at, resultAt, event, children := p.at, p.resultAt, p.event, [];
    }

    ghost function View(): Node
      reads this
    {
      Node(Paired(at, event, resultAt), children)
    }
  }

  ghost predicate Builds(out: seq<TreeNode>, tree: seq<Node>)
    reads out
  {
    |out| == |tree| && forall k | 0 <= k < |out| :: out[k].View() == tree[k]
  }

  predicate AllDistinct(out: seq<TreeNode>) {
    forall k, l | 0 <= k < l < |out| :: out[k] != out[l]
  }

  /** `node` is the one emitted for the top at `pos`. */
  ghost predicate EmittedFor(events: seq<Event>, n: nat, out: seq<TreeNode>, pos: nat, node: TreeNode)
    requires n <= |events|
  {
    |out| == |TreeTops(events, n)| && exists k | 0 <= k < |out| :: TreeTops(events, n)[k] == pos && out[k] == node
  }

  /** An entry of a map from ids to nodes: absent, or the node emitted for a top. */
  ghost predicate Holds(events: seq<Event>, n: nat, out: seq<TreeNode>, m: map<string, TreeNode>, id: string, pos: Option<nat>)
    requires n <= |events|
  {
    (id in m <==> pos.Some?) && (id in m ==> EmittedFor(events, n, out, pos.value, m[id]))
  }

  ghost predicate TuidHolds(events: seq<Event>, n: nat, out: seq<TreeNode>, m: map<string, TreeNode>, tuid: string)
    requires n <= |events|
  {
    Holds(events, n, out, m, tuid, OpenedFor(events, n, tuid))
  }

  ghost predicate KeyHolds(events: seq<Event>, n: nat, out: seq<TreeNode>, m: map<string, TreeNode>, key: string)
    requires n <= |events|
  {
    Holds(events, n, out, m, key, FirstOf(events, n, key))
  }

  /** The two maps: the latest card opened for each tool id, and each agent's card. */
  ghost predicate NodesByTuid(events: seq<Event>, n: nat, out: seq<TreeNode>, m: map<string, TreeNode>)
    requires n <= |events|
  {
    forall tuid :: TuidHolds(events, n, out, m, tuid)
  }

  ghost predicate NodesByKey(events: seq<Event>, n: nat, out: seq<TreeNode>, m: map<string, TreeNode>)
    requires n <= |events|
  {
    forall key :: KeyHolds(events, n, out, m, key)
  }

  lemma EmittedNext(events: seq<Event>, n: nat, out: seq<TreeNode>, out': seq<TreeNode>, pos: nat, node: TreeNode)
    requires n < |events| && EmittedFor(events, n, out, pos, node)
    requires |out'| == |out| + (if RoleOf(events, n).Top? then 1 else 0) && out'[..|out|] == out
    ensures EmittedFor(events, n + 1, out', pos, node)
  {
    hide RoleOf;
    var k :| 0 <= k < |out| && TreeTops(events, n)[k] == pos && out[k] == node;
    assert out'[k] == out[k] && TreeTops(events, n + 1)[k] == pos;
  }

  lemma NewTopEmitted(events: seq<Event>, n: nat, out: seq<TreeNode>, node: TreeNode)
    requires n < |events| && RoleOf(events, n).Top? && |out| == |TreeTops(events, n)|
    ensures EmittedFor(events, n + 1, out + [node], n, node)
  {
    hide RoleOf;
    assert (out + [node])[|out|] == node && TreeTops(events, n + 1)[|out|] == n;
  }

  /** One entry after one more event: replaced by the new top, or as it was. */
  lemma HoldsNext(events: seq<Event>, n: nat, out: seq<TreeNode>, out': seq<TreeNode>,
                  m: map<string, TreeNode>, m': map<string, TreeNode>, id: string, pos: Option<nat>, set': bool)
    requires n < |events| && |out| == |TreeTops(events, n)| && Holds(events, n, out, m, id, pos)
    requires |out'| == |out| + (if RoleOf(events, n).Top? then 1 else 0) && out'[..|out|] == out
    requires set' ==> RoleOf(events, n).Top? && id in m' && m'[id] == out'[|out|]
    requires !set' ==> (id in m' <==> id in m) && (id in m ==> m'[id] == m[id])
    ensures Holds(events, n + 1, out', m', id, if set' then Some(n) else pos)
  {
    hide RoleOf, EmittedFor;
    if set' {
      assert out' == out + [out'[|out|]];
      NewTopEmitted(events, n, out, out'[|out|]);
    } else if id in m {
      EmittedNext(events, n, out, out', pos.value, m[id]);
    }
  }

  lemma TuidNext(events: seq<Event>, n: nat, out: seq<TreeNode>, out': seq<TreeNode>,
                 m: map<string, TreeNode>, m': map<string, TreeNode>)
    requires n < |events| && |out| == |TreeTops(events, n)| && NodesByTuid(events, n, out, m)
    requires |out'| == |out| + (if RoleOf(events, n).Top? then 1 else 0) && out'[..|out|] == out
    requires if OpensCard(events, n) && StrOf(events[n], ToolUseId).Some?
             then RoleOf(events, n).Top? && m' == m[StrOf(events[n], ToolUseId).value := out'[|out|]]
             else m' == m
    ensures NodesByTuid(events, n + 1, out', m')
  {
    hide RoleOf, OpensCard, Holds, EmittedFor;
    var n' := n + 1;
    forall tuid ensures TuidHolds(events, n', out', m', tuid) {
      assert TuidHolds(events, n, out, m, tuid);
      HoldsNext(events, n, out, out', m, m', tuid, OpenedFor(events, n, tuid), OpensCardFor(events, n, tuid));
    }
  }

  lemma KeyNext(events: seq<Event>, n: nat, out: seq<TreeNode>, out': seq<TreeNode>,
                m: map<string, TreeNode>, m': map<string, TreeNode>)
    requires n < |events| && |out| == |TreeTops(events, n)| && NodesByKey(events, n, out, m)
    requires |out'| == |out| + (if RoleOf(events, n).Top? then 1 else 0) && out'[..|out|] == out
    requires var key := Key(events[n]);
             if OfAgent(events[n], key) && key !in m
             then RoleOf(events, n).Top? && m' == m[key := out'[|out|]]
             else m' == m
    ensures NodesByKey(events, n + 1, out', m')
  {
    var n' := n + 1;
    forall key ensures KeyHolds(events, n', out', m', key) {
      assert KeyHolds(events, n, out, m, key);
      assert OfAgent(events[n], key) ==> Key(events[n]) == key;
      hide RoleOf, EmittedFor, Key;
      HoldsNext(events, n, out, out', m, m', key, FirstOf(events, n, key), OfAgent(events[n], key) && key !in m);
    }
  }

  /** A child is pushed onto its owner's node. */
  method PushChild(events: seq<Event>, i: nat, ghost out: seq<TreeNode>, owner: TreeNode, results: map<string, nat>)
    requires i < |events| && RoleOf(events, i).Nested? && ResultIds(events, results)
    requires AllDistinct(out) && Builds(out, TreeOf(events, i))
    requires EmittedFor(events, i, out, RoleOf(events, i).owner, owner)
    modifies owner
    ensures Builds(out, TreeOf(events, i + 1))
  {
    ghost var tree, next := TreeOf(events, i), TreeOf(events, i + 1);
    ghost var k :| 0 <= k < |out| && TreeTops(events, i)[k] == RoleOf(events, i).owner && out[k] == owner;
    TreeChangesAt(events, i, k);
    assert !events[i].kind.Subagent?;
    hide RoleOf, UnitAt, TreeOf, TreeTops, EmittedFor;
    assert out[k].View() == tree[k];
    var child := MakeUnit(events, i, results);
    owner.children := owner.children + [child];
    assert forall j | 0 <= j < |out| && j != k :: out[j].View() == tree[j];
  }

  /** A later event of an agent is merged into the node of its first. */
  method MergeIntoNode(events: seq<Event>, i: nat, ghost out: seq<TreeNode>, node: TreeNode)
    requires i < |events| && RoleOf(events, i).Merges?
    requires AllDistinct(out) && Builds(out, TreeOf(events, i))
    requires EmittedFor(events, i, out, RoleOf(events, i).opener, node)
    modifies node
    ensures Builds(out, TreeOf(events, i + 1))
  {
    ghost var tree, next := TreeOf(events, i), TreeOf(events, i + 1);
    ghost var k :| 0 <= k < |out| && TreeTops(events, i)[k] == RoleOf(events, i).opener && out[k] == node;
    TreeChangesAt(events, i, k);
    hide RoleOf, UnitAt, TreeOf, TreeTops, EmittedFor, Merged, TreeRule;
    assert out[k].View() == tree[k];
    var merged := MergeTree(node.event, events[i]);
    node.event := merged;
    assert forall j | 0 <= j < |out| && j != k :: out[j].View() == tree[j];
  }

  lemma OthersStay(events: seq<Event>, i: nat, out: seq<TreeNode>, out': seq<TreeNode>)
    requires i < |events| && Builds(out, TreeOf(events, i))
    requires match RoleOf(events, i)
             case Skipped => out' == out
             case Top => |out'| == |out| + 1 && out'[..|out|] == out && out'[|out|].View() == Node(UnitAt(events, i, i + 1), [])
             case _ => false
    ensures Builds(out', TreeOf(events, i + 1))
  {
    TreeStep(events, i);
    hide RoleOf, UnitAt, NodeAt, TreeOf;
    forall k | 0 <= k < |out| ensures out'[k] == out[k] {
      if out' != out { assert out'[..|out|][k] == out[k]; }
    }
  }

  /** `makeToolNode`, for an event that is shown. */
  method MakeUnit(events: seq<Event>, i: nat, resultById: map<string, nat>) returns (p: Paired)
    requires i < |events| && ResultIds(events, resultById)
    ensures !events[i].kind.Subagent? ==> p == UnitAt(events, i, i + 1)
  {
    var e := events[i];
    if e.kind.ToolUse? {
      var id := TextOf(e, Id);
      p := Paired(i, e, if id != "" && id in resultById then Some(resultById[id]) else None);
    } else {
      p := Paired(i, e, None);
    }
  }

  method SubagentTuids(events: seq<Event>) returns (tuids: set<string>)
    ensures forall id :: id in tuids <==> IsTaskId(events, id)
  {
    tuids := {};
    var i := 0;
    while i < |events|
      invariant 0 <= i <= |events|
      invariant forall id :: id in tuids <==> exists j | 0 <= j < i :: events[j].kind.Subagent? && StrOf(events[j], ToolUseId) == Some(id)
    {
      if events[i].kind.Subagent? && StrOf(events[i], ToolUseId).Some? {
        tuids := tuids + {StrOf(events[i], ToolUseId).value};
      }
      i := i + 1;
    }
  }

  /** The ids of calls already shown together with their result. */
  ghost predicate PairedIds(events: seq<Event>, n: nat, paired: set<string>, results: map<string, nat>)
    requires n <= |events|
  {
    forall id :: id in paired <==> id in results && UseBefore(events, n, id) && !IsTaskId(events, id)
  }

  ghost predicate ResultIds(events: seq<Event>, results: map<string, nat>) {
    forall id :: id != "" ==> LastResult(events, |events|, id) == if id in results then Some(results[id]) else None
  }

  lemma PairedIdsNext(events: seq<Event>, n: nat, paired: set<string>, results: map<string, nat>, paired': set<string>)
    requires n < |events| && PairedIds(events, n, paired, results)
    requires var e, id := events[n], TextOf(events[n], Id);
             if e.kind.ToolUse? && !IsTaskCall(events, e) && id != "" && id in results then paired' == paired + {id}
             else paired' == paired
    ensures PairedIds(events, n + 1, paired', results)
  {
    assert forall id :: UseBefore(events, n + 1, id) <==> UseBefore(events, n, id) || IsUse(events[n], id);
    hide UseBefore, IsTaskId;
  }

  /** Everything the loop carries from one event to the next. */
  ghost predicate LoopState(events: seq<Event>, n: nat, out: seq<TreeNode>, byTuid: map<string, TreeNode>,
                            byKey: map<string, TreeNode>, paired: set<string>, results: map<string, nat>)
    requires n <= |events|
    reads out
  {
    && AllDistinct(out)
    && Builds(out, TreeOf(events, n))
    && NodesByTuid(events, n, out, byTuid)
    && NodesByKey(events, n, out, byKey)
    && PairedIds(events, n, paired, results)
    && ResultIds(events, results)
  }

  /** All nodes the loop can reach are in `repr`. */
  ghost predicate Within(out: seq<TreeNode>, byTuid: map<string, TreeNode>, byKey: map<string, TreeNode>, repr: set<TreeNode>) {
    (forall node | node in out :: node in repr) && byTuid.Values <= repr && byKey.Values <= repr
  }

  lemma ValueWithin(m: map<string, TreeNode>, id: string, repr: set<TreeNode>)
    requires id in m && m.Values <= repr
    ensures m[id] in repr
  {
    assert m[id] in m.Values;
  }

  lemma StillWithin(out: seq<TreeNode>, byTuid: map<string, TreeNode>, byKey: map<string, TreeNode>, repr: set<TreeNode>,
                    node: TreeNode, tuid: Option<string>, key: string)
    requires Within(out, byTuid, byKey, repr)
    ensures Within(out + [node], if tuid.Some? then byTuid[tuid.value := node] else byTuid,
                   if key != "" then byKey[key := node] else byKey, repr + {node})
  {
  }

  /** A sub-agent's event: merged into the agent's card, or the card of a new node. */
  method OnSubagent(events: seq<Event>, i: nat, out: seq<TreeNode>, byTuid: map<string, TreeNode>,
                    byKey: map<string, TreeNode>, ghost paired: set<string>, ghost results: map<string, nat>,
                    ghost repr: set<TreeNode>)
    returns (out': seq<TreeNode>, byTuid': map<string, TreeNode>, byKey': map<string, TreeNode>, ghost repr': set<TreeNode>)
    requires i < |events| && events[i].kind.Subagent? && LoopState(events, i, out, byTuid, byKey, paired, results)
    requires Within(out, byTuid, byKey, repr)
    modifies repr
    ensures LoopState(events, i + 1, out', byTuid', byKey', paired, results)
    ensures Within(out', byTuid', byKey', repr') && fresh(repr' - repr)
  {
    out', byTuid', byKey', repr' := out, byTuid, byKey, repr;
    var e, key := events[i], Key(events[i]);
    PairedIdsNext(events, i, paired, results, paired);
    SubagentRole(events, i, out, byKey);
    hide RoleOf, TreeOf, PairedIds, ResultIds, Key, NodesByTuid, NodesByKey, UnitAt, OpensCard, EmittedFor;
    if key != "" && key in byKey {
      ValueWithin(byKey, key, repr);
      MergeIntoNode(events, i, out, byKey[key]);
    } else {
      var node := new TreeNode(Paired(i, e, None));
      out' := out + [node];
      if key != "" { byKey' := byKey[key := node]; }
      if StrOf(e, ToolUseId).Some? { byTuid' := byTuid[StrOf(e, ToolUseId).value := node]; }
      repr' := repr + {node};
      StillWithin(out, byTuid, byKey, repr, node, StrOf(e, ToolUseId), key);
      NodeIsNew(out, node, repr);
      OthersStay(events, i, out, out');
    }
    hide Within;
    TreeStep(events, i);
    TuidNext(events, i, out, out', byTuid, byTuid');
    KeyNext(events, i, out, out', byKey, byKey');
  }

  lemma NodeIsNew(out: seq<TreeNode>, node: TreeNode, repr: set<TreeNode>)
    requires AllDistinct(out) && node !in repr && forall n | n in out :: n in repr
    ensures AllDistinct(out + [node])
  {
  }

  lemma SubagentRole(events: seq<Event>, i: nat, out: seq<TreeNode>, byKey: map<string, TreeNode>)
    requires i < |events| && events[i].kind.Subagent? && NodesByKey(events, i, out, byKey)
    ensures var key := Key(events[i]);
            if key != "" && key in byKey
            then RoleOf(events, i).Merges? && EmittedFor(events, i, out, RoleOf(events, i).opener, byKey[key])
                 && !OpensCard(events, i)
            else RoleOf(events, i).Top? && OpensCard(events, i) && key !in byKey
                 && UnitAt(events, i, i + 1) == Paired(i, events[i], None)
    ensures OfAgent(events[i], Key(events[i])) <==> Key(events[i]) != ""
  {
    var key := Key(events[i]);
    assert KeyHolds(events, i, out, byKey, key);
  }

  /** The set of ids shown with their result, after one more event. */
  method SeeCall(events: seq<Event>, i: nat, paired: set<string>, results: map<string, nat>, tuids: set<string>)
    returns (taskCall: bool, shown: bool, paired': set<string>)
    requires i < |events| && PairedIds(events, i, paired, results) && ResultIds(events, results)
    requires forall id :: id in tuids <==> IsTaskId(events, id)
    ensures taskCall == IsTaskCall(events, events[i]) && shown == ShownWithCall(events, i)
    ensures PairedIds(events, i + 1, paired', results)
  {
    var e := events[i];
    var id := StrOf(e, Id);
    taskCall := e.kind.ToolUse? && id.Some? && id.value in tuids;
    shown := e.kind.ToolResult? && TextOf(e, ToolUseId) in paired;
    ShownIfPaired(events, i, paired, results);
    hide ResultIds, ShownWithCall;
    paired' := paired;
    if e.kind.ToolUse? && !taskCall && TextOf(e, Id) != "" && TextOf(e, Id) in results {
      paired' := paired + {TextOf(e, Id)};
    }
    PairedIdsNext(events, i, paired, results, paired');
  }

  /** Any other event: left out, pushed onto a card, or a node of its own. */
  method OnOther(events: seq<Event>, i: nat, out: seq<TreeNode>, byTuid: map<string, TreeNode>,
                 ghost byKey: map<string, TreeNode>, paired: set<string>, results: map<string, nat>,
                 tuids: set<string>, dropped: bool, ghost repr: set<TreeNode>)
    returns (out': seq<TreeNode>, paired': set<string>, ghost repr': set<TreeNode>)
    requires i < |events| && !events[i].kind.Subagent? && LoopState(events, i, out, byTuid, byKey, paired, results)
    requires forall id :: id in tuids <==> IsTaskId(events, id)
    requires dropped == Dropped(events, i)
    requires Within(out, byTuid, byKey, repr)
    modifies repr
    ensures LoopState(events, i + 1, out', byTuid, byKey, paired', results)
    ensures Within(out', byTuid, byKey, repr') && fresh(repr' - repr)
  {
    out', repr' := out, repr;
    var e := events[i];
    var parent := TextOf(e, ParentToolUseId);
    var taskCall, shown;
    taskCall, shown, paired' := SeeCall(events, i, paired, results, tuids);
    OtherRole(events, i, out, byTuid);
    TreeStep(events, i);
    hide RoleOf, TreeOf, PairedIds, ResultIds, Key, NodesByTuid, NodesByKey, UnitAt, OpensCard, IsTaskId, Dropped,
         IsTaskCall, ShownWithCall, EmittedFor;
    if dropped || taskCall || shown {
      OthersStay(events, i, out, out');
    } else if parent != "" && parent in byTuid {
      ValueWithin(byTuid, parent, repr);
      PushChild(events, i, out, byTuid[parent], results);
    } else {
      var unit := MakeUnit(events, i, results);
      var node := new TreeNode(unit);
      out' := out + [node];
      repr' := repr + {node};
      StillWithin(out, byTuid, byKey, repr, node, None, "");
      NodeIsNew(out, node, repr);
      OthersStay(events, i, out, out');
    }
    hide Within;
    TuidNext(events, i, out, out', byTuid, byTuid);
    KeyNext(events, i, out, out', byKey, byKey);
  }

  lemma ShownIfPaired(events: seq<Event>, i: nat, paired: set<string>, results: map<string, nat>)
    requires i < |events| && PairedIds(events, i, paired, results) && ResultIds(events, results)
    ensures events[i].kind.ToolResult? && TextOf(events[i], ToolUseId) in paired <==> ShownWithCall(events, i)
  {
    var id := TextOf(events[i], ToolUseId);
    if events[i].kind.ToolResult? && UseBefore(events, i, id) {
      assert IsResultOf(events[i], id);
    }
  }

  lemma OtherRole(events: seq<Event>, i: nat, out: seq<TreeNode>, byTuid: map<string, TreeNode>)
    requires i < |events| && !events[i].kind.Subagent? && NodesByTuid(events, i, out, byTuid)
    ensures var parent := TextOf(events[i], ParentToolUseId);
            if Dropped(events, i) || IsTaskCall(events, events[i]) || ShownWithCall(events, i) then RoleOf(events, i) == Skipped
            else if parent != "" && parent in byTuid
            then RoleOf(events, i).Nested? && EmittedFor(events, i, out, RoleOf(events, i).owner, byTuid[parent])
            else RoleOf(events, i) == Top
    ensures !OpensCard(events, i)
  {
    assert TuidHolds(events, i, out, byTuid, TextOf(events[i], ParentToolUseId));
    hide Dropped, IsTaskCall, ShownWithCall;
  }

  /** The running accumulator: the turn's latest top-level prose, trimmed. */
  method SeeProse(events: seq<Event>, i: nat, last: string) returns (lastAssistant: string)
    requires i < |events| && last == LastAssistant(events, i)
    ensures lastAssistant == LastAssistant(events, i + 1)
    ensures events[i].kind.Result? ==> lastAssistant == LastAssistant(events, i)
  {
    hide Trim;
    lastAssistant := last;
    var e := events[i];
    var text := Trim(Js, TextOf(e, TextField));
    if (e.kind.AssistantText? || e.kind.PlainText? || e.kind.Assistant?) && StrOf(e, ParentToolUseId).None? && text != "" {
      lastAssistant := text;
    }
    if e.kind.UserMessage? || e.kind.User? || e.kind.SteerDelivered? {
      lastAssistant := "";
    }
  }

  /** The test on a result, with the accumulator as it stands. */
  method IsDropped(events: seq<Event>, i: nat, lastAssistant: string) returns (dropped: bool)
    requires i < |events|
    requires events[i].kind.Result? ==> lastAssistant == LastAssistant(events, i)
    ensures dropped == Dropped(events, i)
  {
    hide Trim, IncludesIgnoringCase, EchoesAssistant, LastAssistant;
    var e := events[i];
    var isError := IsErrorResult(e);
    dropped := e.kind.Result? && !isError && EchoesAssistant(Trim(Js, TextOf(e, Summary)), lastAssistant);
  }

  lemma LoopBuilds(events: seq<Event>, out: seq<TreeNode>, byTuid: map<string, TreeNode>,
                   byKey: map<string, TreeNode>, paired: set<string>, results: map<string, nat>)
    requires LoopState(events, |events|, out, byTuid, byKey, paired, results)
    ensures Builds(out, TreeOf(events, |events|))
  {
    hide TreeOf;
  }

  /** One event of the pass. */
  method OnEvent(events: seq<Event>, i: nat, out: seq<TreeNode>, byTuid: map<string, TreeNode>,
                 byKey: map<string, TreeNode>, paired: set<string>, results: map<string, nat>,
                 tuids: set<string>, lastAssistant: string, ghost repr: set<TreeNode>)
    returns (out': seq<TreeNode>, byTuid': map<string, TreeNode>, byKey': map<string, TreeNode>, paired': set<string>,
             ghost repr': set<TreeNode>)
    requires i < |events| && LoopState(events, i, out, byTuid, byKey, paired, results)
    requires forall id :: id in tuids <==> IsTaskId(events, id)
    requires events[i].kind.Result? ==> lastAssistant == LastAssistant(events, i)
    requires Within(out, byTuid, byKey, repr)
    modifies repr
    ensures LoopState(events, i + 1, out', byTuid', byKey', paired', results)
    ensures Within(out', byTuid', byKey', repr') && fresh(repr' - repr)
  {
    hide *;
    byTuid', byKey', paired' := byTuid, byKey, paired;
    if events[i].kind.Subagent? {
      out', byTuid', byKey', repr' := OnSubagent(events, i, out, byTuid, byKey, paired, results, repr);
    } else {
      var dropped := IsDropped(events, i, lastAssistant);
      out', paired', repr' := OnOther(events, i, out, byTuid, byKey, paired, results, tuids, dropped, repr);
    }
  }

  method BuildTree(events: seq<Event>) returns (out: seq<TreeNode>)
    ensures Builds(out, TreeOf(events, |events|))
  {
    hide *;
    var resultById := ResultsById(events);
    var subagentTuids := SubagentTuids(events);
    var paired: set<string> := {};
    var nodesByTuid: map<string, TreeNode>, subagentByKey: map<string, TreeNode> := map[], map[];
    var lastAssistant := "";
    out := [];
    ghost var repr: set<TreeNode> := {};
    NothingBuilt(events, resultById);
    var i := 0;
    while i < |events|
      invariant 0 <= i <= |events|
      invariant fresh(repr) && Within(out, nodesByTuid, subagentByKey, repr)
      invariant lastAssistant == LastAssistant(events, i)
      invariant LoopState(events, i, out, nodesByTuid, subagentByKey, paired, resultById)
    {
      lastAssistant := SeeProse(events, i, lastAssistant);
      out, nodesByTuid, subagentByKey, paired, repr :=
        OnEvent(events, i, out, nodesByTuid, subagentByKey, paired, resultById, subagentTuids, lastAssistant, repr);
      i := i + 1;
    }
    LoopBuilds(events, out, nodesByTuid, subagentByKey, paired, resultById);
  }

  lemma NothingBuilt(events: seq<Event>, results: map<string, nat>)
    requires forall id :: id != "" ==> LastResult(events, |events|, id) == if id in results then Some(results[id]) else None
    ensures LoopState(events, 0, [], map[], map[], {}, results) && LastAssistant(events, 0) == ""
    ensures Within([], map[], map[], {})
  {
  }
}
