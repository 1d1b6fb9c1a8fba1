/** The shortcut registry, the resolution of a combo, and the chord machine. */
module Keymap {
  import opened Options

  /** A registered bind; `id` is its identity as an object. */
  datatype Bind = Bind(id: nat, combo: string, route: bool, allowInInput: bool)

  // ---- Resolution ----

  /** The last of `binds` for this combo. */
  function LastFor(binds: seq<Bind>, combo: string): Option<Bind> {
    if binds == [] then None
    else
      var last := binds[|binds| - 1];
      if last.combo == combo then Some(last) else LastFor(binds[..|binds| - 1], combo)
  }

  /** The binds of one scope, in order. */
  function InScope(binds: seq<Bind>, route: bool): seq<Bind> {
    if binds == [] then []
    else
      var before, last := InScope(binds[..|binds| - 1], route), binds[|binds| - 1];
      if last.route == route then before + [last] else before
  }

  /** A route bind shadows a global one; within a scope the last registered wins. */
  function Resolve(registry: seq<Bind>, combo: string): Option<Bind> {
    var routed := LastFor(InScope(registry, true), combo);
    if routed.Some? then routed else LastFor(InScope(registry, false), combo)
  }

  /** Any reordering that keeps the order within each scope resolves every combo alike. */
  lemma ReorderingResolvesAlike(a: seq<Bind>, b: seq<Bind>, combo: string)
    requires InScope(a, true) == InScope(b, true) && InScope(a, false) == InScope(b, false)
    ensures Resolve(a, combo) == Resolve(b, combo)
  {
  }

  lemma LastForSnoc(binds: seq<Bind>, b: Bind, combo: string)
    ensures LastFor(binds + [b], combo) == if b.combo == combo then Some(b) else LastFor(binds, combo)
  {
    assert (binds + [b])[..|binds|] == binds;
  }

  /** Resolution from the back: what the registry's tail decides, and what it leaves open. */
  function FromTail(head: seq<Bind>, combo: string, fallback: Option<Bind>): Option<Bind> {
    var routed := LastFor(InScope(head, true), combo);
    if routed.Some? then routed else if fallback.Some? then fallback else LastFor(InScope(head, false), combo)
  }

  lemma FromTailStep(head: seq<Bind>, combo: string, fallback: Option<Bind>)
    requires head != []
    ensures var front, b := head[..|head| - 1], head[|head| - 1];
            FromTail(head, combo, fallback) ==
            if b.combo != combo then FromTail(front, combo, fallback)
            else if b.route then Some(b)
            else FromTail(front, combo, if fallback.None? then Some(b) else fallback)
  {
    var front, b := head[..|head| - 1], head[|head| - 1];
    LastForSnoc(InScope(front, true), b, combo);
    LastForSnoc(InScope(front, false), b, combo);
    hide LastFor;
  }

  /** `findBind`: one pass from the back, with a fallback. */
  method FindBind(registry: seq<Bind>, combo: string) returns (bind: Option<Bind>)
    ensures bind == Resolve(registry, combo)
  {
    hide FromTail;
    var fallback: Option<Bind> := None;
    var i := |registry|;
    assert registry[..i] == registry;
    assert FromTail(registry, combo, None) == Resolve(registry, combo) by { NoFallback(registry, combo); }
    while i > 0
      invariant 0 <= i <= |registry|
      invariant FromTail(registry[..i], combo, fallback) == Resolve(registry, combo)
    {
      i := i - 1;
      var b := registry[i];
      assert registry[..i + 1][..i] == registry[..i];
      FromTailStep(registry[..i + 1], combo, fallback);
      if b.combo == combo {
        if b.route { return Some(b); }
        if fallback.None? { fallback := Some(b); }
      }
    }
    NothingLeft(combo, fallback);
    bind := fallback;
  }

  lemma NoFallback(registry: seq<Bind>, combo: string)
    ensures FromTail(registry, combo, None) == Resolve(registry, combo)
  {
  }

  lemma NothingLeft(combo: string, fallback: Option<Bind>)
    ensures FromTail([], combo, fallback) == fallback
  {
  }

  /** Where the last bind of this scope for the combo stands. */
  function LastAt(binds: seq<Bind>, combo: string, route: bool): (r: Option<nat>)
    ensures match r
            case None => forall j | 0 <= j < |binds| :: !(binds[j].combo == combo && binds[j].route == route)
            case Some(k) => k < |binds| && binds[k].combo == combo && binds[k].route == route
                            && forall j | k < j < |binds| :: !(binds[j].combo == combo && binds[j].route == route)
  {
    if binds == [] then None
    else if binds[|binds| - 1].combo == combo && binds[|binds| - 1].route == route then Some(|binds| - 1)
    else LastAt(binds[..|binds| - 1], combo, route)
  }

  lemma {:induction false} LastInScope(binds: seq<Bind>, combo: string, route: bool)
    ensures LastFor(InScope(binds, route), combo) ==
            match LastAt(binds, combo, route) case None => None case Some(k) => Some(binds[k])
    decreases |binds|
  {
    if binds != [] {
      var front, last := binds[..|binds| - 1], binds[|binds| - 1];
      LastInScope(front, combo, route);
      LastForSnoc(InScope(front, route), last, combo);
      hide LastFor;
    }
  }

  /** A combo resolves to the last route bind for it, or, when there is none, to the last global one. */
  lemma ResolvesTo(registry: seq<Bind>, combo: string, k: nat)
    requires k < |registry| && registry[k].combo == combo
    requires forall j | k < j < |registry| && registry[j].combo == combo :: registry[k].route && !registry[j].route
    requires !registry[k].route ==> forall j | 0 <= j < |registry| && registry[j].combo == combo :: !registry[j].route
    ensures Resolve(registry, combo) == Some(registry[k])
  {
    hide LastFor, InScope;
    LastInScope(registry, combo, true);
    LastInScope(registry, combo, false);
  }

  /** And to nothing exactly when it is not bound. */
  lemma UnboundResolvesToNothing(registry: seq<Bind>, combo: string)
    ensures Resolve(registry, combo) == None <==> forall j | 0 <= j < |registry| :: registry[j].combo != combo
  {
    hide LastFor, InScope;
    LastInScope(registry, combo, true);
    LastInScope(registry, combo, false);
  }

  // ---- Registration ----

  function Flatten(groups: seq<seq<Bind>>): seq<Bind> {
    if groups == [] then [] else groups[0] + Flatten(groups[1..])
  }

  function Without(binds: seq<Bind>, gone: seq<Bind>): seq<Bind> {
    if binds == [] then []
    else (if binds[0] in gone then [] else [binds[0]]) + Without(binds[1..], gone)
  }

  lemma {:induction false} WithoutConcat(a: seq<Bind>, b: seq<Bind>, gone: seq<Bind>)
    ensures Without(a + b, gone) == Without(a, gone) + Without(b, gone)
  {
    if a == [] {
      assert a + b == b;
    } else {
      assert (a + b)[1..] == a[1..] + b;
      WithoutConcat(a[1..], b, gone);
    }
  }

  lemma {:induction false} WithoutOthers(a: seq<Bind>, gone: seq<Bind>)
    requires forall b | b in a :: b !in gone
    ensures Without(a, gone) == a
  {
    if a != [] { WithoutOthers(a[1..], gone); }
  }

  lemma {:induction false} WithoutAll(a: seq<Bind>, gone: seq<Bind>)
    requires forall b | b in a :: b in gone
    ensures Without(a, gone) == []
  {
    if a != [] { WithoutAll(a[1..], gone); }
  }

  lemma WithoutNext(a: seq<Bind>, i: nat, gone: seq<Bind>)
    requires i < |a|
    ensures Without(a[..i + 1], gone) == Without(a[..i], gone) + if a[i] in gone then [] else [a[i]]
  {
    assert a[..i + 1] == a[..i] + [a[i]];
    WithoutConcat(a[..i], [a[i]], gone);
    assert [a[i]][1..] == [];
  }

  method FilterOut(registry: seq<Bind>, binds: seq<Bind>) returns (kept: seq<Bind>)
    ensures kept == Without(registry, binds)
  {
    kept := [];
    var i := 0;
    while i < |registry|
      invariant 0 <= i <= |registry|
      invariant kept == Without(registry[..i], binds)
    {
      WithoutNext(registry, i, binds);
      hide Without;
      if registry[i] !in binds { kept := kept + [registry[i]]; }
      i := i + 1;
    }
    assert registry[..i] == registry;
  }

  predicate Disjoint(groups: seq<seq<Bind>>) {
    forall j, k | 0 <= j < k < |groups| :: forall b | b in groups[j] :: b !in groups[k]
  }

  predicate IdsBelow(groups: seq<seq<Bind>>, n: nat) {
    forall k | 0 <= k < |groups| :: forall b | b in groups[k] :: b.id < n
  }

  lemma AddFresh(groups: seq<seq<Bind>>, g: seq<Bind>, n: nat, n': nat)
    requires Disjoint(groups) && IdsBelow(groups, n) && n <= n'
    requires forall k | 0 <= k < |g| :: n <= g[k].id < n'
    ensures Disjoint(groups + [g]) && IdsBelow(groups + [g], n')
  {
    var all := groups + [g];
    forall j, k | 0 <= j < k < |all| ensures forall b | b in all[j] :: b !in all[k] {
      assert all[j] == groups[j];
    }
  }

  lemma DropOne(groups: seq<seq<Bind>>, k: nat, n: nat)
    requires Disjoint(groups) && IdsBelow(groups, n) && k < |groups|
    ensures Disjoint(groups[..k] + groups[k + 1..]) && IdsBelow(groups[..k] + groups[k + 1..], n)
  {
    var left := groups[..k] + groups[k + 1..];
    forall j | 0 <= j < |left| ensures left[j] == groups[if j < k then j else j + 1] {
    }
  }

  lemma RemoveFirst(groups: seq<seq<Bind>>)
    requires Disjoint(groups) && groups != []
    ensures Without(Flatten(groups), groups[0]) == Flatten(groups[1..])
  {
    var rest := groups[1..];
    WithoutConcat(groups[0], Flatten(rest), groups[0]);
    WithoutAll(groups[0], groups[0]);
    NotInFlatten(rest, groups[0]);
    WithoutOthers(Flatten(rest), groups[0]);
  }

  /** Removing one live group leaves the others in order, whatever was registered after it. */
  lemma {:induction false} RemoveGroup(groups: seq<seq<Bind>>, k: nat)
    requires Disjoint(groups) && k < |groups|
    ensures Without(Flatten(groups), groups[k]) == Flatten(groups[..k] + groups[k + 1..])
    decreases k
  {
    if k == 0 {
      RemoveFirst(groups);
      assert groups[..0] + groups[1..] == groups[1..];
    } else {
      var rest, left := groups[1..], groups[..k] + groups[k + 1..];
      assert left[0] == groups[0] && left[1..] == rest[..k - 1] + rest[k..];
      assert rest[k - 1] == groups[k];
      WithoutOthers(groups[0], groups[k]);
      WithoutConcat(groups[0], Flatten(rest), groups[k]);
      RemoveGroup(rest, k - 1);
      hide Without, Disjoint;
    }
  }

  lemma {:induction false} NotInFlatten(groups: seq<seq<Bind>>, gone: seq<Bind>)
    requires forall k | 0 <= k < |groups| :: forall b | b in groups[k] :: b !in gone
    ensures forall b | b in Flatten(groups) :: b !in gone
  {
    if groups != [] { NotInFlatten(groups[1..], gone); }
  }

  lemma {:induction false} FlattenSnoc(groups: seq<seq<Bind>>, g: seq<Bind>)
    ensures Flatten(groups + [g]) == Flatten(groups) + g
  {
    if groups == [] {
      assert groups + [g] == [g] && Flatten([g][1..]) == [];
    } else {
      assert (groups + [g])[1..] == groups[1..] + [g];
      FlattenSnoc(groups[1..], g);
    }
  }

  // ---- Chords ----

  /** The part of a combo before its first space, unless the space comes first. */
  function Prefix(combo: string): Option<string> {
    var n := IndexOfSpace(combo);
    if 0 < n < |combo| then Some(combo[..n]) else None
  }

  function IndexOfSpace(s: string): (n: nat)
    ensures n <= |s| && ' ' !in s[..n] && (n < |s| ==> s[n] == ' ')
  {
    if s == "" || s[0] == ' ' then 0
    else
      var n := IndexOfSpace(s[1..]);
      assert s[..n + 1] == [s[0]] + s[1..][..n];
      n + 1
  }

  predicate IsPrefix(registry: seq<Bind>, combo: string) {
    exists b | b in registry :: Prefix(b.combo) == Some(combo)
  }

  method ChordPrefixes(registry: seq<Bind>) returns (out: set<string>)
    ensures forall c :: c in out <==> IsPrefix(registry, c)
  {
    out := {};
    var i := 0;
    while i < |registry|
      invariant 0 <= i <= |registry|
      invariant forall c :: c in out <==> IsPrefix(registry[..i], c)
    {
      assert registry[..i + 1] == registry[..i] + [registry[i]];
      var sp := IndexOfSpace(registry[i].combo);
      if 0 < sp < |registry[i].combo| {
        out := out + {registry[i].combo[..sp]};
      }
      i := i + 1;
    }
    assert registry[..i] == registry;
  }

  /** A keydown: what the page looks like to it, its combo, and whether focus is in a text field. */
  datatype Key = Key(bareModifier: bool, escapeInOverlay: bool, pickerOpen: bool, combo: string, typing: bool)

  predicate Ignored(e: Key) {
    e.bareModifier || e.escapeInOverlay || e.pickerOpen
  }

  /** The bind a combo would fire. */
  function Fire(registry: seq<Bind>, combo: string, typing: bool): Option<Bind> {
    var b := Resolve(registry, combo);
    if b.Some? && (!typing || b.value.allowInInput) then b else None
  }

  /** What a keydown fires, given the prefix that is pending. */
  function Fired(registry: seq<Bind>, pending: Option<string>, e: Key): Option<Bind> {
    if Ignored(e) then None
    else
      var chord := if pending.Some? then Fire(registry, pending.value + " " + e.combo, e.typing) else None;
      if chord.Some? then chord else Fire(registry, e.combo, e.typing)
  }

  function PendingAfter(registry: seq<Bind>, pending: Option<string>, e: Key): Option<string> {
    if Ignored(e) then pending
    else if Fired(registry, pending, e).None? && !e.typing && IsPrefix(registry, e.combo) then Some(e.combo)
    else None
  }

  /** A plain keydown outside text fields and overlays. */
  function Press(combo: string): Key {
    Key(false, false, false, combo, false)
  }

  /**
   Pressing `p` and then `c` fires the bind of the chord exactly when nothing is bound to `p`
   alone: a bind on the prefix makes the chord unreachable.
   */
  lemma ChordReachableExactly(registry: seq<Bind>, p: string, c: string)
    requires p != "" && ' ' !in p
    requires Resolve(registry, p + " " + c).Some?
    ensures var pending := PendingAfter(registry, None, Press(p));
            Fired(registry, pending, Press(c)) == Resolve(registry, p + " " + c) <==> Resolve(registry, p).None?
  {
    var chord := Resolve(registry, p + " " + c);
    ResolvedIsRegistered(registry, p + " " + c);
    ResolvedIsRegistered(registry, c);
    assert |p + " " + c| > |c|;
    PrefixOfChord(p, c);
    assert chord.value in registry && Prefix(chord.value.combo) == Some(p);
    hide Resolve, Prefix;
  }

  /** The prefix of a chord is what comes before its first space. */
  lemma PrefixIs(combo: string, p: string)
    ensures Prefix(combo) == Some(p) <==> p != "" && ' ' !in p && |p| < |combo| && combo[..|p|] == p && combo[|p|] == ' '
  {
    var n := IndexOfSpace(combo);
    if p != "" && ' ' !in p && |p| < |combo| && combo[..|p|] == p && combo[|p|] == ' ' {
      OneFirstSpace(combo, n, |p|);
    }
    hide IndexOfSpace;
  }

  lemma OneFirstSpace(s: string, n: nat, m: nat)
    requires n <= |s| && ' ' !in s[..n] && (n < |s| ==> s[n] == ' ')
    requires m < |s| && ' ' !in s[..m] && s[m] == ' '
    ensures n == m
  {
    assert forall i | 0 <= i < n :: s[i] in s[..n];
    assert forall i | 0 <= i < m :: s[i] in s[..m];
  }

  /** A bind may fire from this key: while typing only those that allow it. */
  predicate MayFire(b: Option<Bind>, e: Key) {
    b.Some? && (e.typing ==> b.value.allowInInput)
  }

  /**
   What a keydown does.  One that is a bare modifier, an escape an overlay handles, or meant
   for an open picker does nothing.  Otherwise the bind of the pending chord fires if it may,
   else the combo's own if it may, and then no prefix is pending; and when nothing fires, the
   combo becomes the pending prefix exactly when focus is in no text field and it begins a chord.
   */
  lemma WhatAKeyDoes(registry: seq<Bind>, pending: Option<string>, e: Key)
    ensures var fired, next := Fired(registry, pending, e), PendingAfter(registry, pending, e);
            if e.bareModifier || e.escapeInOverlay || e.pickerOpen then fired == None && next == pending
            else
              && (pending.Some? && MayFire(Resolve(registry, pending.value + " " + e.combo), e) ==>
                    fired == Resolve(registry, pending.value + " " + e.combo))
              && (!(pending.Some? && MayFire(Resolve(registry, pending.value + " " + e.combo), e)) ==>
                    fired == if MayFire(Resolve(registry, e.combo), e) then Resolve(registry, e.combo) else None)
              && (fired.Some? ==> next == None)
              && (fired == None ==> next == if !e.typing && BeginsChord(registry, e.combo) then Some(e.combo) else None)
  {
    forall b | b in registry
      ensures Prefix(b.combo) == Some(e.combo) <==>
                e.combo != "" && ' ' !in e.combo && |e.combo| < |b.combo| && b.combo[..|e.combo|] == e.combo && b.combo[|e.combo|] == ' '
    {
      PrefixIs(b.combo, e.combo);
    }
    hide Resolve, Prefix;
  }

  /** Some chord starts with this key: the key, a space, and more. */
  predicate BeginsChord(registry: seq<Bind>, combo: string) {
    combo != "" && ' ' !in combo &&
    exists b | b in registry :: |combo| < |b.combo| && b.combo[..|combo|] == combo && b.combo[|combo|] == ' '
  }

  lemma PrefixOfChord(p: string, c: string)
    requires p != "" && ' ' !in p
    ensures Prefix(p + " " + c) == Some(p)
  {
    var s := p + " " + c;
    assert s[|p|] == ' ';
    assert s[..|p|] == p;
  }

  lemma {:induction false} LastForIsOne(binds: seq<Bind>, combo: string)
    ensures LastFor(binds, combo).Some? ==> LastFor(binds, combo).value in binds && LastFor(binds, combo).value.combo == combo
    decreases |binds|
  {
    if binds != [] { LastForIsOne(binds[..|binds| - 1], combo); }
  }

  lemma {:induction false} InScopeIsPart(binds: seq<Bind>, route: bool)
    ensures forall b | b in InScope(binds, route) :: b in binds && b.route == route
    decreases |binds|
  {
    if binds != [] { InScopeIsPart(binds[..|binds| - 1], route); }
  }

  lemma ResolvedIsRegistered(registry: seq<Bind>, combo: string)
    ensures Resolve(registry, combo).Some? ==>
              Resolve(registry, combo).value in registry && Resolve(registry, combo).value.combo == combo
  {
    LastForIsOne(InScope(registry, true), combo);
    LastForIsOne(InScope(registry, false), combo);
    InScopeIsPart(registry, true);
    InScopeIsPart(registry, false);
  }

  // ---- The module's variables ----

  class Shortcuts {
    var registry: seq<Bind>
    var pendingPrefix: Option<string>
    var pendingTimer: Option<nat>
    var running: set<nat>           // timers the browser has yet to fire
    var nextTimer: nat
    var nextId: nat
    ghost var groups: seq<seq<Bind>>  // the live registrations, oldest first

    /** The registry is its live groups in order; a timer runs exactly while a prefix is pending. */
    ghost predicate Valid()
      reads this
    {
      && registry == Flatten(groups)
      && Disjoint(groups)
      && IdsBelow(groups, nextId)
      && (pendingPrefix.Some? <==> pendingTimer.Some?)
      && running == (if pendingTimer.Some? then {pendingTimer.value} else {})
      && (forall t | t in running :: t < nextTimer)
    }

    constructor ()
      ensures Valid() && registry == [] && groups == [] && pendingPrefix.None?
    {
      registry, pendingPrefix, pendingTimer, running, nextTimer, nextId, groups := [], None, None, {}, 0, 0, [];
    }

    /** Each registration wraps its binds in fresh objects. */
    method Wrap(binds: seq<Bind>) returns (wrapped: seq<Bind>)
      modifies this`nextId
      ensures |wrapped| == |binds|
      ensures forall k | 0 <= k < |binds| :: wrapped[k] == binds[k].(id := wrapped[k].id) && old(nextId) <= wrapped[k].id < nextId
      ensures nextId >= old(nextId)
    {
      wrapped := [];
      var i := 0;
      while i < |binds|
        invariant 0 <= i == |wrapped| <= |binds|
        invariant nextId >= old(nextId)
        invariant forall k | 0 <= k < i :: wrapped[k] == binds[k].(id := wrapped[k].id) && old(nextId) <= wrapped[k].id < nextId
      {
        wrapped := wrapped + [binds[i].(id := nextId)];
        nextId := nextId + 1;
        i := i + 1;
      }
    }

    method Register(binds: seq<Bind>) returns (wrapped: seq<Bind>)
      requires Valid()
      modifies this`registry, this`groups, this`nextId
      ensures Valid()
      ensures groups == old(groups) + [wrapped] && registry == old(registry) + wrapped
      ensures |wrapped| == |binds| && forall k | 0 <= k < |binds| :: wrapped[k] == binds[k].(id := wrapped[k].id)
    {
      ghost var n := nextId;
      wrapped := Wrap(binds);
      FlattenSnoc(groups, wrapped);
      AddFresh(groups, wrapped, n, nextId);
      registry := registry + wrapped;
      groups := groups + [wrapped];
    }

    /** The remover a registration returns, for the live group `k`. */
    method Unregister(binds: seq<Bind>, ghost k: nat)
      requires Valid() && k < |groups| && groups[k] == binds
      modifies this`registry, this`groups
      ensures Valid()
      ensures groups == old(groups[..k] + groups[k + 1..])
    {
      RemoveGroup(groups, k);
      DropOne(groups, k, nextId);
      hide Disjoint, IdsBelow, Flatten;
      registry := FilterOut(registry, binds);
      groups := groups[..k] + groups[k + 1..];
    }

    method ClearPending()
      modifies this`pendingPrefix, this`pendingTimer, this`running
      ensures pendingPrefix.None? && pendingTimer.None?
      ensures running == old(if pendingTimer.Some? then running - {pendingTimer.value} else running)
    {
      pendingPrefix := None;
      if pendingTimer.Some? { running := running - {pendingTimer.value}; }
      pendingTimer := None;
    }

    /** A timer that is still running fires: no stale one can clear a newer prefix. */
    method TimerFires(t: nat)
      requires Valid() && t in running
      modifies this`pendingPrefix, this`pendingTimer, this`running
      ensures Valid() && pendingPrefix.None?
      ensures old(pendingTimer) == Some(t)
    {
      running := running - {t};
      ClearPending();
    }

    /** One keydown: at most one handler fires, and it is the one `Fired` names. */
    method Dispatch(e: Key) returns (fired: Option<Bind>)
      requires Valid()
      modifies this`pendingPrefix, this`pendingTimer, this`running, this`nextTimer
      ensures Valid()
      ensures fired == Fired(registry, old(pendingPrefix), e)
      ensures pendingPrefix == PendingAfter(registry, old(pendingPrefix), e)
    {
      hide Resolve, Flatten, Disjoint, IsPrefix;
      if e.bareModifier || e.escapeInOverlay || e.pickerOpen { return None; }
      if pendingPrefix.Some? {
        var chord := pendingPrefix.value + " " + e.combo;
        ClearPending();
        var bind := FindBind(registry, chord);
        if bind.Some? && (!e.typing || bind.value.allowInInput) { return bind; }
      }
      var direct := FindBind(registry, e.combo);
      if direct.Some? && (!e.typing || direct.value.allowInInput) { return direct; }
      if !e.typing {
        var prefixes := ChordPrefixes(registry);
        if e.combo in prefixes {
          pendingPrefix := Some(e.combo);
          pendingTimer := Some(nextTimer);
          running := running + {nextTimer};
          nextTimer := nextTimer + 1;
        }
      }
      fired := None;
    }
  }
}
