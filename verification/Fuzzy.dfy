/** The greedy subsequence matcher of the palette, and its ranking. */
module Fuzzy {
  import opened Options
  import opened Text

  // ---- Embeddings of the query in the text ----

  predicate Increasing(es: seq<nat>) {
    forall j, k | 0 <= j < k < |es| :: es[j] < es[k]
  }

  /** `es` picks the characters of `q`, in order, out of `t`. */
  predicate Embeds(q: string, t: string, es: seq<nat>) {
    |es| == |q| && Increasing(es) && forall k | 0 <= k < |es| :: es[k] < |t| && t[es[k]] == q[k]
  }

  /** The embedding that picks every character as early as any embedding does. */
  ghost predicate Leftmost(q: string, t: string, es: seq<nat>) {
    Embeds(q, t, es) && forall fs | Embeds(q, t, fs) :: forall k | 0 <= k < |es| :: es[k] <= fs[k]
  }

  predicate AlphaNumeric(c: char) {
    'a' <= c <= 'z' || 'A' <= c <= 'Z' || '0' <= c <= '9'
  }

  predicate WordStart(t: string, i: nat)
    requires i < |t|
  {
    i == 0 || !AlphaNumeric(t[i - 1])
  }

  /** What the `k`-th picked character earns: one, two more right after the last, three more at a word start. */
  function Points(t: string, es: seq<nat>, k: nat): nat
    requires k < |es| && es[k] < |t|
  {
    1 + (if k > 0 && es[k] == es[k - 1] + 1 then 2 else 0) + (if WordStart(t, es[k]) then 3 else 0)
  }

  function Score(t: string, es: seq<nat>, n: nat): nat
    requires n <= |es| && forall k | 0 <= k < |es| :: es[k] < |t|
  {
    if n == 0 then 0 else Score(t, es, n - 1) + Points(t, es, n - 1)
  }

  lemma {:induction false} ScoreExtends(t: string, es: seq<nat>, x: nat, n: nat)
    requires n <= |es| && x < |t| && forall k | 0 <= k < |es| :: es[k] < |t|
    ensures Score(t, es + [x], n) == Score(t, es, n)
  {
    if n > 0 { ScoreExtends(t, es, x, n - 1); }
  }

  lemma {:induction false} ScoreBounds(t: string, es: seq<nat>, n: nat)
    requires n <= |es| && forall k | 0 <= k < |es| :: es[k] < |t|
    ensures n <= Score(t, es, n) && (n > 0 ==> Score(t, es, n) <= 6 * n - 2)
  {
    if n > 0 { ScoreBounds(t, es, n - 1); }
  }

  /** The scan up to `ti`: the picks so far are as early as in any embedding, and the next comes later. */
  ghost predicate Scanned(q: string, t: string, es: seq<nat>, ti: nat) {
    && |es| <= |q| && ti <= |t|
    && Embeds(q[..|es|], t, es)
    && (forall k | 0 <= k < |es| :: es[k] < ti)
    && (forall fs | Embeds(q, t, fs) :: NoLater(q, es, ti, fs))
  }

  predicate NoLater(q: string, es: seq<nat>, ti: nat, fs: seq<nat>)
    requires |es| <= |q|
  {
    |fs| == |q| && (forall k | 0 <= k < |es| :: es[k] <= fs[k]) && (|es| < |q| ==> fs[|es|] >= ti)
  }

  lemma PickStep(q: string, t: string, es: seq<nat>, ti: nat)
    requires Scanned(q, t, es, ti) && ti < |t| && |es| < |q| && t[ti] == q[|es|]
    ensures Scanned(q, t, es + [ti], ti + 1)
  {
    var picked := es + [ti];
    assert q[..|picked|] == q[..|es|] + [q[|es|]];
    forall fs | Embeds(q, t, fs) ensures NoLater(q, picked, ti + 1, fs) {
      assert NoLater(q, es, ti, fs);
      if |picked| < |q| {
        assert fs[|es|] < fs[|picked|];
      }
    }
  }

  lemma SkipStep(q: string, t: string, es: seq<nat>, ti: nat)
    requires Scanned(q, t, es, ti) && ti < |t| && |es| < |q| && t[ti] != q[|es|]
    ensures Scanned(q, t, es, ti + 1)
  {
    forall fs | Embeds(q, t, fs) ensures NoLater(q, es, ti + 1, fs) {
      assert NoLater(q, es, ti, fs);
      assert t[fs[|es|]] == q[|es|];
    }
  }

  lemma ScanEnds(q: string, t: string, es: seq<nat>, ti: nat)
    requires Scanned(q, t, es, ti)
    ensures |es| == |q| ==> Leftmost(q, t, es)
    ensures |es| < |q| && ti == |t| ==> forall fs :: !Embeds(q, t, fs)
  {
    if |es| == |q| {
      assert q[..|es|] == q;
      forall fs | Embeds(q, t, fs) ensures forall k | 0 <= k < |es| :: es[k] <= fs[k] {
        assert NoLater(q, es, ti, fs);
      }
    } else if ti == |t| {
      assert forall fs :: Embeds(q, t, fs) ==> NoLater(q, es, ti, fs);
    }
  }

  /** The position of the last pick; before any, one that nothing follows. */
  function LastPick(es: seq<nat>): int {
    if es == [] then -2 else es[|es| - 1]
  }

  /** All picks lie before `ti`, and the running score is theirs. */
  ghost predicate Scored(t: string, es: seq<nat>, ti: nat, score: nat) {
    && ti <= |t|
    && (forall k | 0 <= k < |es| :: es[k] < ti)
    && score == Score(t, es, |es|)
  }

  lemma PickScores(t: string, es: seq<nat>, ti: nat, score: nat)
    requires Scored(t, es, ti, score) && ti < |t|
    ensures Scored(t, es + [ti], ti + 1,
                   score + 1 + (if ti == LastPick(es) + 1 then 2 else 0) + (if WordStart(t, ti) then 3 else 0))
  {
    ScoreExtends(t, es, ti, |es|);
  }

  lemma SkipScores(t: string, es: seq<nat>, ti: nat, score: nat)
    requires Scored(t, es, ti, score) && ti < |t|
    ensures Scored(t, es, ti + 1, score)
  {
  }

  lemma NothingScanned(q: string, t: string)
    ensures Scanned(q, t, [], 0) && Scored(t, [], 0, 0)
  {
  }

  /** The score of `q` in `t`: that of the leftmost embedding, none when there is no embedding. */
  ghost predicate HasScore(q: string, t: string, r: Option<nat>) {
    match r
    case None => forall es :: !Embeds(q, t, es)
    case Some(score) => exists es :: Leftmost(q, t, es) && score == Score(t, es, |es|)
  }

  /** There is one leftmost embedding, so one score. */
  lemma ScoreIsUnique(q: string, t: string, a: Option<nat>, b: Option<nat>)
    requires HasScore(q, t, a) && HasScore(q, t, b)
    ensures a == b
  {
    if a.Some? {
      var es :| Leftmost(q, t, es) && a.value == Score(t, es, |es|);
      assert Embeds(q, t, es);
      var fs :| Leftmost(q, t, fs) && b.value == Score(t, fs, |fs|);
      assert es == fs;
    }
  }

  /**
   `fuzzyScore` on lower-cased strings: null exactly when the query is no subsequence of the
   text; otherwise the score of the leftmost embedding.
   */
  method FuzzyScore(q: string, t: string) returns (r: Option<nat>)
    ensures r.Some? <==> exists es :: Embeds(q, t, es)
    ensures HasScore(q, t, r)
    ensures r.Some? && q != "" ==> |q| <= r.value <= 6 * |q| - 2
  {
    hide Scanned, Scored, Leftmost, Embeds, HasScore;
    if q == "" {
      EmptyQuery(t);
      return Some(0);
    }
    var qi, score: nat, prevMatch := 0, 0, -2;
    ghost var es: seq<nat> := [];
    NothingScanned(q, t);
    var ti := 0;
    while ti < |t| && qi < |q|
      invariant 0 <= qi <= |q| && 0 <= ti <= |t|
      invariant |es| == qi && Scanned(q, t, es, ti)
      invariant prevMatch == LastPick(es)
      invariant Scored(t, es, ti, score)
    {
      if t[ti] == q[qi] {
        PickStep(q, t, es, ti);
        PickScores(t, es, ti, score);
        score := score + 1;
        if ti == prevMatch + 1 { score := score + 2; }
        if ti == 0 || !AlphaNumeric(t[ti - 1]) { score := score + 3; }
        es := es + [ti];
        prevMatch := ti;
        qi := qi + 1;
      } else {
        SkipStep(q, t, es, ti);
        SkipScores(t, es, ti, score);
      }
      ti := ti + 1;
    }
    ScanEnds(q, t, es, ti);
    if qi == |q| {
      FoundScores(q, t, es, ti, score);
      r := Some(score);
    } else {
      NotFound(q, t);
      r := None;
    }
  }

  lemma EmptyQuery(t: string)
    ensures HasScore("", t, Some(0)) && Embeds("", t, [])
  {
    assert Leftmost("", t, []) && Score(t, [], 0) == 0;
  }

  lemma NotFound(q: string, t: string)
    requires forall es :: !Embeds(q, t, es)
    ensures HasScore(q, t, None)
  {
  }

  lemma FoundScores(q: string, t: string, es: seq<nat>, ti: nat, score: nat)
    requires Scored(t, es, ti, score) && Leftmost(q, t, es) && q != ""
    ensures Embeds(q, t, es) && HasScore(q, t, Some(score)) && |q| <= score <= 6 * |q| - 2
  {
    ScoreBounds(t, es, |es|);
  }

  // ---- Ranking ----

  /** Item `i` ranks before item `j`: a higher score, or the same score and an earlier place. */
  predicate Before(scores: seq<Option<nat>>, i: nat, j: nat)
    requires i < |scores| && scores[i].Some? && j < |scores| && scores[j].Some?
  {
    scores[i].value > scores[j].value || (scores[i].value == scores[j].value && i < j)
  }

  predicate Matching(scores: seq<Option<nat>>, order: seq<nat>) {
    forall k | 0 <= k < |order| :: order[k] < |scores| && scores[order[k]].Some?
  }

  /** Sorted by non-increasing score, ties in their original order; no item twice. */
  predicate Ranked(scores: seq<Option<nat>>, order: seq<nat>) {
    Matching(scores, order) && forall j, k | 0 <= j < k < |order| :: Before(scores, order[j], order[k])
  }

  /** A place for item `i`: all before it score at least as much, all after it less. */
  lemma PlacedIsRanked(scores: seq<Option<nat>>, order: seq<nat>, i: nat, p: nat)
    requires Ranked(scores, order) && i < |scores| && scores[i].Some? && p <= |order|
    requires forall k | 0 <= k < |order| :: order[k] < i
    requires forall k | p <= k < |order| :: scores[order[k]].value < scores[i].value
    requires p > 0 ==> scores[order[p - 1]].value >= scores[i].value
    ensures Ranked(scores, order[..p] + [i] + order[p..])
  {
    var out := order[..p] + [i] + order[p..];
    forall k | 0 <= k < p ensures Before(scores, order[k], i) {
      if k < p - 1 { assert Before(scores, order[k], order[p - 1]); }
    }
    forall j, k | 0 <= j < k < |out| ensures Before(scores, out[j], out[k]) {
      var j', k' := if j < p then j else j - 1, if k < p then k else k - 1;
      if j != p && k != p { assert Before(scores, order[j'], order[k']); }
    }
  }

  lemma PlacedMembers(order: seq<nat>, i: nat, p: nat)
    requires p <= |order|
    ensures forall x :: x in order[..p] + [i] + order[p..] <==> x in order || x == i
  {
    assert order == order[..p] + order[p..];
  }

  /** Where a stable sort puts a later item: after all that score at least as much. */
  method Place(scores: seq<Option<nat>>, order: seq<nat>, i: nat) returns (out: seq<nat>)
    requires Ranked(scores, order) && i < |scores| && scores[i].Some?
    requires forall k | 0 <= k < |order| :: order[k] < i
    ensures Ranked(scores, out)
    ensures forall x :: x in out <==> x in order || x == i
  {
    var p := |order|;
    while p > 0 && scores[order[p - 1]].value < scores[i].value
      invariant 0 <= p <= |order|
      invariant forall k | p <= k < |order| :: scores[order[k]].value < scores[i].value
    {
      p := p - 1;
    }
    PlacedIsRanked(scores, order, i, p);
    PlacedMembers(order, i, p);
    hide Ranked;
    out := order[..p] + [i] + order[p..];
  }

  /**
   `fuzzyFilter`: with a blank query all items as they were; otherwise exactly the items whose
   key the query is a subsequence of, ranked by their scores.  `order` says which item is where.
   */
  method FuzzyFilter<T>(query: string, items: seq<T>, key: T -> string)
    returns (out: seq<T>, ghost order: seq<nat>, ghost scores: seq<Option<nat>>)
    ensures Trim(Js, query) == "" ==> out == items
    ensures Trim(Js, query) != "" ==>
              && |scores| == |items| && (forall i | 0 <= i < |items| :: HasScore(query, key(items[i]), scores[i]))
              && Ranked(scores, order)
              && (forall i :: i in order <==> 0 <= i < |items| && exists es :: Embeds(query, key(items[i]), es))
              && |out| == |order| && forall k | 0 <= k < |order| :: out[k] == items[order[k]]
  {
    hide Trim, HasScore, Ranked, Embeds;
    out, order, scores := items, [], [];
    if Trim(Js, query) == "" { return; }
    var found := ScoreAll(query, items, key);
    var ranking := RankAll(found);
    scores, order, out := found, ranking, [];
    InOrder(found, ranking);
    var k := 0;
    while k < |ranking|
      invariant 0 <= k == |out| <= |ranking|
      invariant forall j | 0 <= j < k :: out[j] == items[ranking[j]]
    {
      out := out + [items[ranking[k]]];
      k := k + 1;
    }
  }

  method ScoreAll<T>(query: string, items: seq<T>, key: T -> string) returns (scores: seq<Option<nat>>)
    ensures |scores| == |items|
    ensures forall i | 0 <= i < |items| :: HasScore(query, key(items[i]), scores[i])
    ensures forall i | 0 <= i < |items| :: scores[i].Some? <==> exists es :: Embeds(query, key(items[i]), es)
  {
    hide HasScore, Embeds;
    scores := [];
    var i := 0;
    while i < |items|
      invariant 0 <= i == |scores| <= |items|
      invariant forall j | 0 <= j < i :: HasScore(query, key(items[j]), scores[j])
      invariant forall j | 0 <= j < i :: scores[j].Some? <==> exists es :: Embeds(query, key(items[j]), es)
    {
      var score := FuzzyScore(query, key(items[i]));
      scores := scores + [score];
      i := i + 1;
    }
  }

  /** The null scores left out, and a stable sort by non-increasing score. */
  method RankAll(scores: seq<Option<nat>>) returns (order: seq<nat>)
    ensures Ranked(scores, order)
    ensures forall i :: i in order <==> 0 <= i < |scores| && scores[i].Some?
  {
    order := [];
    var i := 0;
    while i < |scores|
      invariant 0 <= i <= |scores|
      invariant Ranked(scores, order)
      invariant forall x :: x in order <==> 0 <= x < i && scores[x].Some?
    {
      if scores[i].Some? {
        assert forall k | 0 <= k < |order| :: order[k] in order;
        order := Place(scores, order, i);
      }
      i := i + 1;
    }
  }

  lemma InOrder(scores: seq<Option<nat>>, order: seq<nat>)
    requires Ranked(scores, order)
    ensures forall k | 0 <= k < |order| :: order[k] < |scores|
  {
  }

  /** There is only one ranking of the matching items: any stable sort gives it. */
  lemma {:induction false} RankingIsUnique(scores: seq<Option<nat>>, a: seq<nat>, b: seq<nat>)
    requires Ranked(scores, a) && Ranked(scores, b)
    requires forall x :: x in a <==> x in b
    ensures a == b
    decreases |a|
  {
    NonEmptyToo(a, b);
    NonEmptyToo(b, a);
    if a != [] {
      assert a[0] in b && b[0] in a;
      HeadIsFirst(scores, b, a[0]);
      HeadIsFirst(scores, a, b[0]);
      assert a[0] == b[0];
      forall x ensures x in a[1..] <==> x in b[1..] {
        TailOf(scores, a, x);
        TailOf(scores, b, x);
      }
      RankingIsUnique(scores, a[1..], b[1..]);
      assert a == [a[0]] + a[1..] && b == [b[0]] + b[1..];
    }
  }

  lemma NonEmptyToo(a: seq<nat>, b: seq<nat>)
    requires forall x | x in a :: x in b
    ensures a != [] ==> b != []
  {
    if a != [] { assert a[0] in a; }
  }

  lemma HeadIsFirst(scores: seq<Option<nat>>, a: seq<nat>, x: nat)
    requires Ranked(scores, a) && x in a
    ensures x == a[0] || Before(scores, a[0], x)
  {
  }

  lemma TailOf(scores: seq<Option<nat>>, a: seq<nat>, x: nat)
    requires Ranked(scores, a) && a != []
    ensures x in a[1..] <==> x in a && x != a[0]
  {
    if x in a[1..] {
      var k :| 0 <= k < |a| - 1 && a[1..][k] == x;
      assert Before(scores, a[0], a[k + 1]);
    }
  }

  // ---- The bonuses, on texts where they can be read off ----

  function Upto(n: nat): seq<nat> {
    if n == 0 then [] else Upto(n - 1) + [n - 1]
  }

  lemma {:induction false} UptoIs(n: nat)
    ensures |Upto(n)| == n && forall k | 0 <= k < n :: Upto(n)[k] == k
  {
    if n > 0 { UptoIs(n - 1); }
  }

  lemma {:induction false} NoEarlier(es: seq<nat>, k: nat)
    requires Increasing(es) && k < |es|
    ensures k <= es[k]
  {
    if k > 0 { NoEarlier(es, k - 1); }
  }

  lemma {:induction false} RunScores(t: string, es: seq<nat>, n: nat)
    requires |es| == |t| && (forall k | 0 <= k < |es| :: es[k] == k) && (forall c | c in t :: AlphaNumeric(c))
    requires 0 < n <= |t|
    ensures Score(t, es, n) == 3 * n + 1
  {
    if n > 1 {
      RunScores(t, es, n - 1);
      assert t[n - 2] in t;
    }
  }

  /** A whole word matched: one and three for its start, then one and two for each letter that follows. */
  lemma WholeWordScores(q: string)
    requires q != "" && forall c | c in q :: AlphaNumeric(c)
    ensures HasScore(q, q, Some(3 * |q| + 1))
  {
    var es := Upto(|q|);
    UptoIs(|q|);
    hide Upto;
    forall fs | Embeds(q, q, fs) ensures forall k | 0 <= k < |es| :: es[k] <= fs[k] {
      forall k | 0 <= k < |es| ensures es[k] <= fs[k] { NoEarlier(fs, k); }
    }
    RunScores(q, es, |q|);
    assert Leftmost(q, q, es);
  }

  /** Two initials, one apart: each starts a word, and an underscore or any other sign ends one. */
  lemma InitialsScore(a: char, sign: char, b: char)
    requires AlphaNumeric(a) && AlphaNumeric(b)
    requires !('a' <= sign <= 'z' || 'A' <= sign <= 'Z' || '0' <= sign <= '9')
    ensures HasScore([a, b], [a, sign, b], Some(8))
  {
    var es: seq<nat> := [0, 2];
    var q, t := [a, b], [a, sign, b];
    forall fs | Embeds(q, t, fs) ensures es[0] <= fs[0] && es[1] <= fs[1] {
      assert t[fs[1]] == q[1] && q[1] == b && t[1] == sign;
    }
    assert Score(t, es, 0) == 0 && Score(t, es, 1) == 4 && Score(t, es, 2) == 8;
    assert Leftmost(q, t, es);
  }

  /** A letter inside a word earns one. */
  lemma InnerLetterScores(a: char, b: char)
    requires AlphaNumeric(a) && a != b
    ensures HasScore([b], [a, b], Some(1))
  {
    var es: seq<nat> := [1];
    forall fs | Embeds([b], [a, b], fs) ensures es[0] <= fs[0] {
      assert [a, b][fs[0]] == [b][0] && [a, b][0] == a;
    }
    assert Score([a, b], es, 0) == 0 && Score([a, b], es, 1) == 1;
    assert Leftmost([b], [a, b], es);
  }
}
