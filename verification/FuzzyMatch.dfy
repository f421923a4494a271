/**
 * The fuzzy matcher of the command palette: greedy from left to right, with a guarded hop to a word
 * boundary. Lower-casing is any function on characters.
 */
module FuzzyMatch {

  import opened JsText
  import opened Optional

  datatype Match = Match(score: int, positions: seq<nat>)

  predicate IsBoundary(c: char)
  {
    IsSpace(c) || c in "-_./:@"
  }

  /** A word starts here: at the front, after a separator, or at a camel-case hump. */
  predicate BoundaryStart(lower: char -> char, text: string, i: nat)
    requires i < |text|
  {
    i == 0 || IsBoundary(text[i - 1]) || (text[i - 1] == lower(text[i - 1]) && text[i] != lower(text[i]))
  }

  /** Six separators (`-`, `.`, `/`, `:`, `@` and `_`) and white space end a word, and nothing else. */
  lemma SeparatorsAre(c: char)
    ensures IsBoundary(c) <==> IsSpace(c) || c as int in {45, 46, 47, 58, 64, 95}
  {
  }

  /** After `before`, the character `c` starts a word unless it carries one on. */
  lemma WordStarts(lower: char -> char, before: string, c: char, after: string)
    ensures BoundaryStart(lower, [c] + after, 0)
    ensures forall last :: BoundaryStart(lower, before + [last] + [c] + after, |before| + 1)
                      <==> last as int in {45, 46, 47, 58, 64, 95} || IsSpace(last)
                           || (lower(last) == last && lower(c) != c)
  {
    forall last ensures var text := before + [last] + [c] + after;
                        text[|before|] == last && text[|before| + 1] == c {
    }
  }

  // ---- Subsequences ------------------------------------------------------------------------------

  /** Strictly increasing positions that spell the query. */
  ghost predicate Spells(q: string, t: string, at: seq<nat>)
  {
    |at| == |q| && SpellsStart(q, t, at)
  }

  ghost predicate SpellsStart(q: string, t: string, at: seq<nat>)
  {
    && |at| <= |q|
    && (forall i | 0 <= i < |at| :: at[i] < |t| && t[at[i]] == q[i])
    && (forall i, j | 0 <= i < j < |at| :: at[i] < at[j])
  }

  ghost predicate IsSubsequence(q: string, t: string)
  {
    exists at: seq<nat> :: Spells(q, t, at)
  }

  /** The rest of the query occurs in order from here on. */
  ghost predicate Rest(q: string, qi: nat, t: string, ti: nat)
    requires qi <= |q|
    decreases |q| - qi
  {
    qi == |q| || exists p: nat :: ti <= p < |t| && t[p] == q[qi] && Rest(q, qi + 1, t, p + 1)
  }

  lemma {:induction false} RestSpells(q: string, qi: nat, t: string, ti: nat) returns (at: seq<nat>)
    requires qi <= |q| && Rest(q, qi, t, ti)
    ensures Spells(q[qi..], t, at) && (at != [] ==> at[0] >= ti)
    decreases |q| - qi
  {
    if qi == |q| {
      at := [];
    } else {
      var p: nat :| ti <= p < |t| && t[p] == q[qi] && Rest(q, qi + 1, t, p + 1);
      at := RestSpells(q, qi + 1, t, p + 1);
      assert q[qi..] == [q[qi]] + q[qi + 1..];
      at := [p] + at;
    }
  }

  lemma {:induction false} SpellsRest(q: string, qi: nat, t: string, ti: nat, at: seq<nat>)
    requires qi <= |q| && Spells(q, t, at) && (qi < |q| ==> at[qi] >= ti)
    ensures Rest(q, qi, t, ti)
    decreases |q| - qi
  {
    if qi < |q| {
      SpellsRest(q, qi + 1, t, at[qi] + 1, at);
    }
  }

  lemma SubsequenceIsRest(q: string, t: string)
    ensures IsSubsequence(q, t) <==> Rest(q, 0, t, 0)
  {
    if Rest(q, 0, t, 0) {
      var at := RestSpells(q, 0, t, 0);
      assert q[0..] == q;
    }
    if at: seq<nat> :| Spells(q, t, at) {
      SpellsRest(q, 0, t, 0, at);
    }
  }

  lemma {:induction false} LongIsNone(q: string, t: string, at: seq<nat>, k: nat)
    requires Spells(q, t, at) && k < |at|
    ensures at[k] >= k
  {
    if k > 0 {
      LongIsNone(q, t, at, k - 1);
    }
  }

  /** The first occurrence is as good as any. */
  lemma GreedyKeepsRest(q: string, qi: nat, t: string, ti: nat, found: nat)
    requires qi < |q| && First(t, q[qi], ti, found) && Rest(q, qi, t, ti)
    ensures Rest(q, qi + 1, t, found + 1)
  {
    var p: nat :| ti <= p < |t| && t[p] == q[qi] && Rest(q, qi + 1, t, p + 1);
    if qi + 1 < |q| {
      var p': nat :| p + 1 <= p' < |t| && t[p'] == q[qi + 1] && Rest(q, qi + 2, t, p' + 1);
    }
  }

  ghost predicate First(t: string, c: char, from: nat, found: nat)
  {
    from <= found < |t| && t[found] == c && forall i | from <= i < found :: t[i] != c
  }

  method IndexOf(t: string, c: char, from: nat) returns (found: Option<nat>)
    ensures found.Some? ==> First(t, c, from, found.value)
    ensures found.None? ==> forall i | from <= i < |t| :: t[i] != c
  {
    var i := from;
    while i < |t|
      invariant from <= i
      invariant forall k | from <= k < i && k < |t| :: t[k] != c
    {
      if t[i] == c {
        return Some(i);
      }
      i := i + 1;
    }
    found := None;
  }

  method RemainderMatches(q: string, qi: nat, t: string, from: nat) returns (matches: bool)
    requires qi <= |q|
    ensures matches <==> Rest(q, qi, t, from)
  {
    var ti := from;
    for i := qi to |q|
      invariant Rest(q, qi, t, from) <==> Rest(q, i, t, ti)
    {
      var found := IndexOf(t, q[i], ti);
      if found.None? {
        return false;
      }
      if Rest(q, i, t, ti) {
        GreedyKeepsRest(q, i, t, ti, found.value);
      }
      ti := found.value + 1;
    }
    matches := true;
  }

  // ---- The choice of one position, and the score ---------------------------------------------------

  /** A later boundary hit after which the rest of the query still matches. */
  ghost predicate Hop(lower: char -> char, q: string, text: string, t: string, qi: nat, i: nat)
    requires qi < |q| && i < |text| == |t|
  {
    t[i] == q[qi] && BoundaryStart(lower, text, i) && Rest(q, qi + 1, t, i + 1)
  }

  /** `p` is the position for the next character of the query when the previous ones are `before`. */
  ghost predicate Picked(lower: char -> char, q: string, text: string, t: string, before: seq<nat>, p: nat)
    requires |before| < |q| && |text| == |t|
  {
    var from := if before == [] then 0 else before[|before| - 1] + 1;
    exists found: nat :: First(t, q[|before|], from, found) && PickedFrom(lower, q, text, t, before, found, p)
  }

  ghost predicate PickedFrom(lower: char -> char, q: string, text: string, t: string, before: seq<nat>, found: nat,
                             p: nat)
    requires |before| < |q| && found < |text| == |t|
  {
    if BoundaryStart(lower, text, found) || (before != [] && found == before[|before| - 1] + 1) then p == found
    else if exists i: nat :: found < i < |text| && i < found + 24 && Hop(lower, q, text, t, |before|, i) then
      && found < p < |text| && p < found + 24 && Hop(lower, q, text, t, |before|, p)
      && forall i: nat | found < i < p :: !Hop(lower, q, text, t, |before|, i)
    else p == found
  }

  /** Every position was picked after the ones before it. */
  ghost predicate AllPicked(lower: char -> char, q: string, text: string, t: string, at: seq<nat>)
    requires |at| <= |q| && |text| == |t|
  {
    at == [] || (AllPicked(lower, q, text, t, at[..|at| - 1])
        && Picked(lower, q, text, t, at[..|at| - 1], at[|at| - 1]))
  }

  function PointsAt(lower: char -> char, text: string, at: seq<nat>, k: nat): nat
    requires k < |at| && at[k] < |text|
  {
    1 + (if k > 0 && at[k] == at[k - 1] + 1 then 4 else 0) + (if BoundaryStart(lower, text, at[k]) then 6 else 0)
  }

  /** The score before the adjustment for early starts and long tails. */
  function Base(lower: char -> char, text: string, at: seq<nat>): nat
    requires forall k | 0 <= k < |at| :: at[k] < |text|
  {
    if at == [] then 0 else Base(lower, text, at[..|at| - 1]) + PointsAt(lower, text, at, |at| - 1)
  }

  lemma {:induction false} BaseBounds(lower: char -> char, text: string, at: seq<nat>)
    requires forall k | 0 <= k < |at| :: at[k] < |text|
    ensures |at| <= Base(lower, text, at)
    ensures at != [] ==> Base(lower, text, at) <= 11 * |at| - 4
  {
    if at != [] {
      BaseBounds(lower, text, at[..|at| - 1]);
    }
  }

  predicate RunsOn(at: seq<nat>, k: nat)
  {
    0 < k < |at| && at[k] == at[k - 1] + 1
  }

  /** The positions that go on where the previous one stopped. */
  function RunningOn(at: seq<nat>): set<nat>
  {
    set k: nat | k < |at| && RunsOn(at, k)
  }

  function OnWordStarts(lower: char -> char, text: string, at: seq<nat>): set<nat>
  {
    set k: nat | k < |at| && at[k] < |text| && BoundaryStart(lower, text, at[k])
  }

  lemma OneMoreRun(at: seq<nat>, n: nat)
    requires |at| == n + 1
    ensures |RunningOn(at)| == |RunningOn(at[..n])| + if RunsOn(at, n) then 1 else 0
  {
    var front := RunningOn(at[..n]);
    assert forall k: nat | k < n :: RunsOn(at, k) <==> RunsOn(at[..n], k);
    assert RunningOn(at) == if RunsOn(at, n) then front + {n} else front;
  }

  lemma OneMoreStart(lower: char -> char, text: string, at: seq<nat>, n: nat)
    requires |at| == n + 1 && at[n] < |text|
    ensures |OnWordStarts(lower, text, at)|
         == |OnWordStarts(lower, text, at[..n])| + if BoundaryStart(lower, text, at[n]) then 1 else 0
  {
    var front := OnWordStarts(lower, text, at[..n]);
    assert OnWordStarts(lower, text, at) == if BoundaryStart(lower, text, at[n]) then front + {n} else front;
  }

  /** One point for each position, 4 more for each that runs on, 6 more for each start of a word. */
  lemma {:induction false} BaseCounts(lower: char -> char, text: string, at: seq<nat>)
    requires forall k | 0 <= k < |at| :: at[k] < |text|
    ensures Base(lower, text, at) == |at| + 4 * |RunningOn(at)| + 6 * |OnWordStarts(lower, text, at)|
  {
    if at != [] {
      BaseCounts(lower, text, at[..|at| - 1]);
      OneMoreRun(at, |at| - 1);
      OneMoreStart(lower, text, at, |at| - 1);
    }
  }

  function Dashes(n: nat): string
  {
    seq(n, _ => '-')
  }

  /** The upper bound is met by a run of separators. */
  lemma {:induction false} BestBase(lower: char -> char, text: string, n: nat)
    requires text == Dashes(|text|) && 0 < n <= |text|
    ensures Base(lower, text, seq(n, i => i)) == 11 * n - 4
  {
    var at := seq(n, i => i);
    assert at[..n - 1] == seq(n - 1, i => i);
    if n > 1 {
      BestBase(lower, text, n - 1);
    } else {
      assert at[..0] == [];
    }
  }

  // ---- The matcher -----------------------------------------------------------------------------

  method PickPosition(lower: char -> char, q: string, text: string, t: string, positions: seq<nat>, found: nat)
    returns (p: nat)
    requires |t| == |text| && |positions| < |q| && found < |text|
    requires t[found] == q[|positions|]
    ensures PickedFrom(lower, q, text, t, positions, found, p)
    ensures found <= p < |text| && t[p] == q[|positions|]
    ensures p != found ==> Rest(q, |positions| + 1, t, p + 1)
  {
    p := found;
    if BoundaryStart(lower, text, found) || (positions != [] && found == positions[|positions| - 1] + 1) {
      return;
    }
    for i := found + 1 to if |text| <= found + 24 then |text| else found + 24
      invariant p == found
      invariant forall k: nat | found < k < i :: !Hop(lower, q, text, t, |positions|, k)
    {
      if t[i] == q[|positions|] && BoundaryStart(lower, text, i) {
        var rest := RemainderMatches(q, |positions| + 1, t, i + 1);
        if rest {
          assert Hop(lower, q, text, t, |positions|, i);
          return i;
        }
      }
    }
  }

  /**
   * A match is found exactly if the lower-cased query is a subsequence of the lower-cased text,
   * despite the greedy choice and the hops; its positions spell the query.
   */
  method FindMatch(lower: char -> char, query: string, text: string) returns (m: Option<Match>)
    ensures m.Some? <==> IsSubsequence(Lower(lower, query), Lower(lower, text))
    ensures m.Some? ==> Spells(Lower(lower, query), Lower(lower, text), m.value.positions)
    ensures m.Some? ==> AllPicked(lower, Lower(lower, query), text, Lower(lower, text), m.value.positions)
    ensures m.Some? && query == "" ==> m.value.score == 0
    ensures m.Some? && query != "" ==>
              var at := m.value.positions;
              m.value.score == Base(lower, text, at) + (if at[0] < 8 then 8 - at[0] else 0)
                               - (|text| - |query|) / 8
  {
    var q, t := Lower(lower, query), Lower(lower, text);
    SubsequenceIsRest(q, t);
    if q == "" {
      assert Spells(q, t, []);
      return Some(Match(0, []));
    }
    if |q| > |t| {
      if at: seq<nat> :| Spells(q, t, at) {
        LongIsNone(q, t, at, |q| - 1);
      }
      return None;
    }
    var found := Greedy(lower, q, text, t);
    if found.None? {
      return None;
    }
    var (score, positions) := found.value;
    var early, tail := if positions[0] < 8 then 8 - positions[0] else 0, (|text| - |q|) / 8;
    m := Some(Match(score + early - tail, positions));
  }

  /** The loop over the query's characters. */
  method Greedy(lower: char -> char, q: string, text: string, t: string) returns (r: Option<(nat, seq<nat>)>)
    requires |text| == |t|
    ensures r.Some? <==> Rest(q, 0, t, 0)
    ensures r.Some? ==> |r.value.1| == |q| && SoFar(lower, q, text, t, r.value.1, r.value.0)
  {
    var positions: seq<nat>, score: nat, ti: nat := [], 0, 0;
    for qi := 0 to |q|
      invariant |positions| == qi && ti == if positions == [] then 0 else positions[qi - 1] + 1
      invariant Rest(q, 0, t, 0) <==> Rest(q, qi, t, ti)
      invariant SoFar(lower, q, text, t, positions, score)
    {
      var hit := IndexOf(t, q[qi], ti);
      if hit.None? {
        return None;
      }
      if Rest(q, qi, t, ti) {
        GreedyKeepsRest(q, qi, t, ti, hit.value);
      }
      var found := PickPosition(lower, q, text, t, positions, hit.value);
      Extend(lower, q, text, t, positions, found, score);
      score := AddPoints(lower, text, positions, found, score);
      positions := positions + [found];
      ti := found + 1;
    }
    r := Some((score, positions));
  }

  method AddPoints(lower: char -> char, text: string, before: seq<nat>, found: nat, score: nat) returns (r: nat)
    requires found < |text|
    ensures r == score + PointsAt(lower, text, before + [found], |before|)
  {
    var consecutive := before != [] && found == before[|before| - 1] + 1;
    r := score + 1;
    if consecutive {
      r := r + 4;
    }
    if BoundaryStart(lower, text, found) {
      r := r + 6;
    }
  }

  ghost predicate SoFar(lower: char -> char, q: string, text: string, t: string, at: seq<nat>, score: int)
    requires |text| == |t|
  {
    SpellsStart(q, t, at) && score == Base(lower, text, at) && AllPicked(lower, q, text, t, at)
  }

  lemma Extend(lower: char -> char, q: string, text: string, t: string, at: seq<nat>, p: nat, score: int)
    requires |text| == |t| && |at| < |q| && SoFar(lower, q, text, t, at, score) && p < |t| && t[p] == q[|at|]
    requires Picked(lower, q, text, t, at, p) && (at != [] ==> at[|at| - 1] < p)
    ensures SoFar(lower, q, text, t, at + [p], score + PointsAt(lower, text, at + [p], |at|))
  {
    ExtendSpells(q, t, at, p);
    ExtendBase(lower, text, at, p);
    assert (at + [p])[..|at|] == at;
  }

  lemma ExtendSpells(q: string, t: string, at: seq<nat>, p: nat)
    requires |at| < |q| && SpellsStart(q, t, at) && p < |t| && t[p] == q[|at|] && (at != [] ==> at[|at| - 1] < p)
    ensures SpellsStart(q, t, at + [p])
  {
    assert forall k | 0 <= k < |at| :: k < |at| - 1 ==> at[k] < at[|at| - 1];
  }

  lemma ExtendBase(lower: char -> char, text: string, at: seq<nat>, p: nat)
    requires (forall k | 0 <= k < |at| :: at[k] < |text|) && p < |text|
    ensures Base(lower, text, at + [p]) == Base(lower, text, at) + PointsAt(lower, text, at + [p], |at|)
  {
    assert (at + [p])[..|at|] == at;
  }
}
