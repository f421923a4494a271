/**
 * Comma-joined label selectors: splitting outside parentheses, joining, and adding a term. Closing
 * parentheses too many are ignored, opening ones too many swallow the rest.
 */
module LabelSelector {

  import opened JsText
  import opened Optional

  // ---- Splitting -----------------------------------------------------------------------------------

  function Next(depth: nat, c: char): nat
  {
    if c == '(' then depth + 1 else if c == ')' && depth > 0 then depth - 1 else depth
  }

  /** The nesting depth after the text. */
  function Depth(s: string, depth: nat): nat
  {
    if s == "" then depth else Depth(s[1..], Next(depth, s[0]))
  }

  function Opens(s: string): int
  {
    var surplus: int := multiset(s)['('];
    surplus - multiset(s)[')']
  }

  /** An end of the text never opens more than the depth says, whatever was closed too often before it. */
  lemma {:induction false} DepthAtLeast(s: string, depth: nat, k: nat)
    requires k <= |s|
    ensures Depth(s, depth) >= Opens(s[k..]) && Depth(s, depth) >= depth + Opens(s)
  {
    if s != "" {
      assert s == [s[0]] + s[1..] && (k > 0 ==> s[k..] == s[1..][k - 1..]);
      DepthAtLeast(s[1..], Next(depth, s[0]), if k > 0 then k - 1 else 0);
    }
  }

  lemma {:induction false} DepthReached(s: string, depth: nat) returns (k: nat)
    ensures k <= |s| && (Depth(s, depth) == depth + Opens(s) || Depth(s, depth) == Opens(s[k..]))
  {
    k := 0;
    if s != "" {
      assert s == [s[0]] + s[1..];
      k := DepthReached(s[1..], Next(depth, s[0]));
      assert s[1..][k..] == s[k + 1..];
      k := if Depth(s, depth) == Opens(s[k + 1..]) then k + 1 else 1;
    }
  }

  /** The depth is the largest surplus of opening parentheses that any end of the text has. */
  lemma DepthExactly(s: string, n: nat)
    ensures n == Depth(s, 0)
       <==> && (forall k | 0 <= k <= |s| :: Opens(s[k..]) <= n)
            && exists k :: 0 <= k <= |s| && Opens(s[k..]) == n
  {
    forall k | 0 <= k <= |s| ensures Opens(s[k..]) <= Depth(s, 0) {
      DepthAtLeast(s, 0, k);
    }
    var k := DepthReached(s, 0);
    assert s[0..] == s;
    assert Opens(s[k..]) == Depth(s, 0) || Opens(s[0..]) == Depth(s, 0);
  }

  /** The text up to the first comma outside parentheses, and what follows that comma. */
  function Cut(s: string, depth: nat): (r: (string, Option<string>))
    ensures r.1.Some? ==> |r.1.value| < |s|
  {
    if s == "" then ("", None)
    else if s[0] == ',' && depth == 0 then ("", Some(s[1..]))
    else
      var (first, rest) := Cut(s[1..], Next(depth, s[0]));
      ([s[0]] + first, rest)
  }

  function TermOf(text: string): seq<string>
  {
    if Trim(text) == "" then [] else [Trim(text)]
  }

  function SplitSelector(s: string): seq<string>
    decreases |s|
  {
    var cut := Cut(s, 0);
    TermOf(cut.0) + match cut.1
                    case None => []
                    case Some(rest) => SplitSelector(rest)
  }

  /** The scan: what is still to come when `current` has been read of the next term. */
  function Scan(current: string, s: string, depth: nat): seq<string>
    decreases |s|
  {
    if s == "" then TermOf(current)
    else if s[0] == ',' && depth == 0 then TermOf(current) + Scan("", s[1..], 0)
    else Scan(current + [s[0]], s[1..], Next(depth, s[0]))
  }

  lemma {:induction false} ScanIs(current: string, s: string, depth: nat)
    ensures Scan(current, s, depth) == TermOf(current + Cut(s, depth).0) + match Cut(s, depth).1
                                                                          case None => []
                                                                          case Some(rest) => SplitSelector(rest)
    decreases |s|
  {
    if s == "" {
      assert current + "" == current;
    } else if s[0] == ',' && depth == 0 {
      ScanIs("", s[1..], 0);
      assert current + "" == current && "" + Cut(s[1..], 0).0 == Cut(s[1..], 0).0;
    } else {
      ScanIs(current + [s[0]], s[1..], Next(depth, s[0]));
      var first := Cut(s[1..], Next(depth, s[0])).0;
      assert current + ([s[0]] + first) == current + [s[0]] + first;
    }
  }

  method SplitLabelSelector(selector: string) returns (terms: seq<string>)
    ensures terms == SplitSelector(selector)
  {
    terms := [];
    var current: string, depth: nat := "", 0;
    assert selector[0..] == selector;
    for i := 0 to |selector|
      invariant Scan("", selector, 0) == terms + Scan(current, selector[i..], depth)
    {
      assert selector[i..][1..] == selector[i + 1..];
      if selector[i] == '(' {
        depth := depth + 1;
      } else if selector[i] == ')' {
        depth := if depth > 0 then depth - 1 else 0;
      }
      if selector[i] == ',' && depth == 0 {
        terms := terms + TermOf(current);
        current := "";
      } else {
        current := current + [selector[i]];
      }
    }
    terms := terms + TermOf(current);
    ScanIs("", selector, 0);
    assert "" + Cut(selector, 0).0 == Cut(selector, 0).0;
  }

  // ---- Joining and adding --------------------------------------------------------------------------

  function Trimmeds(terms: seq<string>): seq<string>
  {
    if terms == [] then [] else TermOf(terms[0]) + Trimmeds(terms[1..])
  }

  function JoinSelector(terms: seq<string>): string
  {
    Join(Trimmeds(terms), ",")
  }

  function AddTerm(selector: string, term: string): string
  {
    var terms := SplitSelector(selector);
    if term in terms then selector else JoinSelector(terms + [term])
  }

  // ---- What splitting yields -----------------------------------------------------------------------

  /** No comma outside parentheses. */
  predicate Uncut(s: string, depth: nat)
  {
    s == "" || (!(s[0] == ',' && depth == 0) && Uncut(s[1..], Next(depth, s[0])))
  }

  predicate IsTerm(s: string)
  {
    s != "" && Trimmed(s) && Uncut(s, 0)
  }

  /** Terms that can be told apart again: all but the last close what they open. */
  predicate Separable(terms: seq<string>)
  {
    && (forall term | term in terms :: IsTerm(term))
    && (forall i | 0 <= i < |terms| - 1 :: Depth(terms[i], 0) == 0)
  }

  lemma {:induction false} DepthConcat(s: string, t: string, depth: nat)
    ensures Depth(s + t, depth) == Depth(t, Depth(s, depth))
    ensures Uncut(s + t, depth) <==> Uncut(s, depth) && Uncut(t, Depth(s, depth))
  {
    if s == "" {
      assert s + t == t;
    } else {
      assert (s + t)[1..] == s[1..] + t;
      DepthConcat(s[1..], t, Next(depth, s[0]));
    }
  }

  lemma {:induction false} SpacesAreNothing(s: string, depth: nat)
    requires forall c | c in s :: IsSpace(c)
    ensures Depth(s, depth) == depth && Uncut(s, depth)
  {
    if s != "" {
      assert s[0] in s;
      SpacesAreNothing(s[1..], depth);
    }
  }

  lemma TrimKeepsDepth(s: string)
    ensures Depth(Trim(s), 0) == Depth(s, 0) && (Uncut(Trim(s), 0) <==> Uncut(s, 0))
  {
    var before, after := TrimParts(s);
    SpacesAreNothing(before, 0);
    DepthConcat(before + Trim(s), after, 0);
    DepthConcat(before, Trim(s), 0);
    SpacesAreNothing(after, Depth(Trim(s), 0));
  }

  lemma {:induction false} CutIs(s: string, depth: nat)
    ensures Uncut(Cut(s, depth).0, depth)
    ensures Cut(s, depth).1.None? ==> s == Cut(s, depth).0
    ensures Cut(s, depth).1.Some? ==>
            s == Cut(s, depth).0 + "," + Cut(s, depth).1.value
            && Depth(Cut(s, depth).0, depth) == 0
  {
    if s != "" && !(s[0] == ',' && depth == 0) {
      CutIs(s[1..], Next(depth, s[0]));
      var (first, rest) := Cut(s[1..], Next(depth, s[0]));
      assert ([s[0]] + first)[1..] == first;
      assert s == [s[0]] + s[1..];
    }
  }

  lemma {:induction false} UncutCut(s: string, rest: string, depth: nat)
    requires Uncut(s, depth)
    ensures Cut(s, depth) == (s, None)
    ensures Depth(s, depth) == 0 ==> Cut(s + "," + rest, depth) == (s, Some(rest))
  {
    if s == "" {
      assert s + "," + rest == "," + rest && ("," + rest)[1..] == rest;
    } else {
      UncutCut(s[1..], rest, Next(depth, s[0]));
      assert (s + "," + rest)[1..] == s[1..] + "," + rest && [s[0]] + s[1..] == s;
    }
  }

  /** The depth at the end is that of the last piece. */
  lemma DepthAfterCut(s: string)
    ensures var (first, rest) := Cut(s, 0); Depth(s, 0) == if rest.Some? then Depth(rest.value, 0) else Depth(first, 0)
  {
    CutIs(s, 0);
    var (first, rest) := Cut(s, 0);
    if rest.Some? {
      DepthConcat(first + ",", rest.value, 0);
      DepthConcat(first, ",", 0);
      assert Depth(",", 0) == 0 by { assert ","[1..] == ""; }
    }
  }

  /**
   * Whatever the selector: its terms can be told apart, and its nesting depth at the end is that of
   * its last term.
   */
  lemma {:induction false} SplitIsSeparable(s: string)
    ensures Separable(SplitSelector(s))
    ensures Depth(s, 0) == OpenAt(SplitSelector(s))
    decreases |s|
  {
    var cut := Cut(s, 0);
    CutIs(s, 0);
    DepthAfterCut(s);
    FirstTerm(cut.0);
    if cut.1.Some? {
      SplitIsSeparable(cut.1.value);
      Combine(TermOf(cut.0), SplitSelector(cut.1.value));
    }
  }

  /** The nesting depth that the last term leaves open. */
  function OpenAt(terms: seq<string>): nat
  {
    if terms == [] then 0 else Depth(terms[|terms| - 1], 0)
  }

  lemma FirstTerm(text: string)
    requires Uncut(text, 0)
    ensures Separable(TermOf(text)) && OpenAt(TermOf(text)) == Depth(text, 0)
  {
    TrimKeepsDepth(text);
    TrimIs(text);
  }

  lemma Combine(first: seq<string>, rest: seq<string>)
    requires Separable(first) && Separable(rest) && |first| <= 1 && OpenAt(first) == 0
    ensures Separable(first + rest) && OpenAt(first + rest) == OpenAt(rest)
  {
    var terms := first + rest;
    assert forall term | term in terms :: term in first || term in rest;
    forall i | 0 <= i < |terms| - 1 ensures Depth(terms[i], 0) == 0 {
      assert i >= |first| ==> terms[i] == rest[i - |first|];
    }
  }

  lemma {:induction false} TermsAreTrimmed(terms: seq<string>)
    requires forall term | term in terms :: term != "" && Trimmed(term)
    ensures Trimmeds(terms) == terms
  {
    if terms != [] {
      assert terms[0] in terms;
      TrimIs(terms[0]);
      assert forall term | term in terms[1..] :: term in terms;
      TermsAreTrimmed(terms[1..]);
      assert terms == [terms[0]] + terms[1..];
    }
  }

  lemma SplitOne(term: string)
    requires IsTerm(term)
    ensures SplitSelector(term) == [term]
  {
    UncutCut(term, "", 0);
    TrimIs(term);
  }

  lemma SplitFirst(term: string, rest: string)
    requires IsTerm(term) && Depth(term, 0) == 0
    ensures SplitSelector(term + "," + rest) == [term] + SplitSelector(rest)
  {
    UncutCut(term, rest, 0);
    TrimIs(term);
  }

  lemma {:induction false} SplitJoined(terms: seq<string>)
    requires Separable(terms)
    ensures SplitSelector(Join(terms, ",")) == terms
  {
    if |terms| == 1 {
      assert terms[0] in terms;
      SplitOne(terms[0]);
      assert terms == [terms[0]];
    } else if terms != [] {
      assert terms[0] in terms;
      forall i | 0 <= i < |terms[1..]| - 1 ensures Depth(terms[1..][i], 0) == 0 {
        assert terms[1..][i] == terms[i + 1];
      }
      SplitJoined(terms[1..]);
      SplitFirst(terms[0], Join(terms[1..], ","));
      assert terms == [terms[0]] + terms[1..];
    }
  }

  // ---- Main results ----------------------------------------------------------------------------

  /** Joining and splitting gives the terms back, exactly for lists that can be told apart again. */
  lemma JoinThenSplitExactly(terms: seq<string>)
    requires forall term | term in terms :: term != "" && Trimmed(term)
    ensures SplitSelector(JoinSelector(terms)) == terms <==> Separable(terms)
  {
    TermsAreTrimmed(terms);
    if Separable(terms) {
      SplitJoined(terms);
    } else {
      SplitIsSeparable(JoinSelector(terms));
    }
  }

  /** For every selector, balanced or not: splitting the joined terms returns the same terms. */
  lemma SplitJoinSplit(s: string)
    ensures SplitSelector(JoinSelector(SplitSelector(s))) == SplitSelector(s)
  {
    SplitIsSeparable(s);
    JoinThenSplitExactly(SplitSelector(s));
  }

  lemma OneTerm(term: string)
    requires SplitSelector(term) == [term]
    ensures IsTerm(term)
  {
    SplitIsSeparable(term);
    assert term in [term];
  }

  /** The separability of one more term depends on what the selector leaves open. */
  lemma OneMore(s: string, term: string)
    requires IsTerm(term)
    ensures Separable(SplitSelector(s) + [term]) <==> Depth(s, 0) == 0
  {
    SplitIsSeparable(s);
    var terms := SplitSelector(s);
    var more := terms + [term];
    if terms != [] {
      assert more[|terms| - 1] == terms[|terms| - 1];
    }
    assert forall t | t in more :: t in terms || t == term;
  }

  /** A new term is appended as exactly that term if and only if the selector ends balanced. */
  lemma AddAppendsExactly(s: string, term: string)
    requires SplitSelector(term) == [term] && term !in SplitSelector(s)
    ensures SplitSelector(AddTerm(s, term)) == SplitSelector(s) + [term] <==> Depth(s, 0) == 0
  {
    OneTerm(term);
    OneMore(s, term);
    SplitIsSeparable(s);
    JoinThenSplitExactly(SplitSelector(s) + [term]);
  }

  lemma {:induction false} UncutDeeper(s: string, depth: nat, deeper: nat)
    requires Uncut(s, depth) && depth <= deeper
    ensures Uncut(s, deeper)
  {
    if s != "" {
      UncutDeeper(s[1..], Next(depth, s[0]), Next(deeper, s[0]));
    }
  }

  lemma {:induction false} JoinAppend(terms: seq<string>, term: string)
    requires terms != []
    ensures Join(terms + [term], ",") == Join(terms, ",") + "," + term
  {
    if |terms| == 1 {
      assert (terms + [term])[1..] == [term];
    } else {
      JoinAppend(terms[1..], term);
      assert (terms + [term])[1..] == terms[1..] + [term];
      assert Join(terms, ",") == terms[0] + "," + Join(terms[1..], ",");
    }
  }

  /** An open parenthesis swallows the new term: it is glued to the last one. */
  function Glued(terms: seq<string>, term: string): seq<string>
    requires terms != []
  {
    terms[..|terms| - 1] + [terms[|terms| - 1] + "," + term]
  }

  lemma Regroup(a: string, b: string, c: string, d: string)
    ensures a + (b + c + d) == a + b + c + d
  {
  }

  lemma GluedJoin(terms: seq<string>, term: string)
    requires terms != []
    ensures Join(Glued(terms, term), ",") == Join(terms + [term], ",")
  {
    var front, last := terms[..|terms| - 1], terms[|terms| - 1];
    assert front + [last] == terms;
    JoinAppend(terms, term);
    if front != [] {
      JoinAppend(front, last);
      JoinAppend(front, last + "," + term);
      Regroup(Join(front, ",") + ",", last, ",", term);
    } else {
      assert Glued(terms, term) == [last + "," + term];
    }
  }

  lemma GluedIsSeparable(terms: seq<string>, term: string)
    requires Separable(terms) && OpenAt(terms) > 0 && IsTerm(term)
    ensures Separable(Glued(terms, term))
  {
    var last := terms[|terms| - 1];
    assert last in terms;
    DepthConcat(last + ",", term, 0);
    DepthConcat(last, ",", 0);
    UncutDeeper(term, 0, Depth(last + ",", 0));
    assert Uncut(",", Depth(last, 0)) by { assert ","[1..] == ""; }
    assert IsTerm(last + "," + term);
    assert forall t | t in Glued(terms, term) :: t in terms || t == last + "," + term;
  }

  lemma AddUnbalanced(s: string, term: string)
    requires SplitSelector(term) == [term] && term !in SplitSelector(s) && Depth(s, 0) > 0
    ensures SplitSelector(s) != [] && SplitSelector(AddTerm(s, term)) == Glued(SplitSelector(s), term)
    ensures term !in Glued(SplitSelector(s), term) && AddTerm(s, term) == Join(Glued(SplitSelector(s), term), ",")
  {
    OneTerm(term);
    SplitIsSeparable(s);
    var terms := SplitSelector(s);
    MoreTrimmed(terms, term);
    GluedJoin(terms, term);
    GluedIsSeparable(terms, term);
    SplitJoined(Glued(terms, term));
    GluedIsNew(terms, term);
  }

  lemma MoreTrimmed(terms: seq<string>, term: string)
    requires (forall t | t in terms :: t != "" && Trimmed(t)) && term != "" && Trimmed(term)
    ensures Trimmeds(terms + [term]) == terms + [term]
  {
    assert forall t | t in terms + [term] :: t in terms || t == term;
    TermsAreTrimmed(terms + [term]);
  }

  lemma GluedIsNew(terms: seq<string>, term: string)
    requires terms != [] && term !in terms
    ensures term !in Glued(terms, term)
  {
    assert |terms[|terms| - 1] + "," + term| > |term|;
  }

  /** Adding a term twice is adding it once, if and only if it is there already or the selector ends balanced. */
  lemma AddIsIdempotentExactly(s: string, term: string)
    requires SplitSelector(term) == [term]
    ensures AddTerm(AddTerm(s, term), term) == AddTerm(s, term) <==> term in SplitSelector(s) || Depth(s, 0) == 0
  {
    if term in SplitSelector(s) {
    } else if Depth(s, 0) == 0 {
      AddAppendsExactly(s, term);
      assert term in SplitSelector(s) + [term];
    } else {
      AddUnbalanced(s, term);
      var glued := Glued(SplitSelector(s), term);
      OneTerm(term);
      SplitIsSeparable(AddTerm(s, term));
      MoreTrimmed(glued, term);
      JoinAppend(glued, term);
    }
  }
}
