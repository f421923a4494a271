/**
 * The `*` globs of the smart filter, compiled to regular expressions: what the compiled pattern
 * accepts is what a direct glob matcher accepts. Case folding is any function on characters.
 */
module GlobFilter {

  import opened JsText
  import opened Optional

  // ---- Regular expressions -----------------------------------------------------------------------

  /** The part of the pattern language that compiled globs use. */
  datatype Item = Literal(c: char) | Any | Many(item: Item)

  /** The characters with a meaning of their own in patterns (ECMA-262, section 22.2.1, SyntaxCharacter). */
  predicate IsSyntaxCharacter(c: char)
  {
    || c == '^' || c == '$' || c == '\\' || c == '.' || c == '*' || c == '+' || c == '?'
    || c == '(' || c == ')' || c == '[' || c == ']' || c == '{' || c == '}' || c == '|'
  }

  /** One atom at the front of the pattern, and how long it is. */
  function Atom(pattern: string): (r: Option<(Item, nat)>)
    ensures r.Some? ==> 0 < r.value.1 <= |pattern|
  {
    if pattern == "" then None
    else if pattern[0] == '\\' then
      if |pattern| > 1 && IsSyntaxCharacter(pattern[1]) then Some((Literal(pattern[1]), 2)) else None
    else if pattern[0] == '.' then Some((Any, 1))
    else if IsSyntaxCharacter(pattern[0]) then None
    else Some((Literal(pattern[0]), 1))
  }

  /** Reads the pattern between the anchors; None when it leaves the fragment above. */
  function ParseItems(pattern: string): Option<seq<Item>>
    decreases |pattern|
  {
    if pattern == "" then Some([])
    else
      match Atom(pattern)
      case None => None
      case Some((item, n)) =>
        var starred := n < |pattern| && pattern[n] == '*';
        match ParseItems(pattern[if starred then n + 1 else n..])
        case None => None
        case Some(rest) => Some([if starred then Many(item) else item] + rest)
  }

  function ParseAnchored(pattern: string): Option<seq<Item>>
  {
    if |pattern| >= 2 && pattern[0] == '^' && pattern[|pattern| - 1] == '$'
    then ParseItems(pattern[1..|pattern| - 1]) else None
  }

  predicate Accepts(canon: char -> char, item: Item, c: char)
  {
    match item
    case Literal(want) => canon(want) == canon(c)
    case Any => !IsLineTerminator(c)
    case Many(_) => false
  }

  /** The whole text is matched by the items, one after the other. */
  predicate Matches(canon: char -> char, items: seq<Item>, s: string)
    decreases |items|, |s|
  {
    if items == [] then s == ""
    else
      match items[0]
      case Many(item) =>
        Matches(canon, items[1..], s) || (s != "" && Accepts(canon, item, s[0]) && Matches(canon, items, s[1..]))
      case _ => s != "" && Accepts(canon, items[0], s[0]) && Matches(canon, items[1..], s[1..])
  }

  /** `new RegExp(pattern, 'i').test(s)`, for anchored patterns. */
  predicate Test(canon: char -> char, pattern: string, s: string)
  {
    var items := ParseAnchored(pattern);
    items.Some? && Matches(canon, items.value, s)
  }

  // ---- Compiling -----------------------------------------------------------------------------------

  predicate IsSpecial(c: char)
  {
    c in ".*+?^${}()|[]\\"
  }

  function EscapeChar(c: char): string
  {
    if IsSpecial(c) then ['\\', c] else [c]
  }

  function EscapeRegExp(s: string): string
  {
    if s == "" then "" else EscapeChar(s[0]) + EscapeRegExp(s[1..])
  }

  function EscapeAll(parts: seq<string>): seq<string>
  {
    if parts == [] then [] else [EscapeRegExp(parts[0])] + EscapeAll(parts[1..])
  }

  function Compile(want: string): string
  {
    "^" + Join(EscapeAll(Split(want, '*')), ".*") + "$"
  }

  function ItemsOf(want: string): seq<Item>
  {
    if want == "" then [] else [if want[0] == '*' then Many(Any) else Literal(want[0])] + ItemsOf(want[1..])
  }

  /** The text between the anchors, character by character. */
  function Body(want: string): string
  {
    if want == "" then ""
    else if want[0] == '*' then ".*" + Body(want[1..])
    else EscapeChar(want[0]) + Body(want[1..])
  }

  lemma {:induction false} CompileIsBody(want: string)
    ensures Join(EscapeAll(Split(want, '*')), ".*") == Body(want)
  {
    if want != "" {
      CompileIsBody(want[1..]);
      var rest := Split(want[1..], '*');
      var escaped := EscapeAll(rest);
      assert escaped[0] == EscapeRegExp(rest[0]) && escaped[1..] == EscapeAll(rest[1..]);
      if want[0] == '*' {
        assert ([""] + rest)[1..] == rest;
        JoinFirst("", escaped, ".*");
      } else {
        var first := [want[0]] + rest[0];
        assert first[1..] == rest[0] && first[0] == want[0] && ([first] + rest[1..])[1..] == rest[1..];
        assert EscapeRegExp(first) == EscapeChar(want[0]) + EscapeRegExp(rest[0]);
        assert EscapeAll([first] + rest[1..]) == [EscapeRegExp(first)] + EscapeAll(rest[1..]);
        JoinGrowFirst(EscapeChar(want[0]), escaped, ".*");
      }
    }
  }

  /** What parses, behind one more item. */
  function Behind(item: Item, rest: Option<seq<Item>>): Option<seq<Item>>
  {
    match rest
    case None => None
    case Some(items) => Some([item] + items)
  }

  /** An escaped character is one literal. */
  lemma LiteralParses(c: char, rest: string)
    requires rest == "" || rest[0] != '*'
    ensures EscapeChar(c)[0] != '*' && ParseItems(EscapeChar(c) + rest) == Behind(Literal(c), ParseItems(rest))
  {
    var front := EscapeChar(c);
    var pattern := front + rest;
    assert pattern[|front|..] == rest;
    assert Atom(pattern) == Some((Literal(c), |front|));
    assert |front| < |pattern| ==> pattern[|front|] == rest[0];
  }

  lemma StarParses(rest: string)
    ensures ParseItems(".*" + rest) == Behind(Many(Any), ParseItems(rest))
  {
    var pattern := ".*" + rest;
    assert pattern[0] == '.' && pattern[1] == '*' && pattern[2..] == rest;
    assert Atom(pattern) == Some((Any, 1));
  }

  lemma {:induction false} BodyParses(want: string)
    ensures ParseItems(Body(want)) == Some(ItemsOf(want))
    ensures Body(want) != "" ==> Body(want)[0] != '*'
  {
    if want != "" {
      BodyParses(want[1..]);
      if want[0] == '*' {
        StarParses(Body(want[1..]));
      } else {
        LiteralParses(want[0], Body(want[1..]));
      }
    }
  }

  // ---- Globs -------------------------------------------------------------------------------------

  /** A direct matcher: `*` stands for any run of characters. */
  predicate Glob(canon: char -> char, want: string, s: string)
    decreases |want|, |s|
  {
    if want == "" then s == ""
    else if want[0] == '*' then Glob(canon, want[1..], s) || (s != "" && Glob(canon, want, s[1..]))
    else s != "" && canon(want[0]) == canon(s[0]) && Glob(canon, want[1..], s[1..])
  }

  /** A direct matcher whose `*` does not reach across lines. */
  predicate LineGlob(canon: char -> char, want: string, s: string)
    decreases |want|, |s|
  {
    if want == "" then s == ""
    else if want[0] == '*' then
      LineGlob(canon, want[1..], s) || (s != "" && !IsLineTerminator(s[0]) && LineGlob(canon, want, s[1..]))
    else s != "" && canon(want[0]) == canon(s[0]) && LineGlob(canon, want[1..], s[1..])
  }

  predicate OneLine(s: string)
  {
    forall c | c in s :: !IsLineTerminator(c)
  }

  lemma {:induction false} ItemsAreLineGlob(canon: char -> char, want: string, s: string)
    ensures Matches(canon, ItemsOf(want), s) <==> LineGlob(canon, want, s)
    decreases |want|, |s|
  {
    if want != "" {
      var items := ItemsOf(want);
      assert items[1..] == ItemsOf(want[1..]);
      ItemsAreLineGlob(canon, want[1..], s);
      if s != "" {
        ItemsAreLineGlob(canon, want, s[1..]);
        ItemsAreLineGlob(canon, want[1..], s[1..]);
      }
    }
  }

  /** The compiled pattern is a glob that stays within a line, for every glob and every text. */
  lemma CompiledExactly(canon: char -> char, want: string, s: string)
    ensures Test(canon, Compile(want), s) <==> LineGlob(canon, want, s)
  {
    CompileIsBody(want);
    BodyParses(want);
    Anchors(Body(want));
    ItemsAreLineGlob(canon, want, s);
  }

  lemma Anchors(body: string)
    ensures ParseAnchored("^" + body + "$") == ParseItems(body)
  {
    var pattern := "^" + body + "$";
    assert pattern[1..|pattern| - 1] == body;
  }

  lemma {:induction false} LineGlobIsGlob(canon: char -> char, want: string, s: string)
    ensures LineGlob(canon, want, s) ==> Glob(canon, want, s)
    ensures OneLine(s) ==> (LineGlob(canon, want, s) <==> Glob(canon, want, s))
    decreases |want|, |s|
  {
    if want != "" {
      LineGlobIsGlob(canon, want[1..], s);
      if s != "" {
        LineGlobIsGlob(canon, want, s[1..]);
        LineGlobIsGlob(canon, want[1..], s[1..]);
        assert OneLine(s) ==> OneLine(s[1..]) && s[0] in s;
      }
    }
  }

  /** Meaning is preserved on texts of one line; on others nothing that is not a match is accepted. */
  lemma GlobPreserved(canon: char -> char, want: string, s: string)
    ensures Test(canon, Compile(want), s) ==> Glob(canon, want, s)
    ensures OneLine(s) ==> (Test(canon, Compile(want), s) <==> Glob(canon, want, s))
  {
    CompiledExactly(canon, want, s);
    LineGlobIsGlob(canon, want, s);
  }

  lemma {:induction false} StarTakesAll(canon: char -> char, s: string)
    ensures Glob(canon, "*", s) && (LineGlob(canon, "*", s) <==> OneLine(s))
  {
    assert "*"[1..] == "";
    if s != "" {
      StarTakesAll(canon, s[1..]);
      assert s == [s[0]] + s[1..];
      assert OneLine(s) <==> !IsLineTerminator(s[0]) && OneLine(s[1..]);
    }
  }

  /** The glob that should match everything matches exactly the texts of one line. */
  lemma StarMatchesLines(canon: char -> char, s: string)
    ensures Glob(canon, "*", s) && (Test(canon, Compile("*"), s) <==> OneLine(s))
  {
    CompiledExactly(canon, "*", s);
    StarTakesAll(canon, s);
  }

  lemma {:induction false} NoStars(canon: char -> char, want: string, s: string)
    requires '*' !in want
    ensures LineGlob(canon, want, s) <==> |s| == |want| && forall i | 0 <= i < |s| :: canon(want[i]) == canon(s[i])
  {
    if want != "" && s != "" {
      assert want[0] in want;
      NoStars(canon, want[1..], s[1..]);
      if |s| == |want| {
        assert forall i | 1 <= i < |s| :: want[i] == want[1..][i - 1] && s[i] == s[1..][i - 1];
      }
    }
  }

  lemma {:induction false} EscapedParses(s: string)
    ensures ParseItems(EscapeRegExp(s)) == Some(Literals(s))
    ensures EscapeRegExp(s) != "" ==> EscapeRegExp(s)[0] != '*'
  {
    if s != "" {
      EscapedParses(s[1..]);
      LiteralParses(s[0], EscapeRegExp(s[1..]));
    }
  }

  function Literals(s: string): seq<Item>
  {
    if s == "" then [] else [Literal(s[0])] + Literals(s[1..])
  }

  lemma {:induction false} LiteralsMatch(canon: char -> char, s: string, t: string)
    ensures Matches(canon, Literals(s), t) <==> |t| == |s| && forall i | 0 <= i < |t| :: canon(s[i]) == canon(t[i])
  {
    if s != "" && t != "" {
      assert Literals(s)[1..] == Literals(s[1..]);
      LiteralsMatch(canon, s[1..], t[1..]);
      if |t| == |s| {
        assert forall i | 1 <= i < |s| :: s[i] == s[1..][i - 1] && t[i] == t[1..][i - 1];
      }
    }
  }

  /** An escaped text, stars and all, stands for exactly itself. */
  lemma EscapedIsLiteral(canon: char -> char, s: string, t: string)
    ensures Test(canon, "^" + EscapeRegExp(s) + "$", t)
       <==> |t| == |s| && forall i | 0 <= i < |t| :: canon(s[i]) == canon(t[i])
  {
    EscapedParses(s);
    Anchors(EscapeRegExp(s));
    LiteralsMatch(canon, s, t);
  }

  /** Escaping marks the syntax characters and leaves every other character as it is. */
  lemma {:induction false} EscapeAt(before: string, c: char, after: string)
    ensures EscapeRegExp(before + [c] + after)
         == EscapeRegExp(before) + (if c as int in {36, 40, 41, 42, 43, 46, 63, 91, 92, 93, 94, 123, 124, 125}
                                    then ['\\', c] else [c]) + EscapeRegExp(after)
  {
    var s := before + [c] + after;
    if before == "" {
      assert s == [c] + after && s[1..] == after;
    } else {
      assert s[1..] == before[1..] + [c] + after;
      EscapeAt(before[1..], c, after);
    }
  }

  // ---- Labels ------------------------------------------------------------------------------------

  predicate At(s: string, part: string, i: nat)
  {
    i + |part| <= |s| && s[i..i + |part|] == part
  }

  ghost predicate Around(s: string, before: string, part: string, after: string)
  {
    s == before + part + after
  }

  ghost predicate Contains(s: string, part: string)
  {
    exists before, after :: Around(s, before, part, after)
  }

  lemma ContainsAt(s: string, part: string)
    ensures Contains(s, part) <==> exists i: nat :: At(s, part, i)
  {
    if Contains(s, part) {
      var before, after :| Around(s, before, part, after);
      assert s[|before|..|before| + |part|] == part;
      assert At(s, part, |before|);
    }
    if i: nat :| At(s, part, i) {
      assert s == s[..i] + part + s[i + |part|..];
      assert Around(s, s[..i], part, s[i + |part|..]);
    }
  }

  /** The pattern cache and the label clause that uses it. */
  class LabelMatcher {
    var cache: map<string, string>
    const lower: char -> char
    const canon: char -> char

    ghost predicate Valid()
      reads this
    {
      forall want | want in cache :: cache[want] == Compile(want)
    }

    constructor (lower: char -> char, canon: char -> char)
      ensures Valid() && this.lower == lower && this.canon == canon
    {
      cache, this.lower, this.canon := map[], lower, canon;
    }

    /** The cache makes no difference. */
    method GlobRegExp(want: string) returns (pattern: string)
      requires Valid()
      modifies this`cache
      ensures Valid() && pattern == Compile(want)
    {
      if want in cache {
        return cache[want];
      }
      pattern := "^" + Join(EscapeAll(Split(want, '*')), ".*") + "$";
      cache := cache[want := pattern];
    }

    method Includes(s: string, part: string) returns (found: bool)
      ensures found <==> Contains(s, part)
    {
      var i := 0;
      while i + |part| <= |s|
        invariant forall k: nat | k < i :: !At(s, part, k)
        decreases |s| - i
      {
        if At(s, part, i) {
          ContainsAt(s, part);
          return true;
        }
        i := i + 1;
      }
      ContainsAt(s, part);
      found := false;
    }

    /**
     * `key=value` asks for that label, its value folded or matched as a glob that stays within a
     * line; anything else asks for a key that contains it.
     */
    method MatchKeyValueMap(labels: Option<map<string, string>>, raw: string) returns (matches: bool)
      requires Valid()
      modifies this`cache
      ensures Valid()
      ensures labels.None? ==> !matches
      ensures labels.Some? && '=' !in raw ==>
                (matches <==> exists key | key in labels.value :: Contains(Lower(lower, key), Lower(lower, raw)))
      ensures forall key, want | labels.Some? && raw == key + "=" + want && '=' !in key ::
                (matches <==> && key in labels.value
                              && if '*' in want then LineGlob(canon, want, labels.value[key])
                                 else Lower(lower, labels.value[key]) == Lower(lower, want))
    {
      if labels.None? {
        return false;
      }
      IndexOfIs(raw, '=');
      match IndexOf(raw, '=') {
        case None =>
          matches := SomeKeyContains(labels.value, raw);
          assert forall key, want | raw == key + "=" + want :: '=' in raw;
        case Some(eq) =>
          var key, want := raw[..eq], raw[eq + 1..];
          SplitAtFirst(raw, eq);
          if key !in labels.value {
            return false;
          }
          var actual := labels.value[key];
          if '*' in want {
            var pattern := GlobRegExp(want);
            CompiledExactly(canon, want, actual);
            matches := Test(canon, pattern, actual);
          } else {
            matches := Lower(lower, actual) == Lower(lower, want);
          }
      }
    }

    method SomeKeyContains(labels: map<string, string>, raw: string) returns (found: bool)
      ensures found <==> exists key | key in labels :: Contains(Lower(lower, key), Lower(lower, raw))
    {
      var rest := labels.Keys;
      while rest != {}
        invariant rest <= labels.Keys
        invariant forall key | key in labels && key !in rest :: !Contains(Lower(lower, key), Lower(lower, raw))
        decreases |rest|
      {
        var key :| key in rest;
        rest := rest - {key};
        found := Includes(Lower(lower, key), Lower(lower, raw));
        if found {
          return;
        }
      }
      found := false;
    }
  }

  /** There is one way to split at the first `=`. */
  lemma SplitAtFirst(raw: string, eq: nat)
    requires eq < |raw| && raw[eq] == '=' && '=' !in raw[..eq]
    ensures raw == raw[..eq] + "=" + raw[eq + 1..]
    ensures forall key, want | raw == key + "=" + want && '=' !in key :: key == raw[..eq] && want == raw[eq + 1..]
  {
    forall key, want | raw == key + "=" + want && '=' !in key ensures key == raw[..eq] && want == raw[eq + 1..] {
      assert raw[|key|] == '=' && raw[..|key|] == key && raw[|key| + 1..] == want;
      assert forall i | 0 <= i < |key| :: raw[i] == key[i] && key[i] in key;
      assert forall i | 0 <= i < eq :: raw[i] == raw[..eq][i] && raw[..eq][i] in raw[..eq];
    }
  }
}
