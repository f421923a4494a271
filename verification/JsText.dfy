/** The string operations of the platform that several modules rely on. */
module JsText {

  import opened Optional

  /** White space and line terminators, as `\s` and `trim` understand them. */
  predicate IsSpace(c: char)
  {
    || c == ' ' || '\U{0009}' <= c <= '\U{000d}' || c == '\U{00a0}' || c == '\U{1680}' || '\U{2000}' <= c <= '\U{200a}'
    || c == '\U{2028}' || c == '\U{2029}' || c == '\U{202f}' || c == '\U{205f}' || c == '\U{3000}' || c == '\U{feff}'
  }

  predicate IsLineTerminator(c: char)
  {
    c == '\n' || c == '\r' || c == '\U{2028}' || c == '\U{2029}'
  }

  /** White space of the language (ECMA-262, section 12.2): four controls and the space separators. */
  predicate IsWhiteSpace(c: char)
  {
    c as int in {0x9, 0xB, 0xC, 0xFEFF, 0x20, 0xA0, 0x1680, 0x202F, 0x205F, 0x3000} || 0x2000 <= c as int <= 0x200A
  }

  /** `\s` is white space and the four line terminators of section 12.3. */
  lemma SpaceIs(c: char)
    ensures IsSpace(c) <==> IsWhiteSpace(c) || IsLineTerminator(c)
    ensures IsLineTerminator(c) <==> c as int in {0xA, 0xD, 0x2028, 0x2029}
  {
  }

  /** Lower-casing that keeps the length. */
  function Lower(lower: char -> char, s: string): (r: string)
    ensures |r| == |s|
  {
    seq(|s|, i requires 0 <= i < |s| => lower(s[i]))
  }

  function TrimStart(s: string): string
  {
    if s != "" && IsSpace(s[0]) then TrimStart(s[1..]) else s
  }

  function TrimEnd(s: string): string
  {
    if s != "" && IsSpace(s[|s| - 1]) then TrimEnd(s[..|s| - 1]) else s
  }

  function Trim(s: string): string
  {
    TrimEnd(TrimStart(s))
  }

  /** Neither end is white space. */
  predicate Trimmed(s: string)
  {
    s == "" || (!IsSpace(s[0]) && !IsSpace(s[|s| - 1]))
  }

  lemma {:induction false} TrimEndIs(s: string)
    ensures TrimEnd(s) <= s && (TrimEnd(s) == "" || !IsSpace(TrimEnd(s)[|TrimEnd(s)| - 1]))
    ensures s == "" || !IsSpace(s[|s| - 1]) ==> TrimEnd(s) == s
  {
    if s != "" && IsSpace(s[|s| - 1]) {
      TrimEndIs(s[..|s| - 1]);
    }
  }

  lemma {:induction false} TrimStartIs(s: string)
    ensures TrimStart(s) == "" || !IsSpace(TrimStart(s)[0])
    ensures s == "" || !IsSpace(s[0]) ==> TrimStart(s) == s
  {
    if s != "" && IsSpace(s[0]) {
      TrimStartIs(s[1..]);
    }
  }

  /** Trimming leaves exactly the strings alone that are trimmed, and yields such a string. */
  lemma TrimIs(s: string)
    ensures Trimmed(Trim(s)) && (Trim(s) == s <==> Trimmed(s))
  {
    TrimStartIs(s);
    TrimEndIs(TrimStart(s));
    TrimEndIs(s);
  }

  /** What trimming takes off is white space. */
  lemma {:induction false} TrimEndParts(s: string) returns (after: string)
    ensures s == TrimEnd(s) + after && forall c | c in after :: IsSpace(c)
  {
    after := "";
    if s != "" && IsSpace(s[|s| - 1]) {
      after := TrimEndParts(s[..|s| - 1]);
      after := after + [s[|s| - 1]];
    }
  }

  lemma {:induction false} TrimStartParts(s: string) returns (before: string)
    ensures s == before + TrimStart(s) && forall c | c in before :: IsSpace(c)
  {
    before := "";
    if s != "" && IsSpace(s[0]) {
      before := TrimStartParts(s[1..]);
      before := [s[0]] + before;
    }
  }

  lemma {:induction false} TrimStartSpaces(before: string, s: string)
    requires (forall c | c in before :: IsSpace(c)) && (s == "" || !IsSpace(s[0]))
    ensures TrimStart(before + s) == s
  {
    if before == "" {
      assert before + s == s;
    } else {
      assert before[0] in before && (before + s)[1..] == before[1..] + s;
      TrimStartSpaces(before[1..], s);
    }
  }

  lemma {:induction false} TrimParts(s: string) returns (before: string, after: string)
    ensures s == before + Trim(s) + after
    ensures (forall c | c in before :: IsSpace(c)) && forall c | c in after :: IsSpace(c)
  {
    if s != "" && IsSpace(s[0]) {
      before, after := TrimParts(s[1..]);
      before := [s[0]] + before;
    } else {
      before := "";
      after := TrimEndParts(s);
    }
  }

  // ---- Splitting and joining ---------------------------------------------------------------------

  function Split(s: string, separator: char): (parts: seq<string>)
    ensures |parts| >= 1
  {
    if s == "" then [""]
    else
      var rest := Split(s[1..], separator);
      if s[0] == separator then [""] + rest else [[s[0]] + rest[0]] + rest[1..]
  }

  function Join(parts: seq<string>, glue: string): string
  {
    if parts == [] then ""
    else if |parts| == 1 then parts[0]
    else parts[0] + glue + Join(parts[1..], glue)
  }

  lemma JoinFirst(first: string, rest: seq<string>, glue: string)
    requires rest != []
    ensures Join([first] + rest, glue) == first + glue + Join(rest, glue)
  {
    assert ([first] + rest)[1..] == rest;
  }

  lemma JoinGrowFirst(prefix: string, parts: seq<string>, glue: string)
    requires parts != []
    ensures Join([prefix + parts[0]] + parts[1..], glue) == prefix + Join(parts, glue)
  {
    var grown := [prefix + parts[0]] + parts[1..];
    assert grown[1..] == parts[1..];
    if |parts| > 1 {
      assert prefix + parts[0] + glue + Join(parts[1..], glue) == prefix + (parts[0] + glue + Join(parts[1..], glue));
    }
  }

  lemma {:induction false} JoinSplit(s: string, separator: char)
    ensures Join(Split(s, separator), [separator]) == s
  {
    if s != "" {
      JoinSplit(s[1..], separator);
      var rest := Split(s[1..], separator);
      if s[0] == separator {
        JoinFirst("", rest, [separator]);
        assert s == "" + [separator] + s[1..];
      } else {
        JoinGrowFirst([s[0]], rest, [separator]);
        assert s == [s[0]] + s[1..];
      }
    }
  }

  lemma {:induction false} SplitPlain(part: string, rest: string, separator: char)
    requires separator !in part
    ensures Split(part, separator) == [part]
    ensures Split(part + [separator] + rest, separator) == [part] + Split(rest, separator)
  {
    if part == "" {
      assert part + [separator] + rest == [separator] + rest && ([separator] + rest)[1..] == rest;
    } else {
      assert part[0] in part && [part[0]] + part[1..] == part;
      SplitPlain(part[1..], rest, separator);
      assert (part + [separator] + rest)[1..] == part[1..] + [separator] + rest;
    }
  }

  /** Joining and splitting again, for parts that do not hold the separator. */
  lemma {:induction false} SplitJoin(parts: seq<string>, separator: char)
    requires parts != [] && forall part | part in parts :: separator !in part
    ensures Split(Join(parts, [separator]), separator) == parts
  {
    assert parts[0] in parts;
    SplitPlain(parts[0], Join(parts[1..], [separator]), separator);
    if |parts| > 1 {
      SplitJoin(parts[1..], separator);
      assert parts == [parts[0]] + parts[1..];
    }
  }

  function Attach(c: char, parts: seq<string>, separator: char): seq<string>
    requires parts != []
  {
    if c == separator then [""] + parts else [[c] + parts[0]] + parts[1..]
  }

  lemma SplitCons(c: char, s: string, separator: char)
    ensures Split([c] + s, separator) == Attach(c, Split(s, separator), separator)
  {
    assert ([c] + s)[1..] == s;
  }

  lemma AttachConcat(c: char, a: seq<string>, b: seq<string>, separator: char)
    requires a != []
    ensures Attach(c, a + b, separator) == Attach(c, a, separator) + b
  {
    assert (a + b)[1..] == a[1..] + b;
  }

  lemma {:induction false} SplitConcat(s: string, t: string, separator: char)
    ensures Split(s + [separator] + t, separator) == Split(s, separator) + Split(t, separator)
  {
    if s == "" {
      SplitCons(separator, t, separator);
      assert s + [separator] + t == [separator] + t;
    } else {
      SplitConcat(s[1..], t, separator);
      SplitCons(s[0], s[1..] + [separator] + t, separator);
      SplitCons(s[0], s[1..], separator);
      AttachConcat(s[0], Split(s[1..], separator), Split(t, separator), separator);
      Rejoin(s, [separator] + t);
      assert s[1..] + [separator] + t == s[1..] + ([separator] + t) && s + [separator] + t == s + ([separator] + t);
    }
  }

  lemma Rejoin(s: string, t: string)
    requires s != ""
    ensures [s[0]] + s[1..] == s && s + t == [s[0]] + (s[1..] + t)
  {
  }

  ghost predicate Clean(part: string, s: string, separator: char)
  {
    separator !in part && forall c | c in part :: c in s
  }

  /** The parts are pieces of the string without separators. */
  lemma {:induction false} PartsAreClean(s: string, separator: char)
    ensures forall part | part in Split(s, separator) :: Clean(part, s, separator)
  {
    if s != "" {
      PartsAreClean(s[1..], separator);
      var rest := Split(s[1..], separator);
      assert forall c | c in s[1..] :: c in s;
      forall part | part in Split(s, separator) ensures Clean(part, s, separator) {
        assert part in rest ==> Clean(part, s[1..], separator);
        assert rest[0] in rest && Clean(rest[0], s[1..], separator);
        assert part in rest || part == "" || part == [s[0]] + rest[0];
      }
    }
  }

  function IndexOf(s: string, c: char): Option<nat>
  {
    if s == "" then None
    else if s[0] == c then Some(0)
    else
      match IndexOf(s[1..], c)
      case None => None
      case Some(i) => Some(i + 1)
  }

  lemma {:induction false} IndexOfIs(s: string, c: char)
    ensures IndexOf(s, c).None? <==> c !in s
    ensures IndexOf(s, c).Some? ==>
            IndexOf(s, c).value < |s| && s[IndexOf(s, c).value] == c
            && c !in s[..IndexOf(s, c).value]
  {
    if s != "" {
      IndexOfIs(s[1..], c);
      assert s == [s[0]] + s[1..];
      if s[0] != c && IndexOf(s[1..], c).Some? {
        var i := IndexOf(s[1..], c).value;
        assert s[..i + 1] == [s[0]] + s[1..][..i];
      }
    }
  }
}
