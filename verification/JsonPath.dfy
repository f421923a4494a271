/** The JSONPath subset of printer columns: reading the text of a path, and printing one. */
module JsonPath {

  import opened JsText
  import opened Optional

  /** A key named `*` is the wildcard. */
  datatype Segment = Key(key: string) | Index(index: int) | Filter(path: seq<string>, value: string)

  const WILDCARD := Key("*")

  // ---- Reading a path ----------------------------------------------------------------------------

  /** One key up to the next unescaped `.` or `[`, and what follows it. */
  function ReadKey(s: string): (r: (string, string))
    ensures |r.1| <= |s|
    ensures s != "" && s[0] != '.' && s[0] != '[' ==> r.0 != "" && |r.1| < |s|
  {
    if s == "" || s[0] == '.' || s[0] == '[' then ("", s)
    else if s[0] == '\\' && |s| > 1 then
      var (key, rest) := ReadKey(s[2..]);
      ([s[1]] + key, rest)
    else
      var (key, rest) := ReadKey(s[1..]);
      ([s[0]] + key, rest)
  }

  predicate IsDigit(c: char)
  {
    '0' <= c <= '9'
  }

  predicate AllDigits(s: string)
  {
    s != "" && forall c | c in s :: IsDigit(c)
  }

  predicate IsIndex(s: string)
  {
    AllDigits(s) || (s != "" && s[0] == '-' && AllDigits(s[1..]))
  }

  function Digit(c: char): nat
    requires IsDigit(c)
  {
    var d: int := c as int - '0' as int;
    d
  }

  function DigitsValue(s: string): nat
    requires forall c | c in s :: IsDigit(c)
  {
    if s == "" then 0
    else
      assert s[|s| - 1] in s;
      10 * DigitsValue(s[..|s| - 1]) + Digit(s[|s| - 1])
  }

  function IndexValue(s: string): int
    requires IsIndex(s)
  {
    if s[0] == '-' then 0 - DigitsValue(s[1..]) else DigitsValue(s)
  }

  predicate IsWordChar(c: char)
  {
    'a' <= c <= 'z' || 'A' <= c <= 'Z' || IsDigit(c) || c == '_' || c == '-'
  }

  /** The longest run of word characters and dots. */
  function PathRun(s: string): (r: (string, string))
    ensures s == r.0 + r.1
  {
    if s != "" && (IsWordChar(s[0]) || s[0] == '.') then
      var (run, rest) := PathRun(s[1..]);
      ([s[0]] + run, rest)
    else ("", s)
  }

  /** `.a.b`: dots, each followed by a word. */
  predicate IsKeyPath(run: string)
  {
    |run| > 0 && run[0] == '.' && forall word | word in Split(run[1..], '.') :: word != ""
  }

  /** The filter `?(@.a.b=="value")`, with white space where it is allowed. */
  function ParseFilter(inner: string): Option<Segment>
  {
    if !("?(" <= inner) then None
    else
      var s := TrimStart(inner[2..]);
      if s == "" || s[0] != '@' then None
      else
        var (run, rest) := PathRun(s[1..]);
        var test := TrimStart(rest);
        if !IsKeyPath(run) || !("==" <= test) then None
        else
          match ParseQuoted(TrimStart(test[2..]))
          case None => None
          case Some(value) => Some(Filter(Split(run[1..], '.'), value))
  }

  /** A quoted value, up to the closing `)`. */
  function ParseQuoted(s: string): Option<string>
  {
    if |s| < 3 || (s[0] != '"' && s[0] != '\'') || s[|s| - 1] != ')' then None
    else
      var body := TrimEnd(s[1..|s| - 1]);
      if body == "" || body[|body| - 1] != s[0] || exists c | c in body[..|body| - 1] :: IsLineTerminator(c) then None
      else Some(body[..|body| - 1])
  }

  predicate IsQuoted(s: string)
  {
    s != "" && (s[0] == '\'' || s[0] == '"') && s[|s| - 1] == s[0]
  }

  /** What stands between brackets, white space at the ends removed. */
  function ParseBracket(inner: string): Option<Segment>
  {
    if inner == "*" then Some(WILDCARD)
    else if IsIndex(inner) then Some(Index(IndexValue(inner)))
    else if IsQuoted(inner) then Some(Key(if |inner| == 1 then "" else inner[1..|inner| - 1]))
    else ParseFilter(inner)
  }

  function KeyIfAny(key: string): seq<Segment>
  {
    if key == "" then [] else [Key(key)]
  }

  function Prepend(first: seq<Segment>, rest: Option<seq<Segment>>): Option<seq<Segment>>
  {
    match rest
    case None => None
    case Some(segments) => Some(first + segments)
  }

  function ParseSegments(s: string): Option<seq<Segment>>
    decreases |s|
  {
    if s == "" then Some([])
    else if s[0] == '.' then
      if |s| > 1 && s[1] == '*' then Prepend([WILDCARD], ParseSegments(s[2..]))
      else
        var (key, rest) := ReadKey(s[1..]);
        Prepend(KeyIfAny(key), ParseSegments(rest))
    else if s[0] == '[' then
      IndexOfIs(s, ']');
      match IndexOf(s, ']')
      case None => None
      case Some(end) =>
        (match ParseBracket(Trim(s[1..end]))
         case None => None
         case Some(segment) => Prepend([segment], ParseSegments(s[end + 1..])))
    else
      var (key, rest) := ReadKey(s);
      if key == "" then None else Prepend([Key(key)], ParseSegments(rest))
  }

  predicate Braced(s: string)
  {
    s != "" && s[0] == '{' && s[|s| - 1] == '}'
  }

  /** The text without surrounding white space, braces and the `$` of the root. */
  function Stripped(jsonPath: string): string
  {
    var path := Trim(jsonPath);
    var inner := if Braced(path) && |path| >= 2 then Trim(path[1..|path| - 1]) else path;
    if inner != "" && inner[0] == '$' then inner[1..] else inner
  }

  function ParsePath(jsonPath: string): Option<seq<Segment>>
  {
    ParseSegments(Stripped(jsonPath))
  }

  /** One `$` in front is the root and not part of a key. */
  lemma DollarIsSkipped(path: string)
    requires path == "" || !IsSpace(path[|path| - 1])
    ensures ParsePath("$" + path) == ParseSegments(path)
  {
    TrimIs("$" + path);
    assert ("$" + path)[1..] == path;
  }

  /** Reading always advances, so a bare key is never empty. */
  lemma BareKeyNeverFails(s: string)
    requires s != "" && s[0] != '.' && s[0] != '['
    ensures ReadKey(s).0 != "" && |ReadKey(s).1| < |s|
    ensures ParseSegments(s) == Prepend([Key(ReadKey(s).0)], ParseSegments(ReadKey(s).1))
  {
  }

  // ---- Printing a path ---------------------------------------------------------------------------

  function EscapeChar(c: char): string
  {
    if c in ".[\\*" then ['\\', c] else [c]
  }

  function EscapeKey(key: string): string
  {
    if key == "" then "" else EscapeChar(key[0]) + EscapeKey(key[1..])
  }

  function ShowDigits(n: nat): string
  {
    (if n < 10 then "" else ShowDigits(n / 10)) + [('0' as int + n % 10) as char]
  }

  function ShowInt(n: int): string
  {
    if n < 0 then "-" + ShowDigits(-n) else ShowDigits(n)
  }

  function ShowSegment(segment: Segment): string
  {
    match segment
    case Key(key) => "." + EscapeKey(key)
    case Index(n) => "[" + ShowInt(n) + "]"
    case Filter(path, value) => "[" + ShowFilter(path, value) + "]"
  }

  function ShowFilter(path: seq<string>, value: string): string
  {
    "?(@." + Join(path, ".") + "==\"" + value + "\")"
  }

  function Show(segments: seq<Segment>): string
  {
    if segments == [] then "" else ShowSegment(segments[0]) + Show(segments[1..])
  }

  predicate IsWord(s: string)
  {
    s != "" && forall c | c in s :: IsWordChar(c)
  }

  /** Letters, digits, `_` and `-`, by their codes. */
  lemma WordCharactersAre(c: char)
    ensures IsWordChar(c)
       <==> c as int in {45, 95} || 48 <= c as int <= 57 || 65 <= c as int <= 90 || 97 <= c as int <= 122
  {
  }

  /** A star behind a dot or between brackets is the wildcard. */
  lemma StarIsRead(rest: string)
    ensures ParseSegments(".*" + rest) == Prepend([Key("*")], ParseSegments(rest))
    ensures ParseSegments("[*]" + rest) == Prepend([Key("*")], ParseSegments(rest))
  {
    var dotted, bracketed := ".*" + rest, "[*]" + rest;
    assert dotted[2..] == rest && bracketed[3..] == rest;
    IndexOfIs(bracketed, ']');
    assert bracketed[1..] == "*]" + rest && bracketed[1..][1..] == "]" + rest;
    assert IndexOf("]" + rest, ']') == Some(0);
    assert bracketed[1..2] == "*";
    TrimIs("*");
  }

  predicate Printable(segment: Segment)
  {
    match segment
    case Key(key) => key != ""
    case Index(_) => true
    case Filter(path, value) =>
      && path != [] && (forall word | word in path :: IsWord(word))
      && forall c | c in value :: c != ']' && !IsLineTerminator(c)
  }

  predicate StartsSegment(s: string)
  {
    s == "" || s[0] == '.' || s[0] == '['
  }

  lemma ReadChar(c: char, s: string)
    ensures ReadKey(EscapeChar(c) + s) == ([c] + ReadKey(s).0, ReadKey(s).1)
  {
    var text := EscapeChar(c) + s;
    assert text[|EscapeChar(c)|..] == s;
  }

  lemma {:induction false} ReadEscaped(key: string, rest: string)
    requires StartsSegment(rest)
    ensures ReadKey(EscapeKey(key) + rest) == (key, rest)
  {
    if key == "" {
      assert EscapeKey(key) + rest == rest;
    } else {
      ReadEscaped(key[1..], rest);
      ReadChar(key[0], EscapeKey(key[1..]) + rest);
      assert EscapeKey(key) + rest == EscapeChar(key[0]) + (EscapeKey(key[1..]) + rest);
      assert [key[0]] + key[1..] == key;
    }
  }

  lemma {:induction false} DigitsRoundTrip(n: nat)
    ensures AllDigits(ShowDigits(n)) && DigitsValue(ShowDigits(n)) == n
  {
    var s := ShowDigits(n);
    if n >= 10 {
      DigitsRoundTrip(n / 10);
    }
    var front, last := s[..|s| - 1], s[|s| - 1];
    assert front == if n < 10 then "" else ShowDigits(n / 10);
    assert last == ('0' as int + n % 10) as char && IsDigit(last);
    assert forall c | c in s :: c in front || c == last;
  }

  lemma IndexRoundTrip(n: int)
    ensures IsIndex(ShowInt(n)) && IndexValue(ShowInt(n)) == n && ShowInt(n) != "*"
    ensures forall c | c in ShowInt(n) :: IsDigit(c) || c == '-'
  {
    DigitsRoundTrip(if n < 0 then -n else n);
    if n < 0 {
      assert ShowInt(n)[1..] == ShowDigits(-n);
    } else {
      assert ShowInt(n)[0] in ShowInt(n);
    }
  }

  lemma {:induction false} RunIsMaximal(run: string, rest: string)
    requires forall c | c in run :: IsWordChar(c) || c == '.'
    requires rest == "" || !(IsWordChar(rest[0]) || rest[0] == '.')
    ensures PathRun(run + rest) == (run, rest)
  {
    if run == "" {
      assert run + rest == rest;
    } else {
      assert run[0] in run;
      RunIsMaximal(run[1..], rest);
      assert (run + rest)[1..] == run[1..] + rest && [run[0]] + run[1..] == run;
    }
  }

  lemma {:induction false} JoinedWords(path: seq<string>)
    requires path != [] && forall word | word in path :: IsWord(word)
    ensures Split(Join(path, "."), '.') == path
    ensures forall c | c in Join(path, ".") :: IsWordChar(c) || c == '.'
  {
    assert path[0] in path;
    SplitJoin(path, '.');
    if |path| > 1 {
      JoinedWords(path[1..]);
    }
  }

  lemma QuotedRoundTrip(value: string)
    requires forall c | c in value :: c != ']' && !IsLineTerminator(c)
    ensures ParseQuoted("\"" + value + "\")") == Some(value)
  {
    var s := "\"" + value + "\")";
    var body := value + "\"";
    assert s[1..|s| - 1] == body;
    TrimEndIs(body);
    assert body[..|body| - 1] == value;
  }

  lemma FilterText(path: seq<string>, value: string)
    ensures var test := "==\"" + value + "\")";
            ShowFilter(path, value)[3..] == ("." + Join(path, ".")) + test && ShowFilter(path, value)[2] == '@'
            && "?(" <= ShowFilter(path, value) && test[2..] == "\"" + value + "\")"
  {
    var test := "==\"" + value + "\")";
    assert ShowFilter(path, value) == "?(@" + (("." + Join(path, ".")) + test);
    assert test == "==" + ("\"" + value + "\")");
  }

  lemma FilterRoundTrip(path: seq<string>, value: string)
    requires Printable(Filter(path, value))
    ensures ParseFilter(ShowFilter(path, value)) == Some(Filter(path, value))
  {
    var inner, run, test := ShowFilter(path, value), "." + Join(path, "."), "==\"" + value + "\")";
    FilterText(path, value);
    TrimStartIs(inner[2..]);
    assert inner[2..][1..] == inner[3..];
    JoinedWords(path);
    RunIsMaximal(run, test);
    TrimStartIs(test);
    TrimStartIs(test[2..]);
    QuotedRoundTrip(value);
    assert run[1..] == Join(path, ".");
    assert forall word | word in path :: IsWord(word);
  }

  // ---- What else is read -------------------------------------------------------------------------

  ghost predicate Blank(s: string)
  {
    forall c | c in s :: IsSpace(c)
  }

  ghost predicate IsQuote(q: char)
  {
    q as int in {34, 39}
  }

  /** `?( @.a.b == "value" )`, with any white space `a`, `b`, `c` and `d`, and either quote. */
  ghost predicate FilterForm(inner: string, path: seq<string>, value: string, a: string, b: string, c: string,
                             d: string, q: char)
  {
    && Blank(a) && Blank(b) && Blank(c) && Blank(d) && IsQuote(q)
    && path != [] && (forall word | word in path :: IsWord(word))
    && (forall ch | ch in value :: !IsLineTerminator(ch))
    && inner == "?(" + (a + ("@" + ("." + Join(path, ".") + (b + ("==" + (c + QuotedText(value, d, q)))))))
  }

  function QuotedText(value: string, d: string, q: char): string
  {
    [q] + (value + [q] + d + ")")
  }

  lemma QuotedIsRead(value: string, d: string, q: char)
    requires Blank(d) && IsQuote(q) && forall ch | ch in value :: !IsLineTerminator(ch)
    ensures ParseQuoted(QuotedText(value, d, q)) == Some(value)
  {
    var s, body := QuotedText(value, d, q), value + [q];
    assert s[1..|s| - 1] == body + d && s[|s| - 1] == ')';
    TrimEndSpaces(body, d);
    assert body[..|body| - 1] == value;
  }

  lemma FilterIsRead(inner: string, path: seq<string>, value: string, a: string, b: string, c: string, d: string,
                     q: char)
    requires FilterForm(inner, path, value, a, b, c, d, q)
    ensures ParseFilter(inner) == Some(Filter(path, value))
  {
    var quoted := QuotedText(value, d, q);
    var test := "==" + (c + quoted);
    var run, rest := "." + Join(path, "."), b + test;
    assert inner[2..] == a + ("@" + (run + rest));
    TrimStartSpaces(a, "@" + (run + rest));
    assert ("@" + (run + rest))[1..] == run + rest;
    JoinedWords(path);
    assert b != "" ==> b[0] in b;
    RunIsMaximal(run, rest);
    TrimStartSpaces(b, test);
    assert test[2..] == c + quoted && run[1..] == Join(path, ".");
    TrimStartSpaces(c, quoted);
    QuotedIsRead(value, d, q);
    assert forall word | word in path :: IsWord(word);
  }

  lemma {:induction false} RunIsWords(s: string)
    ensures forall c | c in PathRun(s).0 :: IsWordChar(c) || c == '.'
  {
    if s != "" && (IsWordChar(s[0]) || s[0] == '.') {
      RunIsWords(s[1..]);
    }
  }

  lemma QuotedFormOf(s: string) returns (d: string)
    requires ParseQuoted(s).Some?
    ensures var value := ParseQuoted(s).value;
            s == QuotedText(value, d, s[0]) && Blank(d) && IsQuote(s[0]) && forall c | c in value ::
                !IsLineTerminator(c)
  {
    var inside := s[1..|s| - 1];
    d := TrimEndParts(inside);
    var body := TrimEnd(inside);
    var value := body[..|body| - 1];
    assert s == [s[0]] + (inside + ")") && body == value + [s[0]];
  }

  lemma FilterFormOf(inner: string, path: seq<string>, value: string)
      returns (a: string, b: string, c: string, d: string, q: char)
    requires ParseFilter(inner) == Some(Filter(path, value))
    ensures FilterForm(inner, path, value, a, b, c, d, q)
  {
    a := TrimStartParts(inner[2..]);
    var s := TrimStart(inner[2..]);
    var (run, rest) := PathRun(s[1..]);
    b := TrimStartParts(rest);
    var test := TrimStart(rest);
    c := TrimStartParts(test[2..]);
    d := QuotedFormOf(TrimStart(test[2..]));
    q := TrimStart(test[2..])[0];
    RunIsWords(s[1..]);
    WordsOf(run, path);
    JoinSplit(run[1..], '.');
    Behind("?(", inner);
    Behind("@", s);
    Behind("==", test);
    Behind(".", run);
  }

  lemma Behind(front: string, s: string)
    requires front <= s
    ensures s == front + s[|front|..]
  {
  }

  lemma WordsOf(run: string, path: seq<string>)
    requires IsKeyPath(run) && path == Split(run[1..], '.') && forall c | c in run :: IsWordChar(c) || c == '.'
    ensures forall word | word in path :: IsWord(word)
  {
    PartsAreClean(run[1..], '.');
    forall word | word in path ensures IsWord(word) {
      assert Clean(word, run[1..], '.');
      forall ch | ch in word ensures IsWordChar(ch) {
        assert ch in run[1..] && ch in run;
      }
    }
  }

  /** A filter is read exactly from the texts of that form, and from each of them as what it says. */
  lemma FilterExactly(inner: string, path: seq<string>, value: string)
    ensures ParseFilter(inner) == Some(Filter(path, value))
       <==> exists a, b, c, d, q :: FilterForm(inner, path, value, a, b, c, d, q)
  {
    if ParseFilter(inner) == Some(Filter(path, value)) {
      var a, b, c, d, q := FilterFormOf(inner, path, value);
    }
    if a, b, c, d, q :| FilterForm(inner, path, value, a, b, c, d, q) {
      FilterIsRead(inner, path, value, a, b, c, d, q);
    }
  }

  /** A quoted key between brackets is that key, whatever it holds, and unequal quotes are no key. */
  lemma QuotedKeyIsRead(key: string, q: char, r: char, rest: string)
    requires IsQuote(q) && IsQuote(r) && ']' !in key
    ensures ParseSegments("[" + ([q] + key + [r]) + "]" + rest)
         == if q == r then Prepend([Key(key)], ParseSegments(rest)) else None
  {
    var inner := [q] + key + [r];
    assert inner[1..|inner| - 1] == key;
    if q == r {
      BracketParses(inner, Key(key), rest);
    } else {
      BracketText(inner, rest);
      FirstOf("[" + inner + "]" + rest, ']', |inner| + 1);
      TrimIs(inner);
    }
  }

  lemma IndexBracket(n: int)
    ensures ParseBracket(ShowInt(n)) == Some(Index(n)) && Trimmed(ShowInt(n)) && ']' !in ShowInt(n)
  {
    IndexRoundTrip(n);
    var s := ShowInt(n);
    assert s[0] in s && s[|s| - 1] in s;
  }

  lemma FilterBracket(path: seq<string>, value: string)
    requires Printable(Filter(path, value))
    ensures ParseBracket(ShowFilter(path, value)) == Some(Filter(path, value))
  {
    FilterRoundTrip(path, value);
    var inner := ShowFilter(path, value);
    assert inner[0] == '?' && inner[0] in inner;
  }

  lemma FilterClean(path: seq<string>, value: string)
    requires Printable(Filter(path, value))
    ensures Trimmed(ShowFilter(path, value)) && ']' !in ShowFilter(path, value)
  {
    JoinedWords(path);
    var inner := ShowFilter(path, value);
    assert inner[0] == '?' && inner[|inner| - 1] == ')';
    assert ']' !in "?(@." && ']' !in Join(path, ".") && ']' !in "==\"" && ']' !in value && ']' !in "\")";
  }

  lemma BracketParses(inner: string, segment: Segment, rest: string)
    requires ParseBracket(inner) == Some(segment) && Trimmed(inner) && ']' !in inner
    ensures ParseSegments("[" + inner + "]" + rest) == Prepend([segment], ParseSegments(rest))
  {
    BracketText(inner, rest);
    FirstOf("[" + inner + "]" + rest, ']', |inner| + 1);
    TrimIs(inner);
  }

  lemma BracketText(inner: string, rest: string)
    ensures var s := "[" + inner + "]" + rest;
            && s[..|inner| + 1] == "[" + inner && s[1..|inner| + 1] == inner && s[|inner| + 1] == ']'
                 && s[|inner| + 2..] == rest
  {
    var front := "[" + inner;
    assert (front + "]")[..|front|] == front && front[1..] == inner;
    assert ("[" + inner + "]" + rest)[..|inner| + 1] == front;
    assert ("[" + inner + "]" + rest)[1..|inner| + 1] == front[1..];
  }

  lemma FirstOf(s: string, c: char, n: nat)
    requires n < |s| && s[n] == c && c !in s[..n]
    ensures IndexOf(s, c) == Some(n)
  {
    IndexOfIs(s, c);
    var i := IndexOf(s, c).value;
    assert forall k | 0 <= k < n :: s[k] == s[..n][k] && s[..n][k] in s[..n];
    assert forall k | 0 <= k < i :: s[k] == s[..i][k] && s[..i][k] in s[..i];
  }

  lemma SegmentParses(segment: Segment, rest: string)
    requires Printable(segment) && StartsSegment(rest)
    ensures ParseSegments(ShowSegment(segment) + rest) == Prepend([segment], ParseSegments(rest))
  {
    match segment {
      case Key(key) => KeyParses(key, rest);
      case Index(n) =>
        IndexBracket(n);
        BracketParses(ShowInt(n), segment, rest);
      case Filter(path, value) =>
        FilterBracket(path, value);
        FilterClean(path, value);
        BracketParses(ShowFilter(path, value), segment, rest);
    }
  }

  lemma KeyParses(key: string, rest: string)
    requires StartsSegment(rest)
    ensures ParseSegments("." + EscapeKey(key) + rest) == Prepend(KeyIfAny(key), ParseSegments(rest))
  {
    ReadEscaped(key, rest);
    Associate(".", EscapeKey(key), rest);
    DottedParses(EscapeKey(key) + rest);
    if key == "" {
      assert EscapeKey(key) + rest == rest;
    } else {
      assert EscapeKey(key) == EscapeChar(key[0]) + EscapeKey(key[1..]);
    }
  }

  lemma DottedParses(s: string)
    ensures s == "" || s[0] != '*' ==>
              ParseSegments("." + s) == Prepend(KeyIfAny(ReadKey(s).0), ParseSegments(ReadKey(s).1))
  {
    assert ("." + s)[1..] == s;
  }

  lemma PrependTwice(first: seq<Segment>, second: seq<Segment>, rest: Option<seq<Segment>>)
    ensures Prepend(first, Prepend(second, rest)) == Prepend(first + second, rest)
    ensures Prepend([], rest) == rest
  {
    if rest.Some? {
      assert first + (second + rest.value) == first + second + rest.value;
      assert [] + rest.value == rest.value;
    }
  }

  lemma ShowStarts(segments: seq<Segment>, rest: string)
    requires StartsSegment(rest)
    ensures StartsSegment(Show(segments)) && StartsSegment(Show(segments) + rest)
  {
    if segments == [] {
      assert Show(segments) + rest == rest;
    }
  }

  lemma Associate(a: string, b: string, c: string)
    ensures a + b + c == a + (b + c)
  {
  }

  lemma ShowFirst(segments: seq<Segment>, rest: string)
    requires segments != []
    ensures Show(segments) + rest == ShowSegment(segments[0]) + (Show(segments[1..]) + rest)
    ensures segments == [segments[0]] + segments[1..]
  {
    Associate(ShowSegment(segments[0]), Show(segments[1..]), rest);
  }

  lemma {:induction false} ShowParses(segments: seq<Segment>, rest: string)
    requires (forall segment | segment in segments :: Printable(segment)) && StartsSegment(rest)
    ensures ParseSegments(Show(segments) + rest) == Prepend(segments, ParseSegments(rest))
  {
    if segments == [] {
      assert Show(segments) + rest == rest;
      PrependTwice([], [], ParseSegments(rest));
    } else {
      ShowParses(segments[1..], rest);
      ShowStarts(segments[1..], rest);
      SegmentParses(segments[0], Show(segments[1..]) + rest);
      ShowFirst(segments, rest);
      PrependTwice([segments[0]], segments[1..], ParseSegments(rest));
    }
  }

  // ---- Round trip --------------------------------------------------------------------------------

  /** The path ends in a key that ends in white space. */
  predicate EndsInSpace(segments: seq<Segment>)
  {
    segments != [] && var last := segments[|segments| - 1];
    last.Key? && last.key != "" && IsSpace(last.key[|last.key| - 1])
  }

  lemma {:induction false} EscapeEnds(key: string)
    requires key != ""
    ensures EscapeKey(key) != "" && EscapeKey(key)[|EscapeKey(key)| - 1] == key[|key| - 1]
  {
    if |key| > 1 {
      EscapeEnds(key[1..]);
    } else {
      assert key[1..] == "";
    }
  }

  lemma {:induction false} ShowLast(segments: seq<Segment>)
    requires segments != []
    ensures Show(segments) == Show(segments[..|segments| - 1]) + ShowSegment(segments[|segments| - 1])
  {
    if |segments| > 1 {
      ShowLast(segments[1..]);
      assert segments[1..][..|segments| - 2] == segments[..|segments| - 1][1..];
    } else {
      assert Show(segments[1..]) == "" && segments[..0] == [];
    }
  }

  lemma SegmentEnds(segment: Segment)
    requires Printable(segment)
    ensures var s := ShowSegment(segment);
            s != "" && s[|s| - 1] == if segment.Key? then segment.key[|segment.key| - 1] else ']'
  {
    match segment {
      case Key(key) => EscapeEnds(key);
      case Index(n) => BracketEnds(ShowInt(n));
      case Filter(path, value) => BracketEnds(ShowFilter(path, value));
    }
  }

  lemma BracketEnds(inner: string)
    ensures var s := "[" + inner + "]"; s[|s| - 1] == ']'
  {
  }

  lemma ShownIsTrimmed(segments: seq<Segment>)
    requires (forall segment | segment in segments :: Printable(segment)) && !EndsInSpace(segments)
    ensures Trimmed(Show(segments))
  {
    if segments != [] {
      var last := segments[|segments| - 1];
      assert last in segments;
      ShowLast(segments);
      ShowStarts(segments, "");
      LastIsNoSpace(last);
      EndsTrimmed(Show(segments[..|segments| - 1]), ShowSegment(last));
    }
  }

  lemma LastIsNoSpace(segment: Segment)
    requires Printable(segment) && (segment.Key? ==> !IsSpace(segment.key[|segment.key| - 1]))
    ensures ShowSegment(segment) != "" && !IsSpace(ShowSegment(segment)[|ShowSegment(segment)| - 1])
  {
    SegmentEnds(segment);
  }

  lemma EndsTrimmed(front: string, last: string)
    requires last != "" && !IsSpace(last[|last| - 1]) && StartsSegment(front + last)
    ensures Trimmed(front + last)
  {
  }

  lemma {:induction false} NoEscapes(spaces: string)
    requires forall c | c in spaces :: IsSpace(c)
    ensures EscapeKey(spaces) == spaces
  {
    if spaces != "" {
      assert spaces[0] in spaces && spaces == [spaces[0]] + spaces[1..];
      NoEscapes(spaces[1..]);
    }
  }

  lemma JoinTexts(a: string, b: string, c: string)
    ensures a + (b + c) == a + b + c
  {
  }

  lemma {:induction false} EscapeConcat(key: string, more: string)
    ensures EscapeKey(key + more) == EscapeKey(key) + EscapeKey(more)
  {
    if key == "" {
      assert key + more == more;
    } else {
      EscapeConcat(key[1..], more);
      assert (key + more)[0] == key[0] && (key + more)[1..] == key[1..] + more;
      JoinTexts(EscapeChar(key[0]), EscapeKey(key[1..]), EscapeKey(more));
    }
  }

  lemma {:induction false} TrimEndSpaces(s: string, spaces: string)
    requires forall c | c in spaces :: IsSpace(c)
    ensures TrimEnd(s + spaces) == TrimEnd(s)
  {
    if spaces != "" {
      var front := spaces[..|spaces| - 1];
      TrimEndSpaces(s, front);
      assert spaces[|spaces| - 1] in spaces;
      assert (s + spaces)[..|s + spaces| - 1] == s + front;
    } else {
      assert s + spaces == s;
    }
  }

  lemma TrimOf(text: string, spaces: string)
    requires Trimmed(text) && text != "" && forall c | c in spaces :: IsSpace(c)
    ensures Trim(text + spaces) == text
  {
    TrimStartIs(text + spaces);
    TrimEndSpaces(text, spaces);
    TrimEndIs(text);
  }

  lemma ShowKeyLast(segments: seq<Segment>, kept: string, spaces: string)
    requires segments != [] && segments[|segments| - 1] == Key(kept + spaces) && forall c | c in spaces :: IsSpace(c)
    ensures Show(segments) == Show(segments[..|segments| - 1]) + ("." + EscapeKey(kept)) + spaces
  {
    EscapeConcat(kept, spaces);
    NoEscapes(spaces);
    ShowLast(segments);
    Regrouped(Show(segments[..|segments| - 1]), ".", EscapeKey(kept), spaces);
  }

  lemma Regrouped(a: string, b: string, c: string, d: string)
    ensures a + (b + (c + d)) == a + (b + c) + d
  {
  }

  /** Trimming the printed path takes the white space off the last key. */
  lemma TrimmedShow(segments: seq<Segment>)
    requires (forall segment | segment in segments :: Printable(segment)) && EndsInSpace(segments)
    ensures var kept := TrimEnd(segments[|segments| - 1].key);
            Trim(Show(segments)) == Show(segments[..|segments| - 1]) + ("." + EscapeKey(kept))
  {
    var before, key := segments[..|segments| - 1], segments[|segments| - 1].key;
    var kept := TrimEnd(key);
    var spaces := TrimEndParts(key);
    TrimEndIs(key);
    assert segments[|segments| - 1] == Key(kept + spaces);
    ShowKeyLast(segments, kept, spaces);
    TrimmedText(before, kept, spaces);
  }

  lemma TrimmedText(before: seq<Segment>, kept: string, spaces: string)
    requires (kept == "" || !IsSpace(kept[|kept| - 1])) && forall c | c in spaces :: IsSpace(c)
    ensures Trim(Show(before) + ("." + EscapeKey(kept)) + spaces) == Show(before) + ("." + EscapeKey(kept))
  {
    KeyTextTrimmed(before, kept);
    TrimOf(Show(before) + ("." + EscapeKey(kept)), spaces);
  }

  lemma KeyTextTrimmed(before: seq<Segment>, kept: string)
    requires kept == "" || !IsSpace(kept[|kept| - 1])
    ensures var text := Show(before) + ("." + EscapeKey(kept)); text != "" && Trimmed(text)
  {
    TextEnds(Show(before), kept);
    ShowStarts(before, "." + EscapeKey(kept));
  }

  lemma StrippedIsTrimmed(s: string)
    requires StartsSegment(Trim(s))
    ensures Stripped(s) == Trim(s)
  {
  }

  lemma TextEnds(before: string, kept: string)
    requires kept == "" || !IsSpace(kept[|kept| - 1])
    ensures var text := before + ("." + EscapeKey(kept)); text != "" && !IsSpace(text[|text| - 1])
  {
    if kept != "" {
      EscapeEnds(kept);
    }
  }

  /** What is read when the last key ends in white space: the key without it, or no key at all. */
  lemma SpaceIsLost(segments: seq<Segment>)
    requires (forall segment | segment in segments :: Printable(segment)) && EndsInSpace(segments)
    ensures var before, key := segments[..|segments| - 1], segments[|segments| - 1].key;
            ParsePath(Show(segments)) == Some(before + KeyIfAny(TrimEnd(key))) && TrimEnd(key) != key
  {
    var before, key := segments[..|segments| - 1], segments[|segments| - 1].key;
    var kept := TrimEnd(key);
    TrimEndIs(key);
    TrimmedShow(segments);
    KeyLastRead(before, kept);
    ShowStarts(before, "." + EscapeKey(kept));
    ReadTrimmed(Show(segments), Show(before) + ("." + EscapeKey(kept)), before + KeyIfAny(kept));
  }

  lemma ReadTrimmed(s: string, text: string, segments: seq<Segment>)
    requires Trim(s) == text && StartsSegment(text) && ParseSegments(text) == Some(segments)
    ensures ParsePath(s) == Some(segments)
  {
    StrippedIsTrimmed(s);
  }

  lemma KeyLastRead(before: seq<Segment>, kept: string)
    requires forall segment | segment in before :: Printable(segment)
    ensures ParseSegments(Show(before) + ("." + EscapeKey(kept))) == Some(before + KeyIfAny(kept))
  {
    var last := "." + EscapeKey(kept);
    ShowParses(before, last);
    KeyParses(kept, "");
    assert last + "" == last;
    PrependTwice(before, KeyIfAny(kept), Some([]));
    assert before + KeyIfAny(kept) + [] == before + KeyIfAny(kept);
  }

  /**
   * Printing keys, indexes, wildcards and filters and reading them back gives the same path, exactly
   * unless it ends in a key that ends in white space.
   */
  lemma RoundTripExactly(segments: seq<Segment>)
    requires forall segment | segment in segments :: Printable(segment)
    ensures ParsePath(Show(segments)) == Some(segments) <==> !EndsInSpace(segments)
  {
    if EndsInSpace(segments) {
      SpaceIsLost(segments);
      LostIsDifferent(segments, TrimEnd(segments[|segments| - 1].key));
    } else {
      ShownIsTrimmed(segments);
      ShowIsRead(segments);
    }
  }

  lemma ShowIsRead(segments: seq<Segment>)
    requires (forall segment | segment in segments :: Printable(segment)) && Trimmed(Show(segments))
    ensures ParsePath(Show(segments)) == Some(segments)
  {
    TrimIs(Show(segments));
    ShowStarts(segments, "");
    StrippedIsTrimmed(Show(segments));
    ShowParses(segments, "");
    assert Show(segments) + "" == Show(segments) && segments + [] == segments;
  }

  lemma LostIsDifferent(segments: seq<Segment>, kept: string)
    requires segments != [] && segments[|segments| - 1].Key? && segments[|segments| - 1].key != kept
    ensures segments[..|segments| - 1] + KeyIfAny(kept) != segments
  {
    var read := segments[..|segments| - 1] + KeyIfAny(kept);
    assert |read| == |segments| ==> read[|segments| - 1] == Key(kept);
  }

  /** A path in braces is the same path, unless it is in braces already. */
  lemma BracesDoNotMatter(path: string)
    requires !Braced(Trim(path))
    ensures ParsePath("{" + path + "}") == ParsePath(path)
  {
    var braced := "{" + path + "}";
    TrimIs(braced);
    assert braced[1..|braced| - 1] == path;
  }

  // ---- The reader --------------------------------------------------------------------------------

  method ReadKeyAt(path: string, start: nat) returns (key: string, i: nat)
    requires start <= |path|
    ensures start <= i <= |path| && (key, path[i..]) == ReadKey(path[start..])
  {
    key, i := "", start;
    ghost var whole := ReadKey(path[start..]);
    assert Reading(path, whole, key, i) by {
      assert "" + whole.0 == whole.0;
    }
    while i < |path| && path[i] != '.' && path[i] != '['
      invariant start <= i <= |path| && Reading(path, whole, key, i)
    {
      ghost var before, soFar := i, key;
      if path[i] == '\\' && i + 1 < |path| {
        i := i + 1;
      }
      key := key + [path[i]];
      i := i + 1;
      ReadMore(path, whole, soFar, before, i);
    }
    ReadEnd(path, i);
    assert key + "" == key;
  }

  /** The whole key is what was read so far and what is read from here on. */
  ghost predicate Reading(path: string, whole: (string, string), key: string, i: nat)
    requires i <= |path|
  {
    whole.0 == key + ReadKey(path[i..]).0 && whole.1 == ReadKey(path[i..]).1
  }

  lemma ReadMore(path: string, whole: (string, string), key: string, i: nat, next: nat)
    requires i < |path| && path[i] != '.' && path[i] != '[' && Reading(path, whole, key, i)
    requires next == if path[i] == '\\' && i + 1 < |path| then i + 2 else i + 1
    ensures Reading(path, whole, key + [path[next - 1]], next)
  {
    ReadOne(path, i, next);
    assert key + ([path[next - 1]] + ReadKey(path[next..]).0) == key + [path[next - 1]] + ReadKey(path[next..]).0;
  }

  lemma ReadOne(path: string, i: nat, next: nat)
    requires i < |path| && path[i] != '.' && path[i] != '['
    requires next == if path[i] == '\\' && i + 1 < |path| then i + 2 else i + 1
    ensures ReadKey(path[i..]) == ([path[next - 1]] + ReadKey(path[next..]).0, ReadKey(path[next..]).1)
  {
    var s := path[i..];
    assert s[0] == path[i] && s[next - i - 1] == path[next - 1] && s[next - i..] == path[next..];
  }

  lemma ReadEnd(path: string, i: nat)
    requires i <= |path| && (i == |path| || path[i] == '.' || path[i] == '[')
    ensures ReadKey(path[i..]) == ("", path[i..])
  {
  }

  /** The index walks along the path; the result is that of reading it as a whole. */
  method Parse(path: string) returns (segments: Option<seq<Segment>>)
    ensures segments == ParseSegments(path)
  {
    var read: seq<Segment> := [];
    var i := 0;
    assert path[0..] == path;
    PrependTwice([], [], ParseSegments(path));
    while i < |path|
      invariant 0 <= i <= |path|
      invariant ParseSegments(path) == Prepend(read, ParseSegments(path[i..]))
      decreases |path| - i
    {
      ghost var rest, soFar := path[i..], read;
      if path[i] == '.' {
        i := i + 1;
        if i < |path| && path[i] == '*' {
          read := read + [WILDCARD];
          i := i + 1;
          assert rest[2..] == path[i..];
        } else {
          assert rest[1..] == path[i..];
          var key, next := ReadKeyAt(path, i);
          i := next;
          read := read + KeyIfAny(key);
        }
      } else if path[i] == '[' {
        IndexOfIs(path[i..], ']');
        var end := IndexOf(path[i..], ']');
        if end.None? {
          return None;
        }
        var inner := Trim(path[i..][1..end.value]);
        var segment := ParseBracket(inner);
        if segment.None? {
          return None;
        }
        i := i + end.value + 1;
        assert rest[end.value + 1..] == path[i..];
        read := read + [segment.value];
      } else {
        var key, next := ReadKeyAt(path, i);
        i := next;
        read := read + [Key(key)];
      }
      Regroup(soFar, read, ParseSegments(path[i..]), ParseSegments(rest));
    }
    assert read + [] == read;
    segments := Some(read);
  }

  lemma Regroup(soFar: seq<Segment>, read: seq<Segment>, next: Option<seq<Segment>>, rest: Option<seq<Segment>>)
    requires soFar <= read && rest == Prepend(read[|soFar|..], next)
    ensures Prepend(soFar, rest) == Prepend(read, next)
  {
    PrependTwice(soFar, read[|soFar|..], next);
    assert soFar + read[|soFar|..] == read;
  }
}
