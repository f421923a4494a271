/**
 * The paste-ready kubectl command and a lexer that reads it the way sections 2.2 and 2.3 of the
 * POSIX Shell Command Language (IEEE Std 1003.1) describe.
 */
module ShellQuoting {

  import opened JsText
  import opened Optional

  // ---- Quoting -----------------------------------------------------------------------------------

  predicate IsSafe(c: char)
  {
    'A' <= c <= 'Z' || 'a' <= c <= 'z' || '0' <= c <= '9' || c in "_@%+=:,./-"
  }

  predicate SafeArgument(value: string)
  {
    value != "" && forall c | c in value :: IsSafe(c)
  }

  /** Every quote becomes a closing quote, a quoted quote and an opening quote. */
  function EscapeQuotes(value: string): string
  {
    if value == "" then ""
    else (if value[0] == '\'' then "'\"'\"'" else [value[0]]) + EscapeQuotes(value[1..])
  }

  function PosixShellArgument(value: string): string
  {
    if SafeArgument(value) then value else "'" + EscapeQuotes(value) + "'"
  }

  datatype Target = Target(ctx: string, group: string, plural: string, name: string, namespace: string)

  function ResourceOf(target: Target): string
  {
    (if target.group != "" then target.plural + "." + target.group else target.plural) + "/" + target.name
  }

  function OptionText(option: string, value: string): string
  {
    " " + option + " " + PosixShellArgument(value)
  }

  function Namespace(target: Target): string
  {
    if target.namespace != "" then OptionText("--namespace", target.namespace) else ""
  }

  function Kubeconfig(paths: seq<string>): string
  {
    if |paths| == 1 then OptionText("--kubeconfig", paths[0]) else ""
  }

  function Environment(paths: seq<string>): string
  {
    if |paths| > 1 then "KUBECONFIG=" + PosixShellArgument(Join(paths, ":")) + " " else ""
  }

  /** The POSIX form; an empty namespace counts as none. */
  function KubectlGetCommand(target: Target, paths: seq<string>): string
  {
    Environment(paths) + "kubectl get " + PosixShellArgument(ResourceOf(target)) + Namespace(target)
    + OptionText("--context", target.ctx) + Kubeconfig(paths)
  }

  // ---- The shell's side --------------------------------------------------------------------------

  datatype Quoting = Plain | Single | Double

  predicate IsBlank(c: char)
  {
    c == ' ' || c == '\t'
  }

  /** Characters that do something other than stand for themselves outside quotes. */
  predicate IsActive(c: char)
  {
    c in "|&;<>()$`*?[~\n"
  }

  /**
   * Reads one word and removes its quotes; also returns what follows it. None when a quote is left
   * open or the text holds an operator, an expansion or a pattern.
   */
  function ReadWord(s: string, quoting: Quoting): Option<(string, string)>
  {
    if s == "" then if quoting.Plain? then Some(("", "")) else None
    else
      match quoting
      case Plain =>
        if IsBlank(s[0]) then Some(("", s))
        else if s[0] == '\'' then ReadWord(s[1..], Single)
        else if s[0] == '"' then ReadWord(s[1..], Double)
        else if s[0] == '\\' then
          if |s| == 1 then None
          else if s[1] == '\n' then ReadWord(s[2..], Plain)
          else Prefixed(s[1], ReadWord(s[2..], Plain))
        else if IsActive(s[0]) then None
        else Prefixed(s[0], ReadWord(s[1..], Plain))
      case Single =>
        if s[0] == '\'' then ReadWord(s[1..], Plain) else Prefixed(s[0], ReadWord(s[1..], Single))
      case Double =>
        if s[0] == '"' then ReadWord(s[1..], Plain)
        else if s[0] == '$' || s[0] == '`' then None
        else if s[0] == '\\' && |s| > 1 && s[1] in "$`\"\\" then Prefixed(s[1], ReadWord(s[2..], Double))
        else if s[0] == '\\' && |s| > 1 && s[1] == '\n' then ReadWord(s[2..], Double)
        else Prefixed(s[0], ReadWord(s[1..], Double))
  }

  function Prefixed(c: char, r: Option<(string, string)>): Option<(string, string)>
  {
    match r
    case None => None
    case Some((word, rest)) => Some(([c] + word, rest))
  }

  lemma {:induction false} ReadWordShrinks(s: string, quoting: Quoting)
    ensures ReadWord(s, quoting).Some? ==> |ReadWord(s, quoting).value.1| <= |s|
    ensures s != "" && !IsBlank(s[0]) && ReadWord(s, quoting).Some? ==> |ReadWord(s, quoting).value.1| < |s|
    decreases |s|
  {
    if s != "" {
      ReadWordShrinks(s[1..], Plain);
      ReadWordShrinks(s[1..], Single);
      ReadWordShrinks(s[1..], Double);
      if |s| > 1 {
        ReadWordShrinks(s[2..], Plain);
        ReadWordShrinks(s[2..], Double);
      }
    }
  }

  /** The words of a command line; a comment is not one. */
  function Lex(s: string): Option<seq<string>>
    decreases |s|
  {
    if s == "" then Some([])
    else if IsBlank(s[0]) then Lex(s[1..])
    else if s[0] == '#' then None
    else
      ReadWordShrinks(s, Plain);
      match ReadWord(s, Plain)
      case None => None
      case Some((word, rest)) =>
        (match Lex(rest)
         case None => None
         case Some(words) => Some([word] + words))
  }

  // ---- Quoting is undone by the shell ------------------------------------------------------------

  predicate EndsWord(rest: string)
  {
    rest == "" || IsBlank(rest[0])
  }

  lemma SafeIsPlain(c: char)
    requires IsSafe(c)
    ensures !IsBlank(c) && !IsActive(c) && c != '\'' && c != '"' && c != '\\'
  {
  }

  lemma ReadPlain(c: char, s: string)
    requires IsSafe(c)
    ensures ReadWord([c] + s, Plain) == Prefixed(c, ReadWord(s, Plain))
  {
    SafeIsPlain(c);
    assert ([c] + s)[1..] == s;
  }

  lemma {:induction false} ReadAfterSafe(safe: string, tail: string)
    requires (forall c | c in safe :: IsSafe(c)) && ReadWord(tail, Plain).Some?
    ensures ReadWord(safe + tail, Plain) == Some((safe + ReadWord(tail, Plain).value.0, ReadWord(tail, Plain).value.1))
  {
    var word := ReadWord(tail, Plain).value.0;
    if safe == "" {
      assert safe + tail == tail && safe + word == word;
    } else {
      assert safe[0] in safe;
      ReadAfterSafe(safe[1..], tail);
      ReadPlain(safe[0], safe[1..] + tail);
      assert safe + tail == [safe[0]] + (safe[1..] + tail) && [safe[0]] + (safe[1..] + word) == safe + word;
    }
  }

  lemma ReadSafe(value: string, rest: string)
    requires (forall c | c in value :: IsSafe(c)) && EndsWord(rest)
    ensures ReadWord(value + rest, Plain) == Some((value, rest))
  {
    ReadAfterSafe(value, rest);
    assert value + "" == value;
  }

  lemma QuotedQuote(s: string)
    ensures ReadWord("'\"'\"'" + s, Single) == Prefixed('\'', ReadWord(s, Single))
  {
    var text := "'\"'\"'" + s;
    assert text[1..] == "\"'\"'" + s;
    assert ReadWord("\"'\"'" + s, Plain) == ReadWord("'\"'" + s, Double) by {
      assert ("\"'\"'" + s)[1..] == "'\"'" + s;
    }
    assert ReadWord("'\"'" + s, Double) == Prefixed('\'', ReadWord("\"'" + s, Double)) by {
      assert ("'\"'" + s)[1..] == "\"'" + s;
    }
    assert ReadWord("\"'" + s, Double) == ReadWord("'" + s, Plain) by {
      assert ("\"'" + s)[1..] == "'" + s;
    }
    assert ("'" + s)[1..] == s;
  }

  lemma {:induction false} ReadQuoted(value: string, rest: string)
    requires EndsWord(rest)
    ensures ReadWord(EscapeQuotes(value) + "'" + rest, Single) == Some((value, rest))
  {
    if value == "" {
      assert EscapeQuotes(value) + "'" + rest == "'" + rest && ("'" + rest)[1..] == rest;
    } else {
      ReadQuoted(value[1..], rest);
      var tail := EscapeQuotes(value[1..]) + "'" + rest;
      if value[0] == '\'' {
        QuotedQuote(tail);
        assert EscapeQuotes(value) + "'" + rest == "'\"'\"'" + tail;
      } else {
        assert EscapeQuotes(value) + "'" + rest == [value[0]] + tail && ([value[0]] + tail)[1..] == tail;
      }
      assert [value[0]] + value[1..] == value;
    }
  }

  lemma {:induction false} EscapingGrows(value: string)
    ensures |EscapeQuotes(value)| >= |value|
  {
    if value != "" {
      EscapingGrows(value[1..]);
    }
  }

  /** An argument is left as it is exactly if it has a character and only letters, digits and `_@%+=:,./-`. */
  lemma UnquotedExactly(value: string)
    ensures PosixShellArgument(value) == value
       <==> && value != ""
            && forall c | c in value ::
                 && 37 <= c as int <= 122
                 && (c as int in {37, 61, 95} || 43 <= c as int <= 58 || 64 <= c as int <= 90 || 97 <= c as int)
  {
    EscapingGrows(value);
  }

  /** The resource is named with its group, unless that is the core group. */
  lemma ResourceNamed(target: Target)
    ensures target.group == "" ==> ResourceOf(target) == target.plural + "/" + target.name
    ensures target.group != "" ==> ResourceOf(target) == target.plural + "." + target.group + "/" + target.name
  {
  }

  /** For every string: the shell reads the quoted argument as exactly that one word. */
  lemma ArgumentIsOneWord(value: string, rest: string)
    requires EndsWord(rest)
    ensures ReadWord(PosixShellArgument(value) + rest, Plain) == Some((value, rest))
    ensures PosixShellArgument(value) != "" && !IsBlank(PosixShellArgument(value)[0])
            && PosixShellArgument(value)[0] != '#'
  {
    if SafeArgument(value) {
      ReadSafe(value, rest);
      assert value[0] in value;
    } else {
      ReadQuoted(value, rest);
      OpenQuote(EscapeQuotes(value) + "'" + rest);
      assert PosixShellArgument(value) + rest == "'" + (EscapeQuotes(value) + "'" + rest);
    }
  }

  lemma OpenQuote(s: string)
    ensures ReadWord("'" + s, Plain) == ReadWord(s, Single)
  {
    assert ("'" + s)[1..] == s;
  }

  function Cons(word: string, words: Option<seq<string>>): Option<seq<string>>
  {
    match words
    case None => None
    case Some(more) => Some([word] + more)
  }

  lemma LexArgument(value: string, rest: string)
    requires EndsWord(rest)
    ensures Lex(PosixShellArgument(value) + rest) == Cons(value, Lex(rest))
  {
    ArgumentIsOneWord(value, rest);
    assert (PosixShellArgument(value) + rest)[0] == PosixShellArgument(value)[0];
  }

  lemma LexSafe(word: string, rest: string)
    requires SafeArgument(word)
    ensures Lex(word + " " + rest) == Cons(word, Lex(rest))
  {
    ReadSafe(word, " " + rest);
    var s := word + " " + rest;
    assert s == word + (" " + rest) && s[0] in word;
    assert Lex(" " + rest) == Lex(rest) by {
      assert (" " + rest)[1..] == rest;
    }
  }

  lemma LexBlank(rest: string)
    ensures Lex(" " + rest) == Lex(rest)
  {
    assert (" " + rest)[1..] == rest;
  }

  lemma SafeWords()
    ensures SafeArgument("--namespace") && SafeArgument("--context") && SafeArgument("--kubeconfig")
    ensures SafeArgument("kubectl") && SafeArgument("get")
  {
  }

  /** An option and its value, after an argument. */
  lemma LexOption(option: string, value: string, rest: string)
    requires SafeArgument(option) && EndsWord(rest)
    ensures Lex(OptionText(option, value) + rest) == Cons(option, Cons(value, Lex(rest)))
            && EndsWord(OptionText(option, value) + rest)
  {
    var tail := PosixShellArgument(value) + rest;
    LexArgument(value, rest);
    LexSafe(option, tail);
    LexBlank(option + " " + tail);
    assert OptionText(option, value) + rest == " " + (option + " " + tail);
  }

  /** The words kubectl and the shell are meant to see. */
  function IntendedWords(target: Target, paths: seq<string>): seq<string>
  {
    EnvironmentWords(paths) + ["kubectl", "get", ResourceOf(target)] + NamespaceWords(target)
    + ["--context", target.ctx] + KubeconfigWords(paths)
  }

  function EnvironmentWords(paths: seq<string>): seq<string>
  {
    if |paths| > 1 then ["KUBECONFIG=" + Join(paths, ":")] else []
  }

  function NamespaceWords(target: Target): seq<string>
  {
    if target.namespace != "" then ["--namespace", target.namespace] else []
  }

  function KubeconfigWords(paths: seq<string>): seq<string>
  {
    if |paths| == 1 then ["--kubeconfig", paths[0]] else []
  }

  lemma ConsTwice(option: string, value: string, words: seq<string>)
    ensures Cons(option, Cons(value, Some(words))) == Some([option, value] + words)
  {
    assert [option] + ([value] + words) == [option, value] + words;
  }

  lemma LexKubeconfig(paths: seq<string>)
    ensures Lex(Kubeconfig(paths)) == Some(KubeconfigWords(paths)) && EndsWord(Kubeconfig(paths))
  {
    if |paths| == 1 {
      SafeWords();
      LexOption("--kubeconfig", paths[0], "");
      assert Kubeconfig(paths) + "" == Kubeconfig(paths);
      ConsTwice("--kubeconfig", paths[0], []);
      assert ["--kubeconfig", paths[0]] + [] == KubeconfigWords(paths);
    }
  }

  lemma LexNamespace(target: Target, rest: string)
    requires EndsWord(rest) && Lex(rest).Some?
    ensures Lex(Namespace(target) + rest) == Some(NamespaceWords(target) + Lex(rest).value)
            && EndsWord(Namespace(target) + rest)
  {
    if target.namespace != "" {
      SafeWords();
      LexOption("--namespace", target.namespace, rest);
      ConsTwice("--namespace", target.namespace, Lex(rest).value);
    } else {
      assert "" + rest == rest && [] + Lex(rest).value == Lex(rest).value;
    }
  }

  lemma LexContext(target: Target, paths: seq<string>)
    ensures var s := OptionText("--context", target.ctx) + Kubeconfig(paths);
            Lex(s) == Some(["--context", target.ctx] + KubeconfigWords(paths)) && EndsWord(s)
  {
    SafeWords();
    LexKubeconfig(paths);
    LexOption("--context", target.ctx, Kubeconfig(paths));
    ConsTwice("--context", target.ctx, KubeconfigWords(paths));
  }

  lemma LexGet(resource: string, rest: string)
    requires EndsWord(rest) && Lex(rest).Some?
    ensures Lex("kubectl get " + (PosixShellArgument(resource) + rest))
            == Some(["kubectl", "get", resource] + Lex(rest).value)
  {
    LexArgument(resource, rest);
    LexKubectl(PosixShellArgument(resource) + rest);
    ConsTwice("kubectl", "get", [resource] + Lex(rest).value);
    assert ["kubectl", "get"] + ([resource] + Lex(rest).value) == ["kubectl", "get", resource] + Lex(rest).value;
  }

  lemma LexKubectl(tail: string)
    ensures Lex("kubectl get " + tail) == Cons("kubectl", Cons("get", Lex(tail)))
  {
    SafeWords();
    LexSafe("get", tail);
    LexSafe("kubectl", "get" + " " + tail);
    assert "kubectl" + " " + ("get" + " " + tail) == "kubectl get " + tail;
  }

  lemma LexAssignment(value: string, rest: string)
    ensures Lex("KUBECONFIG=" + PosixShellArgument(value) + " " + rest) == Cons("KUBECONFIG=" + value, Lex(rest))
  {
    var tail := PosixShellArgument(value) + (" " + rest);
    ArgumentIsOneWord(value, " " + rest);
    ReadAfterSafe("KUBECONFIG=", tail);
    assert "KUBECONFIG=" + PosixShellArgument(value) + " " + rest == "KUBECONFIG=" + tail;
    LexBlank(rest);
  }

  lemma LexEnvironment(paths: seq<string>, rest: string)
    requires Lex(rest).Some?
    ensures Lex(Environment(paths) + rest) == Some(EnvironmentWords(paths) + Lex(rest).value)
  {
    if |paths| > 1 {
      LexAssignment(Join(paths, ":"), rest);
    } else {
      assert "" + rest == rest && [] + Lex(rest).value == Lex(rest).value;
    }
  }

  lemma Regroup<T>(a: seq<T>, b: seq<T>, c: seq<T>, d: seq<T>, e: seq<T>)
    ensures a + b + c + d + e == a + (b + (c + (d + e)))
  {
  }

  lemma JoinTexts(a: string, b: string, c: string)
    ensures a + b + c == a + (b + c)
  {
  }

  /** For every target and every list of files, the shell reads exactly the intended words. */
  lemma CommandReadsAsIntended(target: Target, paths: seq<string>)
    ensures Lex(KubectlGetCommand(target, paths)) == Some(IntendedWords(target, paths))
  {
    var resource, context := PosixShellArgument(ResourceOf(target)), OptionText("--context", target.ctx);
    var tail := context + Kubeconfig(paths);
    LexContext(target, paths);
    LexNamespace(target, tail);
    LexGet(ResourceOf(target), Namespace(target) + tail);
    LexEnvironment(paths, "kubectl get " + (resource + (Namespace(target) + tail)));
    Regroup(Environment(paths) + "kubectl get ", resource, Namespace(target), context, Kubeconfig(paths));
    JoinTexts(Environment(paths), "kubectl get ", resource + (Namespace(target) + tail));
    Regroup(EnvironmentWords(paths), ["kubectl", "get", ResourceOf(target)], NamespaceWords(target),
        ["--context", target.ctx], KubeconfigWords(paths));
  }

  /** The merged list of files comes back in order, as long as no path holds the separator. */
  lemma MergedPathsComeBack(paths: seq<string>)
    requires |paths| > 1
    ensures Split(Join(paths, ":"), ':') == paths <==> forall path | path in paths :: ':' !in path
  {
    if forall path | path in paths :: ':' !in path {
      SplitJoin(paths, ':');
    } else {
      PartsAreClean(Join(paths, ":"), ':');
    }
  }
}
