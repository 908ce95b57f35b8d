/**
 * Quoting for the shell: `shellQuote`, `devspaceArgs` and `devspaceCommand`,
 * read back by a lexer for the quoting rules of section 2.2 and the token
 * rules of section 2.3 of the POSIX.1-2017 Shell Command Language.
 */
module ShellQuote {
  import opened Basics

  // ---- The shell's side ----

  /** Of the operators only `&&` matters here; the others are read one character at a time. */
  datatype Token = Word(text: string) | AndIf | Operator(c: char)

  datatype Mode = Plain | SingleQuoted | DoubleQuoted

  const NUL := 0 as char

  predicate Blank(c: char) { c == ' ' || c == '\t' }

  predicate Quoting(c: char) { c == '\'' || c == '\"' || c == '\\' }

  /** Unquoted, these end a word and make an operator. */
  predicate Operating(c: char) {
    c == '\n' || c == '&' || c == '|' || c == ';' || c == '<' || c == '>' || c == '(' || c == ')'
  }

  /** Unquoted, these start an expansion or a pattern: what becomes of them depends on the shell's environment. */
  predicate Expanding(c: char) { c == '$' || c == '`' || c == '*' || c == '?' || c == '[' }

  /** What a backslash still escapes between double quotes. */
  predicate Escapable(c: char) { c == '$' || c == '`' || c == '\"' || c == '\\' || c == '\n' }

  /** What a word may not begin with unquoted: a comment, a home directory. */
  predicate Leading(c: char) { c == '#' || c == '~' }

  predicate Ordinary(c: char) { c != NUL && !Blank(c) && !Quoting(c) && !Operating(c) && !Expanding(c) }

  predicate OrdinaryText(s: string) { forall c <- s :: Ordinary(c) }

  /** A `#` or `~` that begins a word is a comment or a home directory. */
  predicate OrdinaryWord(s: string) { s != "" && OrdinaryText(s) && !Leading(s[0]) }

  predicate NulFree(s: string) { Free(s, NUL) }

  function Pending(word: Option<string>): string { if word.Some? then word.value else "" }

  function Flush(word: Option<string>): seq<Token> { if word.Some? then [Word(word.value)] else [] }

  function After(tokens: seq<Token>, rest: Option<seq<Token>>): Option<seq<Token>> {
    if rest.Some? then Some(tokens + rest.value) else None
  }

  function Append(word: Option<string>, c: char): Option<string> { Some(Pending(word) + [c]) }

  /**
   * The tokens of a command line. None when it is not complete, holds a NUL, or
   * depends on the environment: on an expansion, a pattern, a comment or a home
   * directory.
   */
  function Lex(s: string, mode: Mode, word: Option<string>): Option<seq<Token>>
    decreases |s|
  {
    if s == "" then if mode == Plain then Some(Flush(word)) else None
    else if s[0] == NUL then None
    else
      match mode
      case SingleQuoted =>
        if s[0] == '\'' then Lex(s[1..], Plain, word) else Lex(s[1..], SingleQuoted, Append(word, s[0]))
      case DoubleQuoted =>
        if s[0] == '\"' then Lex(s[1..], Plain, word)
        else if s[0] == '$' || s[0] == '`' then None
        else if s[0] == '\\' && |s| > 1 && Escapable(s[1]) then
          Lex(s[2..], DoubleQuoted, if s[1] == '\n' then word else Append(word, s[1]))
        else Lex(s[1..], DoubleQuoted, Append(word, s[0]))
      case Plain => LexPlain(s, word)
  }

  function LexPlain(s: string, word: Option<string>): Option<seq<Token>>
    requires s != "" && s[0] != NUL
    decreases |s|, 0
  {
    var c, more := s[0], |s| > 1;
    if c == '\'' then Lex(s[1..], SingleQuoted, Some(Pending(word)))
    else if c == '\"' then Lex(s[1..], DoubleQuoted, Some(Pending(word)))
    else if c == '\\' then
      if !more || s[1] == NUL then None
      else Lex(s[2..], Plain, if s[1] == '\n' then word else Append(word, s[1]))
    else if Blank(c) then After(Flush(word), Lex(s[1..], Plain, None))
    else if c == '&' && more && s[1] == '&' then After(Flush(word) + [AndIf], Lex(s[2..], Plain, None))
    else if Operating(c) then After(Flush(word) + [Operator(c)], Lex(s[1..], Plain, None))
    else if Expanding(c) || (word.None? && Leading(c)) then None
    else Lex(s[1..], Plain, Append(word, c))
  }

  // ---- The program's side ----

  /** `s` with every single quote ended, escaped and reopened. */
  function Escaped(s: string): string {
    if s == "" then "" else (if s[0] == '\'' then "'\\''" else [s[0]]) + Escaped(s[1..])
  }

  /** `shellQuote`. */
  function Quote(s: string): string { "'" + Escaped(s) + "'" }

  /** How `devspaceCommand` writes one argument. */
  function Argument(a: string): string { if StartsWith(a, "-") then a else Quote(a) }

  /** Each text with a space before it. */
  function Spaced(texts: seq<string>): string {
    if texts == [] then "" else " " + (texts[0] + Spaced(texts[1..]))
  }

  function Arguments(args: seq<string>): (r: seq<string>)
    ensures |r| == |args| && forall k :: 0 <= k < |r| ==> r[k] == Argument(args[k])
  {
    seq(|args|, k requires 0 <= k < |args| => Argument(args[k]))
  }

  function Words(texts: seq<string>): (r: seq<Token>)
    ensures |r| == |texts| && forall k :: 0 <= k < |r| ==> r[k] == Word(texts[k])
  {
    seq(|texts|, k requires 0 <= k < |texts| => Word(texts[k]))
  }

  /** What is known of a repository when a command for it is built; the profiles come from its configuration. */
  datatype Repo = Repo(name: string, path: string, root: Option<string>, namespace: Option<string>,
                       templateName: Option<string>, varDefaults: seq<(string, string)>,
                       overlay: Option<string>, tuned: bool, reusesPullSecret: bool)

  function VarArgs(vars: seq<(string, string)>): seq<string> {
    if vars == [] then [] else ["--var", vars[0].0 + "=" + vars[0].1] + VarArgs(vars[1..])
  }

  function TemplateArgs(name: string, template: Option<string>): seq<string> {
    if template.None? then []
    else ["--override-name", name, "--var", "DEVSPACE_NAME=" + template.value, "--var", "devspace.name=" + template.value]
  }

  function NamespaceArgs(namespace: Option<string>): seq<string> {
    if namespace.None? then [] else ["-n", namespace.value]
  }

  function ArgsOf(repo: Repo): seq<string> {
    VarArgs(repo.varDefaults) + TemplateArgs(repo.name, repo.templateName) + NamespaceArgs(repo.namespace)
  }

  lemma {:induction false} VarArgsNext(vars: seq<(string, string)>, k: nat)
    requires k < |vars|
    ensures VarArgs(vars[..k + 1]) == VarArgs(vars[..k]) + ["--var", vars[k].0 + "=" + vars[k].1]
  {
    if k == 0 {
      assert vars[..1] == [vars[0]];
    } else {
      VarArgsNext(vars[1..], k - 1);
      assert vars[1..][..k - 1] == vars[..k][1..];
      assert vars[1..][..k - 1 + 1] == vars[..k + 1][1..];
      assert vars[1..][k - 1] == vars[k];
      var first := ["--var", vars[0].0 + "=" + vars[0].1];
      assert VarArgs(vars[..k + 1]) == first + VarArgs(vars[..k + 1][1..]);
      assert VarArgs(vars[..k]) == first + VarArgs(vars[..k][1..]);
    }
  }

  /** `devspaceArgs`. */
  method DevspaceArgs(repo: Repo) returns (args: seq<string>)
    ensures args == ArgsOf(repo)
  {
    args := [];
    var k := 0;
    while k < |repo.varDefaults|
      invariant 0 <= k <= |repo.varDefaults| && args == VarArgs(repo.varDefaults[..k])
    {
      VarArgsNext(repo.varDefaults, k);
      args := args + ["--var", repo.varDefaults[k].0 + "=" + repo.varDefaults[k].1];
      k := k + 1;
    }
    assert repo.varDefaults[..k] == repo.varDefaults;
    if repo.templateName.Some? {
      args := args + ["--override-name", repo.name, "--var", "DEVSPACE_NAME=" + repo.templateName.value,
                      "--var", "devspace.name=" + repo.templateName.value];
    }
    if repo.namespace.Some? {
      args := args + ["-n", repo.namespace.value];
    }
  }

  function Profiles(repo: Repo, verb: seq<string>): seq<string> {
    (if verb in {["dev"], ["deploy"], ["purge"]} && repo.tuned then ["-p", "devdock"] else [])
    + (if verb in {["dev"], ["purge"]} && repo.reusesPullSecret then ["-p", "devdock-cached-pull-secret"] else [])
  }

  /** `devspaceCommand`, from the inside out; `verb` is the verb's words, such as `dev` or `reset pods`. */
  function Run(repo: Repo, verb: seq<string>): string {
    "devspace" + (Spaced(verb + Profiles(repo, verb)) + Spaced(Arguments(ArgsOf(repo))))
  }

  function Configured(repo: Repo, verb: seq<string>): string {
    if repo.overlay.Some? then "DEVSPACE_CONFIG=" + (Quote(repo.overlay.value) + (" " + Run(repo, verb)))
    else Run(repo, verb)
  }

  function InPath(repo: Repo, verb: seq<string>): string {
    "cd" + (" " + (Quote(repo.path) + (" && " + Configured(repo, verb))))
  }

  function DevspaceCommand(repo: Repo, verb: seq<string>): string {
    if repo.root.Some? then
      "export" + (" " + ("DEVSPACE_BINARY_DIR=" + (Quote(repo.root.value) + (" && " + InPath(repo, verb)))))
    else InPath(repo, verb)
  }

  /** The command that is meant, from the inside out. */
  function RunMeant(repo: Repo, verb: seq<string>): seq<Token> {
    [Word("devspace")] + Words(verb + Profiles(repo, verb)) + Words(ArgsOf(repo))
  }

  function ConfiguredMeant(repo: Repo, verb: seq<string>): seq<Token> {
    (if repo.overlay.Some? then [Word("DEVSPACE_CONFIG=" + repo.overlay.value)] else []) + RunMeant(repo, verb)
  }

  function InPathMeant(repo: Repo, verb: seq<string>): seq<Token> {
    [Word("cd"), Word(repo.path), AndIf] + ConfiguredMeant(repo, verb)
  }

  function Meant(repo: Repo, verb: seq<string>): seq<Token> {
    if repo.root.Some? then
      [Word("export"), Word("DEVSPACE_BINARY_DIR=" + repo.root.value), AndIf] + InPathMeant(repo, verb)
    else InPathMeant(repo, verb)
  }

  // ---- Single steps of the lexer ----

  /** Ordinary text joins the pending word. */
  lemma {:induction false} LexOrdinary(w: string, rest: string, word: Option<string>)
    requires OrdinaryText(w) && w != "" && (word.Some? || !Leading(w[0]))
    ensures Lex(w + rest, Plain, word) == Lex(rest, Plain, Some(Pending(word) + w))
  {
    var s := w + rest;
    assert Ordinary(w[0]) && s[0] == w[0];
    assert s[1..] == w[1..] + rest;
    assert Lex(s, Plain, word) == Lex(w[1..] + rest, Plain, Append(word, w[0]));
    if |w| > 1 {
      LexOrdinary(w[1..], rest, Append(word, w[0]));
      assert Pending(word) + [w[0]] + w[1..] == Pending(word) + w;
    } else {
      assert w[1..] + rest == rest && [w[0]] == w;
    }
  }

  lemma LexBlank(rest: string, word: Option<string>)
    ensures Lex(" " + rest, Plain, word) == After(Flush(word), Lex(rest, Plain, None))
  {
    assert (" " + rest)[1..] == rest;
  }

  lemma LexAnd(rest: string, word: string)
    ensures Lex(" && " + rest, Plain, Some(word)) == After([Word(word), AndIf], Lex(rest, Plain, None))
  {
    var t := "&& " + rest;
    assert " && " + rest == " " + t;
    LexBlank(t, Some(word));
    assert t[2..] == " " + rest;
    LexBlank(rest, None);
    assert Flush(None) + [AndIf] == [AndIf];
    assert Lex(t, Plain, None) == After([AndIf], Lex(" " + rest, Plain, None));
    var r := Lex(rest, Plain, None);
    if r.Some? {
      assert [Word(word)] + ([AndIf] + ([] + r.value)) == [Word(word), AndIf] + r.value;
    }
  }

  /** Inside single quotes: everything is taken as it is, and a quote gets out and back in. */
  lemma {:induction false} LexEscaped(s: string, rest: string, word: string)
    ensures Lex(Escaped(s) + ("'" + rest), SingleQuoted, Some(word))
         == if NulFree(s) then Lex(rest, Plain, Some(word + s)) else None
  {
    if s == "" {
      assert Escaped(s) + ("'" + rest) == "'" + rest;
      assert ("'" + rest)[1..] == rest;
      assert word + s == word;
    } else {
      var tail := Escaped(s[1..]) + ("'" + rest);
      EscapedHead(s, tail, rest, word);
      LexEscaped(s[1..], rest, word + [s[0]]);
      assert word + [s[0]] + s[1..] == word + s;
      assert s == [s[0]] + s[1..];
    }
  }

  lemma EscapedHead(s: string, tail: string, rest: string, word: string)
    requires s != "" && tail == Escaped(s[1..]) + ("'" + rest)
    ensures Lex(Escaped(s) + ("'" + rest), SingleQuoted, Some(word))
         == if s[0] == NUL then None else Lex(tail, SingleQuoted, Some(word + [s[0]]))
  {
    var head := if s[0] == '\'' then "'\\''" else [s[0]];
    HeadAndTail(head, Escaped(s[1..]), "'" + rest);
    if s[0] == '\'' { LexQuoteMark(tail, word); } else { LexOneQuoted(s[0], tail, word); }
  }

  lemma HeadAndTail(head: string, middle: string, end: string)
    ensures (head + middle) + end == head + (middle + end)
  {
  }

  lemma LexOneQuoted(c: char, tail: string, word: string)
    requires c != '\''
    ensures Lex([c] + tail, SingleQuoted, Some(word))
         == if c == NUL then None else Lex(tail, SingleQuoted, Some(word + [c]))
  {
    assert ([c] + tail)[1..] == tail;
  }

  lemma LexQuoteMark(tail: string, word: string)
    ensures Lex("'\\''" + tail, SingleQuoted, Some(word)) == Lex(tail, SingleQuoted, Some(word + ['\'']))
  {
    var s0 := "'\\''" + tail;
    var s1, s3 := "\\''" + tail, "'" + tail;
    assert s0[1..] == s1 && s1[2..] == s3 && s3[1..] == tail;
    assert Lex(s0, SingleQuoted, Some(word)) == Lex(s1, Plain, Some(word));
    assert Lex(s1, Plain, Some(word)) == Lex(s3, Plain, Some(word + ['\'']));
  }

  /** A quoted string joins the pending word as it was given, wherever it stands. */
  lemma LexQuoted(s: string, rest: string, word: Option<string>)
    ensures Lex(Quote(s) + rest, Plain, word)
         == if NulFree(s) then Lex(rest, Plain, Some(Pending(word) + s)) else None
  {
    var inside := Escaped(s) + ("'" + rest);
    assert Quote(s) + rest == "'" + inside;
    assert ("'" + inside)[1..] == inside;
    LexEscaped(s, rest, Pending(word));
  }

  /** On its own: one word, the string itself; and nothing at all when the string holds a NUL. */
  lemma QuoteRoundTrips(s: string)
    ensures Lex(Quote(s), Plain, None) == if NulFree(s) then Some([Word(s)]) else None
  {
    LexQuoted(s, "", None);
    assert Quote(s) + "" == Quote(s) && "" + s == s;
  }

  // ---- Arguments left unquoted ----

  /** The first word of what was lexed, if it is read at all, is not `a`. */
  predicate FirstIsNot(tokens: Option<seq<Token>>, a: string) {
    tokens.Some? ==> |tokens.value| > 0 && tokens.value[0] != Word(a)
  }

  predicate FirstExtends(tokens: Option<seq<Token>>, w: string) {
    tokens.Some? ==> |tokens.value| > 0 && tokens.value[0].Word? && w <= tokens.value[0].text
  }

  /** A pending word only grows. */
  lemma {:induction false} PendingGrows(s: string, mode: Mode, w: string)
    ensures FirstExtends(Lex(s, mode, Some(w)), w)
    decreases |s|, 0
  {
    if s != "" && s[0] != NUL {
      PendingGrows(s[1..], SingleQuoted, w);
      PendingGrows(s[1..], DoubleQuoted, w);
      PendingGrows(s[1..], Plain, w);
      GrowsBy(s[1..], mode, w, s[0]);
      if |s| > 1 {
        PendingGrows(s[2..], mode, w);
        GrowsBy(s[2..], mode, w, s[1]);
      }
    }
  }

  lemma {:induction false} GrowsBy(s: string, mode: Mode, w: string, c: char)
    ensures FirstExtends(Lex(s, mode, Some(w + [c])), w)
    decreases |s|, 1
  {
    PendingGrows(s, mode, w + [c]);
    var r := Lex(s, mode, Some(w + [c]));
    assert r.Some? ==> w <= w + [c] <= r.value[0].text;
  }

  /** Once the pending word departs from `a`, the word it grows into is not `a`. */
  lemma DepartedStays(s: string, mode: Mode, w: string, a: string)
    requires !(w <= a)
    ensures FirstIsNot(Lex(s, mode, Some(w)), a)
  {
    PendingGrows(s, mode, w);
  }

  /** The end of the argument: the input is over, or a space follows. */
  predicate EndsWord(rest: string) { rest == "" || rest[0] == ' ' }

  /**
   * The input is `a` and what follows it, read up to `i`, and the pending word
   * is already shorter than what was read; no space was read so far. Then the
   * first word cannot become `a`: at the first space the word either ends too
   * short, or takes the space in where `a` has none.
   */
  lemma {:induction false} ShortStaysShort(a: string, rest: string, i: nat, mode: Mode, w: string)
    requires EndsWord(rest) && i <= |a| && |w| < i
    requires forall k :: 0 <= k < i ==> !Blank(a[k])
    ensures FirstIsNot(Lex(a[i..] + rest, mode, Some(w)), a)
    decreases |a| - i
  {
    var s := a[i..] + rest;
    if !(w <= a) {
      DepartedStays(s, mode, w, a);
    } else if i < |a| && !Blank(a[i]) {
      assert s[0] == a[i] && s[1..] == a[i + 1..] + rest;
      ShortStaysShort(a, rest, i + 1, SingleQuoted, w);
      ShortStaysShort(a, rest, i + 1, DoubleQuoted, w);
      ShortStaysShort(a, rest, i + 1, Plain, w);
      ShortStaysShort(a, rest, i + 1, mode, w + [a[i]]);
      if |s| > 1 && a[i] == '\\' {
        AfterBackslash(a, rest, i, mode, w);
      }
      OneMoreRead(s, mode, w, a);
    } else if s != "" {
      assert Blank(s[0]) && s[1..] == (if i < |a| then a[i + 1..] + rest else rest[1..]);
      if mode != Plain {
        TakenIn(a, i, w, s[0]);
        DepartedStays(s[1..], mode, w + [s[0]], a);
      }
    }
  }

  /** Whatever the lexer does with one more character, the first word does not become `a`. */
  lemma OneMoreRead(s: string, mode: Mode, w: string, a: string)
    requires s != "" && !Blank(s[0]) && |w| < |a|
    requires FirstIsNot(Lex(s[1..], SingleQuoted, Some(w)), a) && FirstIsNot(Lex(s[1..], DoubleQuoted, Some(w)), a)
    requires FirstIsNot(Lex(s[1..], Plain, Some(w)), a) && FirstIsNot(Lex(s[1..], mode, Some(w + [s[0]])), a)
    requires |s| > 1 && s[0] == '\\' ==>
               && FirstIsNot(Lex(s[2..], mode, Some(w + [s[1]])), a)
               && (!Blank(s[1]) ==> FirstIsNot(Lex(s[2..], mode, Some(w)), a))
    ensures FirstIsNot(Lex(s, mode, Some(w)), a)
  {
    if mode == Plain { OneMorePlain(s, w, a); }
  }

  lemma OneMorePlain(s: string, w: string, a: string)
    requires s != "" && !Blank(s[0]) && |w| < |a|
    requires FirstIsNot(Lex(s[1..], SingleQuoted, Some(w)), a) && FirstIsNot(Lex(s[1..], DoubleQuoted, Some(w)), a)
    requires FirstIsNot(Lex(s[1..], Plain, Some(w + [s[0]])), a)
    requires |s| > 1 && s[0] == '\\' ==>
               && FirstIsNot(Lex(s[2..], Plain, Some(w + [s[1]])), a)
               && (!Blank(s[1]) ==> FirstIsNot(Lex(s[2..], Plain, Some(w)), a))
    ensures FirstIsNot(Lex(s, Plain, Some(w)), a)
  {
    if s[0] == '\\' {
      assert |s| > 1 && s[1] != NUL ==>
        Lex(s, Plain, Some(w)) == Lex(s[2..], Plain, if s[1] == '\n' then Some(w) else Some(w + [s[1]]));
    } else if s[0] == '\'' {
      assert Lex(s, Plain, Some(w)) == Lex(s[1..], SingleQuoted, Some(w));
    } else if s[0] == '\"' {
      assert Lex(s, Plain, Some(w)) == Lex(s[1..], DoubleQuoted, Some(w));
    } else if Operating(s[0]) {
      OperatorEnds(s, w, a);
    }
  }

  /** An operator ends the word, here too early. */
  lemma OperatorEnds(s: string, w: string, a: string)
    requires s != "" && Operating(s[0]) && |w| < |a|
    ensures FirstIsNot(Lex(s, Plain, Some(w)), a)
  {
    assert Flush(Some(w)) == [Word(w)];
  }

  /** A space taken in departs from an argument that has none there. */
  lemma TakenIn(a: string, i: nat, w: string, c: char)
    requires |w| < i <= |a| && Blank(c) && forall k :: 0 <= k < i ==> !Blank(a[k])
    ensures !(w + [c] <= a)
  {
    assert !Blank(a[|w|]) && (w + [c])[|w|] == c;
  }

  lemma {:induction false} AfterBackslash(a: string, rest: string, i: nat, mode: Mode, w: string)
    requires EndsWord(rest) && i < |a| && |w| < i && |a[i..] + rest| > 1
    requires forall k :: 0 <= k <= i ==> !Blank(a[k])
    ensures var s := a[i..] + rest;
            && FirstIsNot(Lex(s[2..], mode, Some(w + [s[1]])), a)
            && (!Blank(s[1]) ==> FirstIsNot(Lex(s[2..], mode, Some(w)), a))
    decreases |a| - i, 0
  {
    var s := a[i..] + rest;
    if Blank(s[1]) {
      TakenIn(a, i, w, s[1]);
      DepartedStays(s[2..], mode, w + [s[1]], a);
    } else {
      assert i + 1 < |a| && s[1] == a[i + 1];
      assert s[2..] == a[i + 2..] + rest;
      ShortStaysShort(a, rest, i + 2, mode, w);
      ShortStaysShort(a, rest, i + 2, mode, w + [s[1]]);
    }
  }

  /**
   * An unquoted argument that is not all ordinary text is not read back: a
   * blank or an operator ends it early, a quote or backslash is taken away, and
   * what depends on the environment is not read at all.
   */
  lemma UnquotedIsNotReadBack(a: string, rest: string)
    requires StartsWith(a, "-") && !OrdinaryText(a) && EndsWord(rest)
    ensures FirstIsNot(Lex(a + rest, Plain, None), a)
  {
    var p := FirstOddity(a);
    assert Ordinary('-') && a[0] == '-' && p > 0;
    assert a + rest == a[..p] + (a[p..] + rest);
    LexOrdinary(a[..p], a[p..] + rest, None);
    assert "" + a[..p] == a[..p];
    if Quoting(a[p]) {
      OddQuote(a, rest, p);
    } else {
      OddOther(a, rest, p);
    }
  }

  lemma OddQuote(a: string, rest: string, p: nat)
    requires EndsWord(rest) && p < |a| && Quoting(a[p]) && forall k :: 0 <= k < p ==> !Blank(a[k])
    ensures FirstIsNot(Lex(a[p..] + rest, Plain, Some(a[..p])), a)
  {
    var w, s := a[..p], a[p..] + rest;
    assert s[0] == a[p] && s[1..] == a[p + 1..] + rest;
    ShortStaysShort(a, rest, p + 1, SingleQuoted, w);
    ShortStaysShort(a, rest, p + 1, DoubleQuoted, w);
    if a[p] == '\\' && |s| > 1 {
      OddBackslash(a, rest, p);
    }
  }

  lemma OddOther(a: string, rest: string, p: nat)
    requires p < |a| && !Ordinary(a[p]) && !Quoting(a[p])
    ensures FirstIsNot(Lex(a[p..] + rest, Plain, Some(a[..p])), a)
  {
    var w, s := a[..p], a[p..] + rest;
    assert s[0] == a[p] && |w| < |a|;
    assert Flush(Some(w)) == [Word(w)];
  }

  lemma FirstOddity(a: string) returns (p: nat)
    requires !OrdinaryText(a)
    ensures p < |a| && !Ordinary(a[p]) && OrdinaryText(a[..p])
    ensures forall k :: 0 <= k < p ==> !Blank(a[k])
  {
    p := 0;
    while Ordinary(a[p])
      invariant p < |a| && forall k :: 0 <= k < p ==> Ordinary(a[k])
      decreases |a| - p
    {
      p := p + 1;
    }
  }

  lemma OddBackslash(a: string, rest: string, p: nat)
    requires EndsWord(rest) && p < |a| && a[p] == '\\' && |a[p..] + rest| > 1
    requires forall k :: 0 <= k < p ==> !Blank(a[k])
    ensures var s := a[p..] + rest;
            && FirstIsNot(Lex(s[2..], Plain, Some(a[..p] + [s[1]])), a)
            && (s[1] == '\n' ==> FirstIsNot(Lex(s[2..], Plain, Some(a[..p])), a))
  {
    var s, w := a[p..] + rest, a[..p];
    if s[1] == '\\' || !Blank(s[1]) {
      assert p + 1 < |a| && s[1] == a[p + 1] && s[2..] == a[p + 2..] + rest;
      ShortStaysShort(a, rest, p + 2, Plain, w);
      ShortStaysShort(a, rest, p + 2, Plain, w + [s[1]]);
    } else {
      assert (w + [s[1]])[p] != a[p];
      DepartedStays(s[2..], Plain, w + [s[1]], a);
    }
  }

  // ---- Argument lists ----

  /** An argument is read back whatever the environment: no NUL, and nothing but ordinary text when it is left unquoted. */
  predicate Safe(a: string) { NulFree(a) && (StartsWith(a, "-") ==> OrdinaryText(a)) }

  lemma ArgumentIff(a: string, rest: string)
    requires EndsWord(rest)
    ensures Safe(a) ==> Lex(Argument(a) + rest, Plain, None) == Lex(rest, Plain, Some(a))
    ensures !Safe(a) ==> FirstIsNot(Lex(Argument(a) + rest, Plain, None), a)
  {
    assert "" + a == a;
    if !StartsWith(a, "-") {
      LexQuoted(a, rest, None);
    } else if OrdinaryText(a) {
      LexOrdinary(a, rest, None);
    } else {
      UnquotedIsNotReadBack(a, rest);
    }
  }

  lemma SpacedEndsWord(texts: seq<string>)
    ensures EndsWord(Spaced(texts))
  {
  }

  /** A list of arguments is read back as given if and only if each of them is safe. */
  lemma {:induction false} ArgumentsIff(args: seq<string>, w: string)
    ensures Lex(Spaced(Arguments(args)), Plain, Some(w)) == Some([Word(w)] + Words(args))
       <==> forall a <- args :: Safe(a)
    decreases |args|
  {
    if args == [] {
      assert [Word(w)] + Words(args) == [Word(w)];
    } else {
      var a, more := args[0], args[1..];
      assert args == [a] + more;
      ArgumentsIff(more, a);
      assert (forall x <- args :: Safe(x)) <==> Safe(a) && forall x <- more :: Safe(x);
      OneMoreArgument(a, more, w);
    }
  }

  lemma OneMoreArgument(a: string, more: seq<string>, w: string)
    ensures Lex(Spaced(Arguments([a] + more)), Plain, Some(w)) == Some([Word(w)] + Words([a] + more))
       <==> Safe(a) && Lex(Spaced(Arguments(more)), Plain, Some(a)) == Some([Word(a)] + Words(more))
  {
    var tail := Spaced(Arguments(more));
    var s := Argument(a) + tail;
    SpacedHead(a, more);
    LexBlank(s, Some(w));
    AfterOne(w, Lex(s, Plain, None), Words([a] + more));
    WordsHead(a, more);
    SpacedEndsWord(Arguments(more));
    ArgumentIff(a, tail);
  }

  lemma SpacedHead(a: string, more: seq<string>)
    ensures Spaced(Arguments([a] + more)) == " " + (Argument(a) + Spaced(Arguments(more)))
  {
    assert Arguments([a] + more) == [Argument(a)] + Arguments(more);
    assert Arguments([a] + more)[1..] == Arguments(more);
  }

  lemma WordsHead(a: string, more: seq<string>)
    ensures Words([a] + more) == [Word(a)] + Words(more)
  {
  }

  lemma AfterOne(w: string, r: Option<seq<Token>>, words: seq<Token>)
    ensures After([Word(w)], r) == Some([Word(w)] + words) <==> r == Some(words)
  {
    if r.Some? && [Word(w)] + r.value == [Word(w)] + words {
      assert r.value == ([Word(w)] + r.value)[1..] == words;
    }
  }

  /** Ordinary words, each after a space. */
  lemma {:induction false} LexSpaced(ws: seq<string>, rest: string, w: string)
    requires forall x <- ws :: OrdinaryWord(x)
    ensures Lex(Spaced(ws) + rest, Plain, Some(w))
         == After(Words(([w] + ws)[..|ws|]), Lex(rest, Plain, Some(([w] + ws)[|ws|])))
    decreases |ws|
  {
    var r := Lex(rest, Plain, Some(([w] + ws)[|ws|]));
    if ws == [] {
      assert Spaced(ws) + rest == rest;
      assert r.Some? ==> [] + r.value == r.value;
    } else {
      var x, more := ws[0], ws[1..];
      LexSpacedHead(x, Spaced(more) + rest, w);
      assert Spaced(ws) + rest == " " + (x + (Spaced(more) + rest));
      LexSpaced(more, rest, x);
      assert ws == [x] + more;
      WordsOfTwo(w, x, more, r);
    }
  }

  lemma LexSpacedHead(x: string, tail: string, w: string)
    requires OrdinaryWord(x)
    ensures Lex(" " + (x + tail), Plain, Some(w)) == After([Word(w)], Lex(tail, Plain, Some(x)))
  {
    LexBlank(x + tail, Some(w));
    LexOrdinary(x, tail, None);
    assert "" + x == x;
  }

  lemma WordsOfTwo(w: string, x: string, more: seq<string>, r: Option<seq<Token>>)
    ensures After([Word(w)], After(Words(([x] + more)[..|more|]), r))
         == After(Words(([w] + ([x] + more))[..|more| + 1]), r)
  {
    var a, b := Words(([x] + more)[..|more|]), Words(([w] + ([x] + more))[..|more| + 1]);
    assert b == [Word(w)] + a;
    assert r.Some? ==> [Word(w)] + (a + r.value) == b + r.value;
  }

  // ---- Whole commands ----

  /** Everything that is quoted is free of NUL, and every argument survives. */
  ghost predicate Quotable(repo: Repo) {
    && NulFree(repo.path)
    && (repo.root.Some? ==> NulFree(repo.root.value))
    && (repo.overlay.Some? ==> NulFree(repo.overlay.value))
    && (forall a <- ArgsOf(repo) :: Safe(a))
  }

  lemma AfterIff(before: seq<Token>, r: Option<seq<Token>>, rest: seq<Token>)
    ensures After(before, r) == Some(before + rest) <==> r == Some(rest)
  {
    if r.Some? && before + r.value == before + rest {
      assert r.value == (before + r.value)[|before|..] == rest;
    }
  }

  /** A quoted value glued to an ordinary name, before a blank. */
  lemma LexAssigned(name: string, value: string, rest: string, tokens: seq<Token>)
    requires OrdinaryWord(name)
    ensures Lex(name + (Quote(value) + (" " + rest)), Plain, None) == Some([Word(name + value)] + tokens)
       <==> NulFree(value) && Lex(rest, Plain, None) == Some(tokens)
  {
    LexOrdinary(name, Quote(value) + (" " + rest), None);
    assert "" + name == name;
    LexQuoted(value, " " + rest, Some(name));
    LexBlank(rest, Some(name + value));
    AfterIff([Word(name + value)], Lex(rest, Plain, None), tokens);
  }

  /** A quoted value that completes the pending word, before `&&`. */
  lemma LexThen(value: string, rest: string, word: Option<string>, tokens: seq<Token>)
    ensures Lex(Quote(value) + (" && " + rest), Plain, word)
         == Some([Word(Pending(word) + value), AndIf] + tokens)
       <==> NulFree(value) && Lex(rest, Plain, None) == Some(tokens)
  {
    LexQuoted(value, " && " + rest, word);
    LexAnd(rest, Pending(word) + value);
    AfterIff([Word(Pending(word) + value), AndIf], Lex(rest, Plain, None), tokens);
  }

  lemma RunIff(tool: string, words: seq<string>, args: seq<string>)
    requires OrdinaryWord(tool) && forall x <- words :: OrdinaryWord(x)
    ensures Lex(tool + (Spaced(words) + Spaced(Arguments(args))), Plain, None)
         == Some([Word(tool)] + Words(words) + Words(args))
       <==> forall a <- args :: Safe(a)
  {
    var rest := Spaced(Arguments(args));
    var before, last := ([tool] + words)[..|words|], ([tool] + words)[|words|];
    LexOrdinary(tool, Spaced(words) + rest, None);
    assert "" + tool == tool;
    LexSpaced(words, rest, tool);
    ArgumentsIff(args, last);
    AfterIff(Words(before), Lex(rest, Plain, Some(last)), [Word(last)] + Words(args));
    RunTokens(tool, words, args);
  }

  lemma RunTokens(tool: string, words: seq<string>, args: seq<string>)
    ensures Words(([tool] + words)[..|words|]) + ([Word(([tool] + words)[|words|])] + Words(args))
         == [Word(tool)] + Words(words) + Words(args)
  {
  }

  lemma ProfilesAreOrdinary(repo: Repo, verb: seq<string>)
    ensures forall x <- Profiles(repo, verb) :: OrdinaryWord(x)
  {
    LettersAreOrdinary("-p");
    LettersAreOrdinary("devdock");
    LettersAreOrdinary("devdock-cached-pull-secret");
  }

  /** A command after an assignment, when there is one. */
  lemma ConfiguredIff(name: string, overlay: Option<string>, run: string, tokens: seq<Token>)
    requires OrdinaryWord(name)
    ensures Lex(if overlay.Some? then name + (Quote(overlay.value) + (" " + run)) else run, Plain, None)
            == Some((if overlay.Some? then [Word(name + overlay.value)] else []) + tokens)
            <==> (overlay.Some? ==> NulFree(overlay.value)) && Lex(run, Plain, None) == Some(tokens)
  {
    assert [] + tokens == tokens;
    if overlay.Some? {
      LexAssigned(name, overlay.value, run, tokens);
    }
  }

  /** A word and a quoted value after it, as in `cd`, before `&&`. */
  lemma CdIff(tool: string, path: string, rest: string, tokens: seq<Token>)
    requires OrdinaryWord(tool)
    ensures Lex(tool + (" " + (Quote(path) + (" && " + rest))), Plain, None)
         == Some([Word(tool), Word(path), AndIf] + tokens)
       <==> NulFree(path) && Lex(rest, Plain, None) == Some(tokens)
  {
    var s := Quote(path) + (" && " + rest);
    LexWord(tool, s);
    assert "" + path == path;
    LexThen(path, rest, None, tokens);
    AfterIff([Word(tool)], Lex(s, Plain, None), [Word(path), AndIf] + tokens);
    assert [Word(tool)] + ([Word(path), AndIf] + tokens) == [Word(tool), Word(path), AndIf] + tokens;
  }

  /** An ordinary word and a space. */
  lemma LexWord(w: string, rest: string)
    requires OrdinaryWord(w)
    ensures Lex(w + (" " + rest), Plain, None) == After([Word(w)], Lex(rest, Plain, None))
  {
    LexOrdinary(w, " " + rest, None);
    LexBlank(rest, Some(w));
    assert "" + w == w;
  }

  lemma GluedThen(name: string, root: string, rest: string, tokens: seq<Token>)
    requires OrdinaryWord(name)
    ensures Lex(name + (Quote(root) + (" && " + rest)), Plain, None) == Some([Word(name + root), AndIf] + tokens)
       <==> NulFree(root) && Lex(rest, Plain, None) == Some(tokens)
  {
    LexOrdinary(name, Quote(root) + (" && " + rest), None);
    assert "" + name == name;
    LexThen(root, rest, Some(name), tokens);
  }

  /** The same for a value glued to a name, as in `export`. */
  lemma ExportIff(tool: string, name: string, root: string, rest: string, tokens: seq<Token>)
    requires OrdinaryWord(tool) && OrdinaryWord(name)
    ensures Lex(tool + (" " + (name + (Quote(root) + (" && " + rest)))), Plain, None)
         == Some([Word(tool), Word(name + root), AndIf] + tokens)
       <==> NulFree(root) && Lex(rest, Plain, None) == Some(tokens)
  {
    var s := name + (Quote(root) + (" && " + rest));
    LexWord(tool, s);
    GluedThen(name, root, rest, tokens);
    AfterIff([Word(tool)], Lex(s, Plain, None), [Word(name + root), AndIf] + tokens);
    assert [Word(tool)] + ([Word(name + root), AndIf] + tokens) == [Word(tool), Word(name + root), AndIf] + tokens;
  }

  /**
   * The shell reads a built command as the one that is meant if and only if
   * the repository is quotable: quoting never fails short of a NUL, and the
   * arguments left unquoted are ordinary text.
   */
  lemma CommandIff(repo: Repo, verb: seq<string>)
    requires forall x <- verb :: OrdinaryWord(x)
    ensures Lex(DevspaceCommand(repo, verb), Plain, None) == Some(Meant(repo, verb)) <==> Quotable(repo)
  {
    var words := verb + Profiles(repo, verb);
    ProfilesAreOrdinary(repo, verb);
    NamesAreOrdinary();
    RunIff("devspace", words, ArgsOf(repo));
    ConfiguredIff("DEVSPACE_CONFIG=", repo.overlay, Run(repo, verb), RunMeant(repo, verb));
    CdIff("cd", repo.path, Configured(repo, verb), ConfiguredMeant(repo, verb));
    if repo.root.Some? {
      ExportIff("export", "DEVSPACE_BINARY_DIR=", repo.root.value, InPath(repo, verb), InPathMeant(repo, verb));
    }
  }

  lemma NamesAreOrdinary()
    ensures OrdinaryWord("devspace") && OrdinaryWord("cd") && OrdinaryWord("export") && OrdinaryWord("-ilc")
    ensures OrdinaryWord("DEVSPACE_CONFIG=") && OrdinaryWord("DEVSPACE_BINARY_DIR=")
  {
    ToolsAreOrdinary();
    VariablesAreOrdinary();
  }

  lemma ToolsAreOrdinary()
    ensures OrdinaryWord("devspace") && OrdinaryWord("cd") && OrdinaryWord("export") && OrdinaryWord("-ilc")
  {
    LettersAreOrdinary("devspace");
    LettersAreOrdinary("cd");
    LettersAreOrdinary("export");
    LettersAreOrdinary("-ilc");
  }

  lemma VariablesAreOrdinary()
    ensures OrdinaryWord("DEVSPACE_CONFIG=") && OrdinaryWord("DEVSPACE_BINARY_DIR=")
  {
    LettersAreOrdinary("DEVSPACE_CONFIG=");
    LettersAreOrdinary("DEVSPACE_BINARY_DIR=");
  }

  lemma LettersAreOrdinary(s: string)
    requires forall c <- s :: 'a' <= c <= 'z' || 'A' <= c <= 'Z' || c == '_' || c == '=' || c == '-' || c == '.'
    ensures OrdinaryText(s) && NulFree(s)
  {
  }

  /** Which repositories have safe arguments, name by name. */
  ghost predicate SafeNames(repo: Repo) {
    && (forall v <- repo.varDefaults ::
          NulFree(v.0) && NulFree(v.1) && (StartsWith(v.0, "-") ==> OrdinaryText(v.0) && OrdinaryText(v.1)))
    && (repo.templateName.Some? ==> Safe(repo.name) && NulFree(repo.templateName.value))
    && (repo.namespace.Some? ==> Safe(repo.namespace.value))
  }

  lemma PairSafe(key: string, value: string)
    ensures Safe(key + "=" + value)
       <==> NulFree(key) && NulFree(value) && (StartsWith(key, "-") ==> OrdinaryText(key) && OrdinaryText(value))
  {
    var s := key + "=" + value;
    assert forall c :: c in s <==> c in key || c == '=' || c in value;
    assert StartsWith(s, "-") <==> StartsWith(key, "-") by {
      assert s[0] == if key == "" then '=' else key[0];
    }
    assert Ordinary('=');
  }

  lemma {:induction false} VarArgsSafe(vars: seq<(string, string)>)
    ensures (forall a <- VarArgs(vars) :: Safe(a))
       <==> forall v <- vars ::
              NulFree(v.0) && NulFree(v.1) && (StartsWith(v.0, "-") ==> OrdinaryText(v.0) && OrdinaryText(v.1))
  {
    if vars != [] {
      VarArgsSafe(vars[1..]);
      PairSafe(vars[0].0, vars[0].1);
      assert Safe("--var") by { assert OrdinaryText("--var"); }
      var pair := vars[0].0 + "=" + vars[0].1;
      assert VarArgs(vars) == ["--var", pair] + VarArgs(vars[1..]);
      assert forall a :: a in VarArgs(vars) <==> a == "--var" || a == pair || a in VarArgs(vars[1..]);
      assert vars == [vars[0]] + vars[1..];
    }
  }

  lemma SafeSum(a: seq<string>, b: seq<string>)
    ensures (forall x <- a + b :: Safe(x)) <==> (forall x <- a :: Safe(x)) && (forall x <- b :: Safe(x))
  {
    assert forall x :: x in a + b <==> x in a || x in b;
  }

  lemma TemplateArgsSafe(name: string, template: Option<string>)
    ensures (forall x <- TemplateArgs(name, template) :: Safe(x))
       <==> (template.Some? ==> Safe(name) && NulFree(template.value))
  {
    if template.Some? {
      FlagsAreSafe();
      PrefixedSafe("DEVSPACE_NAME=", template.value);
      PrefixedSafe("devspace.name=", template.value);
      var t := TemplateArgs(name, template);
      assert t[1] in t && t[3] in t;
    }
  }

  lemma FlagsAreSafe()
    ensures Safe("--var") && Safe("--override-name") && Safe("-n")
    ensures NulFree("DEVSPACE_NAME=") && NulFree("devspace.name=")
  {
    LettersAreOrdinary("--override-name");
    LettersAreOrdinary("DEVSPACE_NAME=");
    LettersAreOrdinary("devspace.name=");
  }

  lemma PrefixedSafe(prefix: string, value: string)
    requires prefix != "" && prefix[0] != '-' && NulFree(prefix)
    ensures Safe(prefix + value) <==> NulFree(value)
  {
    var s := prefix + value;
    assert s[0] == prefix[0];
    assert forall c :: c in s <==> c in prefix || c in value;
  }

  lemma NamespaceArgsSafe(namespace: Option<string>)
    ensures (forall x <- NamespaceArgs(namespace) :: Safe(x)) <==> (namespace.Some? ==> Safe(namespace.value))
  {
    FlagsAreSafe();
    if namespace.Some? { assert NamespaceArgs(namespace)[1] in NamespaceArgs(namespace); }
  }

  /** The program's own flags are safe, so only the names in the repository decide. */
  lemma ArgsSafeIff(repo: Repo)
    ensures (forall a <- ArgsOf(repo) :: Safe(a)) <==> SafeNames(repo)
  {
    var v, t, n := VarArgs(repo.varDefaults), TemplateArgs(repo.name, repo.templateName), NamespaceArgs(repo.namespace);
    VarArgsSafe(repo.varDefaults);
    TemplateArgsSafe(repo.name, repo.templateName);
    NamespaceArgsSafe(repo.namespace);
    assert ArgsOf(repo) == v + t + n;
    SafeSum(v + t, n);
    SafeSum(v, t);
  }

  /** Unsafe ones: an argument that begins with a dash and holds a space is read as two words. */
  lemma DashedArgumentSplits(a: string, b: string)
    requires StartsWith(a, "-") && OrdinaryText(a) && OrdinaryWord(b)
    ensures Lex(Argument(a + (" " + b)), Plain, None) == Some([Word(a), Word(b)])
  {
    assert Argument(a + (" " + b)) == a + (" " + b);
    LexOrdinary(a, " " + b, None);
    LexBlank(b, Some(a));
    LexOrdinary(b, "", None);
    assert "" + a == a && "" + b == b && b + "" == b;
    assert [Word(a)] + [Word(b)] == [Word(a), Word(b)];
  }

  // ---- Through a second shell ----

  /** What `start` hands to tmux: a login shell given the command as one argument. */
  function Inner(shell: string, cmd: string): string { shell + (" " + ("-ilc" + (" " + Quote(cmd)))) }

  /** No command line with a NUL in it is read. */
  lemma {:induction false} NulIsNotRead(s: string, mode: Mode, word: Option<string>)
    requires !NulFree(s)
    ensures Lex(s, mode, word) == None
    decreases |s|
  {
    if s[0] != NUL {
      var pending := Some(Pending(word));
      NulIsNotRead(s[1..], Plain, word);
      NulIsNotRead(s[1..], mode, Append(word, s[0]));
      NulIsNotRead(s[1..], SingleQuoted, pending);
      NulIsNotRead(s[1..], DoubleQuoted, pending);
      NulIsNotRead(s[1..], Plain, None);
      if s[1] != NUL {
        NulIsNotRead(s[2..], mode, word);
        NulIsNotRead(s[2..], mode, Append(word, s[1]));
        NulIsNotRead(s[2..], Plain, None);
      }
    }
  }

  /**
   * Through two shells: the first hands the login shell the command as one
   * word, and the login shell reads it as the one meant, if and only if the
   * repository is quotable.
   */
  lemma TwoShellsIff(repo: Repo, verb: seq<string>, shell: string)
    requires OrdinaryWord(shell) && forall x <- verb :: OrdinaryWord(x)
    ensures var cmd := DevspaceCommand(repo, verb);
            (Lex(Inner(shell, cmd), Plain, None) == Some([Word(shell), Word("-ilc"), Word(cmd)])
             && Lex(cmd, Plain, None) == Some(Meant(repo, verb)))
            <==> Quotable(repo)
  {
    var cmd := DevspaceCommand(repo, verb);
    CommandIff(repo, verb);
    NamesAreOrdinary();
    if NulFree(cmd) {
      InnerIsRead(shell, "-ilc", cmd);
    } else {
      NulIsNotRead(cmd, Plain, None);
    }
  }

  lemma InnerIsRead(shell: string, flag: string, cmd: string)
    requires OrdinaryWord(shell) && OrdinaryWord(flag) && NulFree(cmd)
    ensures Lex(shell + (" " + (flag + (" " + Quote(cmd)))), Plain, None) == Some([Word(shell), Word(flag), Word(cmd)])
  {
    LexWord(shell, flag + (" " + Quote(cmd)));
    LexWord(flag, Quote(cmd));
    QuoteRoundTrips(cmd);
    assert [Word(shell)] + ([Word(flag)] + [Word(cmd)]) == [Word(shell), Word(flag), Word(cmd)];
  }
}
