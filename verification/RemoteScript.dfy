/**
 The command line sent to a remote shell (desktop/src-tauri/src/runner.rs), and that
 the shell reads back exactly the words that went in.
 */
module RemoteScript {
  import opened Options
  import opened ShellTokens
  import opened Text

  datatype Variable = Variable(name: string, value: string)

  datatype Settings = Settings(binaryPath: Option<string>, env: seq<Variable>)

  // ----- Quoting -----

  /** Every quote closed, escaped and reopened. */
  function Escaped(value: string): string {
    if value == "" then "" else (if value[0] == '\'' then "'\\''" else [value[0]]) + Escaped(value[1..])
  }

  function ShellQuote(value: string): string {
    if value == "" then "''" else "'" + Escaped(value) + "'"
  }

  predicate NulFree(s: string) {
    '\0' !in s
  }

  lemma {:induction false} EscapedIsRead(value: string, rest: string, word: Word)
    requires NulFree(value)
    ensures InSingle(Escaped(value) + "'" + rest, word) == Unquoted(rest, Some(word + value))
    decreases |value|
  {
    var tail := Escaped(value) + "'" + rest;
    if value == "" {
      assert tail[1..] == rest;
      assert word + value == word;
    } else {
      var after := Escaped(value[1..]) + "'" + rest;
      EscapedIsRead(value[1..], rest, word + [value[0]]);
      assert (word + [value[0]]) + value[1..] == word + value;
      if value[0] == '\'' {
        assert tail == "'\\''" + after;
        EscapedQuoteIsRead(after, word);
      } else {
        assert tail == [value[0]] + after;
      }
    }
  }

  lemma EscapedQuoteIsRead(rest: string, word: Word)
    ensures InSingle("'\\''" + rest, word) == InSingle(rest, word + ['\''])
  {
    var s, a, b := "'\\''" + rest, "\\''" + rest, "'" + rest;
    assert s[0] == '\'' && s[1..] == a;
    assert a[0] == '\\' && a[1] == '\'' && a[2..] == b;
    assert b[0] == '\'' && b[1..] == rest;
    assert InSingle(s, word) == Unquoted(a, Some(word));
    assert Unquoted(a, Some(word)) == Unquoted(b, Some(word + ['\'']));
  }

  /** Quoting survives the shell: whatever follows, the value is appended to the
      word under way. */
  lemma QuotedIsRead(value: string, rest: string, word: Option<Word>)
    requires NulFree(value)
    ensures Unquoted(ShellQuote(value) + rest, word) == Unquoted(rest, Some(SoFar(word) + value))
  {
    var s := ShellQuote(value) + rest;
    assert s[1..] == Escaped(value) + "'" + rest;
    EscapedIsRead(value, rest, SoFar(word));
  }

  // ----- Plain words -----

  /** Characters that stand for themselves unquoted, anywhere in a word. */
  predicate Plain(c: char) {
    !Blank(c) && !Special(c) && c !in "'\"\\#"
  }

  lemma {:induction false} PlainIsRead(text: string, rest: string, word: Option<Word>)
    requires text != "" && forall c :: c in text ==> Plain(c)
    ensures Unquoted(text + rest, word) == Unquoted(rest, Some(SoFar(word) + text))
    decreases |text|
  {
    assert text == [text[0]] + text[1..];
    assert Plain(text[0]);
    assert (text + rest)[1..] == text[1..] + rest;
    var word' := SoFar(word) + [text[0]];
    if |text| > 1 {
      PlainIsRead(text[1..], rest, Some(word'));
      assert word' + text[1..] == SoFar(word) + text;
    } else {
      assert text[1..] + rest == rest;
      assert word' == SoFar(word) + text;
    }
  }

  // ----- Environment names -----

  predicate NameStart(c: char) {
    c == '_' || 'a' <= c <= 'z' || 'A' <= c <= 'Z'
  }

  predicate NameChar(c: char) {
    NameStart(c) || '0' <= c <= '9'
  }

  predicate ValidName(name: string) {
    name != "" && NameStart(name[0]) && forall c :: c in name[1..] ==> NameChar(c)
  }

  method IsValidName(name: string) returns (valid: bool)
    requires name != ""
    ensures valid <==> ValidName(name)
  {
    if !NameStart(name[0]) {
      return false;
    }
    for i := 1 to |name|
      invariant forall k :: 1 <= k < i ==> NameChar(name[k])
    {
      if !NameChar(name[i]) {
        assert name[i] == name[1..][i - 1];
        return false;
      }
    }
    return true;
  }

  function NameError(name: string): string {
    if name == "" then "Environment variable names cannot be empty" else "Invalid environment variable name: " + name
  }

  /** Reports the first bad name. */
  method ValidateCommandEnv(env: seq<Variable>) returns (bad: Option<string>)
    ensures bad.None? <==> forall v :: v in env ==> ValidName(Trim(v.name))
    ensures bad.Some? ==> exists i :: 0 <= i < |env| && !ValidName(Trim(env[i].name)) && bad.value == NameError(Trim(env[i].name))
                                      && forall k :: 0 <= k < i ==> ValidName(Trim(env[k].name))
    ensures bad.Some? ==> bad.value == "Environment variable names cannot be empty"
                          || exists v :: v in env && bad.value == "Invalid environment variable name: " + Trim(v.name)
  {
    for i := 0 to |env|
      invariant forall k :: 0 <= k < i ==> ValidName(Trim(env[k].name))
    {
      var name := Trim(env[i].name);
      if name == "" {
        return Some(NameError(name));
      }
      var valid := IsValidName(name);
      if !valid {
        return Some(NameError(name));
      }
    }
    return None;
  }

  // ----- The script -----

  // One blank-separated part of the command line.
  datatype Part = Bare(text: string) | Quoted(value: string) | Assignment(name: string, quoted: string)

  function Spelling(p: Part): string {
    match p
    case Bare(text) => text
    case Quoted(value) => ShellQuote(value)
    case Assignment(name, quoted) => name + "=" + ShellQuote(quoted)
  }

  /** The word a shell is meant to read. */
  function Meaning(p: Part): Word {
    match p
    case Bare(text) => text
    case Quoted(value) => value
    case Assignment(name, quoted) => name + "=" + quoted
  }

  predicate WellFormed(p: Part) {
    match p
    case Bare(text) => text != "" && forall c :: c in text ==> Plain(c)
    case Quoted(_) => true
    case Assignment(name, _) => ValidName(name)
  }

  function Joined(parts: seq<Part>): string {
    if parts == [] then ""
    else if |parts| == 1 then Spelling(parts[0])
    else Joined(parts[..|parts| - 1]) + " " + Spelling(parts[|parts| - 1])
  }

  function Meanings(parts: seq<Part>): seq<Word> {
    if parts == [] then [] else Meanings(parts[..|parts| - 1]) + [Meaning(parts[|parts| - 1])]
  }

  lemma NamesArePlain(name: string)
    requires ValidName(name)
    ensures forall c :: c in name + "=" ==> Plain(c)
  {
    assert name == [name[0]] + name[1..];
  }

  lemma PartIsRead(p: Part, rest: string)
    requires WellFormed(p) && NulFree(Meaning(p))
    ensures Unquoted(Spelling(p) + rest, None) == Unquoted(rest, Some(Meaning(p)))
  {
    match p
    case Bare(text) =>
      PlainIsRead(text, rest, None);
      assert "" + text == text;
    case Quoted(value) =>
      QuotedIsRead(value, rest, None);
      assert "" + value == value;
    case Assignment(name, value) =>
      NamesArePlain(name);
      PlainIsRead(name + "=", ShellQuote(value) + rest, None);
      assert Spelling(p) + rest == (name + "=") + (ShellQuote(value) + rest);
      assert "" + (name + "=") == name + "=";
      assert NulFree(value) by {
        assert forall c :: c in value ==> c in Meaning(p);
      }
      QuotedIsRead(value, rest, Some(name + "="));
  }

  function Prefixed(words: seq<Word>, rest: Option<seq<Word>>): Option<seq<Word>> {
    if rest.None? then None else Some(words + rest.value)
  }

  lemma LastPartIsRead(p: Part, rest: string)
    requires WellFormed(p) && NulFree(Meaning(p)) && (rest == "" || Blank(rest[0]))
    ensures Unquoted(Spelling(p) + rest, None) == Prefixed([Meaning(p)], Unquoted(rest, None))
  {
    PartIsRead(p, rest);
  }

  lemma LeadingBlankIsSkipped(s: string)
    ensures Unquoted(" " + s, None) == Unquoted(s, None)
  {
    assert (" " + s)[1..] == s;
  }

  lemma OneMorePart(head: string, words: seq<Word>, p: Part, rest: string)
    requires WellFormed(p) && NulFree(Meaning(p)) && (rest == "" || Blank(rest[0]))
    requires var tail := " " + (Spelling(p) + rest);
             Unquoted(head + tail, None) == Prefixed(words, Unquoted(tail, None))
    ensures Unquoted((head + " " + Spelling(p)) + rest, None) == Prefixed(words + [Meaning(p)], Unquoted(rest, None))
  {
    LastPartIsRead(p, rest);
    LeadingBlankIsSkipped(Spelling(p) + rest);
    BlankAssociates(head, Spelling(p), rest);
    PrefixedTwice(words, Meaning(p), Unquoted(rest, None));
  }

  lemma {:induction false} PartsAreRead(parts: seq<Part>, rest: string)
    requires parts != [] && forall p :: p in parts ==> WellFormed(p) && NulFree(Meaning(p))
    requires rest == "" || Blank(rest[0])
    ensures Unquoted(Joined(parts) + rest, None) == Prefixed(Meanings(parts), Unquoted(rest, None))
    decreases |parts|
  {
    var n := |parts| - 1;
    assert parts[n] in parts;
    if n == 0 {
      LastPartIsRead(parts[n], rest);
      assert parts[..0] == [] && [] + [Meaning(parts[0])] == [Meaning(parts[0])];
    } else {
      var before := parts[..n];
      PartsAreRead(before, " " + (Spelling(parts[n]) + rest));
      OneMorePart(Joined(before), Meanings(before), parts[n], rest);
    }
  }

  lemma BlankAssociates(a: string, b: string, rest: string)
    ensures (a + " " + b) + rest == a + (" " + (b + rest))
  {
  }

  lemma PrefixedTwice(words: seq<Word>, word: Word, rest: Option<seq<Word>>)
    ensures Prefixed(words, Prefixed([word], rest)) == Prefixed(words + [word], rest)
  {
    if rest.Some? {
      assert words + ([word] + rest.value) == words + [word] + rest.value;
    }
  }

  /** Reading a command line back gives exactly the words meant, provided none holds
      a NUL. */
  lemma ScriptIsRead(parts: seq<Part>)
    requires parts != [] && forall p :: p in parts ==> WellFormed(p) && NulFree(Meaning(p))
    ensures Tokenize(Joined(parts)) == Some(Meanings(parts))
  {
    PartsAreRead(parts, "");
    assert Joined(parts) + "" == Joined(parts);
    assert Unquoted("", None) == Some([]);
    assert Meanings(parts) + [] == Meanings(parts);
  }

  // ----- What is sent -----

  const COMMAND: seq<Part> := [Bare("exec"), Bare("sh"), Bare("-c")]

  function Assignments(env: seq<Variable>): seq<Part> {
    if env == [] then []
    else
      var n := |env| - 1;
      Assignments(env[..n]) + [Assignment(Trim(env[n].name), env[n].value)]
  }

  function QuotedAll(args: seq<string>): seq<Part> {
    if args == [] then [] else QuotedAll(args[..|args| - 1]) + [Quoted(args[|args| - 1])]
  }

  function Binary(settings: Settings): string {
    if settings.binaryPath.Some? && Trim(settings.binaryPath.value) != "" then Trim(settings.binaryPath.value) else "agentscan"
  }

  function Parts(settings: Settings, args: seq<string>, body: string): seq<Part> {
    COMMAND + [Quoted(body), Bare("sh")] + Assignments(settings.env) + [Quoted(Binary(settings))] + QuotedAll(args)
  }

  /** The words the remote shell is to run: `exec sh -c body sh`, one NAME=value for
      each variable, the binary, and the arguments. */
  function Words(settings: Settings, args: seq<string>, body: string): seq<Word> {
    ["exec", "sh", "-c", body, "sh"] + AssignedWords(settings.env) + [Binary(settings)] + args
  }

  function AssignedWords(env: seq<Variable>): seq<Word> {
    if env == [] then []
    else
      var n := |env| - 1;
      AssignedWords(env[..n]) + [Trim(env[n].name) + "=" + env[n].value]
  }

  predicate ValidNames(env: seq<Variable>) {
    forall v :: v in env ==> ValidName(Trim(v.name))
  }

  ghost predicate NoNuls(settings: Settings, args: seq<string>, body: string) {
    && NulFree(body) && NulFree(Binary(settings))
    && (forall v :: v in settings.env ==> NulFree(v.value))
    && (forall arg :: arg in args ==> NulFree(arg))
  }

  /** The names are checked first; what is then sent is read back by a POSIX shell as
      exactly the intended words, whatever the values, arguments and body contain,
      NULs excepted. */
  method RemoteAgentscanScriptWithBody(settings: Settings, args: seq<string>, body: string) returns (r: Result<string, string>)
    ensures r.Ok? <==> ValidNames(settings.env)
    ensures r.Ok? ==> Tokenize(r.value) == if NoNuls(settings, args, body) then Some(Words(settings, args, body)) else None
  {
    var bad := ValidateCommandEnv(settings.env);
    if bad.Some? {
      return Err(bad.value);
    }
    var texts := ["exec", "sh", "-c"] + [ShellQuote(body)] + ["sh"];
    texts := PushAssignments(texts, settings.env);
    texts := texts + [ShellQuote(Binary(settings))];
    texts := PushArguments(texts, args);
    SpelledParts(settings, args, body);
    JoinIsJoined(Parts(settings, args, body));
    RoundTrip(settings, args, body);
    return Ok(Join(texts));
  }

  method PushAssignments(before: seq<string>, env: seq<Variable>) returns (texts: seq<string>)
    ensures texts == before + Spellings(Assignments(env))
  {
    texts := before;
    for i := 0 to |env|
      invariant texts == before + Spellings(Assignments(env[..i]))
    {
      assert env[..i + 1][..i] == env[..i];
      SpellingsSnoc(Assignments(env[..i]), Assignment(Trim(env[i].name), env[i].value));
      texts := texts + [Trim(env[i].name) + "=" + ShellQuote(env[i].value)];
    }
    assert env[..|env|] == env;
  }

  method PushArguments(before: seq<string>, args: seq<string>) returns (texts: seq<string>)
    ensures texts == before + Spellings(QuotedAll(args))
  {
    texts := before;
    for i := 0 to |args|
      invariant texts == before + Spellings(QuotedAll(args[..i]))
    {
      assert args[..i + 1][..i] == args[..i];
      SpellingsSnoc(QuotedAll(args[..i]), Quoted(args[i]));
      texts := texts + [ShellQuote(args[i])];
    }
    assert args[..|args|] == args;
  }

  function Spellings(parts: seq<Part>): seq<string> {
    if parts == [] then [] else Spellings(parts[..|parts| - 1]) + [Spelling(parts[|parts| - 1])]
  }

  lemma SpellingsSnoc(parts: seq<Part>, p: Part)
    ensures Spellings(parts + [p]) == Spellings(parts) + [Spelling(p)]
  {
    assert (parts + [p])[..|parts|] == parts;
  }

  lemma {:induction false} SpellingsConcat(a: seq<Part>, b: seq<Part>)
    ensures Spellings(a + b) == Spellings(a) + Spellings(b)
    decreases |b|
  {
    if b == [] {
      assert a + b == a;
    } else {
      var n := |b| - 1;
      SpellingsConcat(a, b[..n]);
      assert a + b == (a + b[..n]) + [b[n]];
      SpellingsSnoc(a + b[..n], b[n]);
    }
  }

  lemma SpelledStart(body: string)
    ensures Spellings(COMMAND + [Quoted(body), Bare("sh")]) == ["exec", "sh", "-c"] + [ShellQuote(body)] + ["sh"]
  {
    SpellingsSnoc([], Bare("exec"));
    SpellingsSnoc([Bare("exec")], Bare("sh"));
    SpellingsSnoc([Bare("exec"), Bare("sh")], Bare("-c"));
    SpellingsSnoc(COMMAND, Quoted(body));
    SpellingsSnoc(COMMAND + [Quoted(body)], Bare("sh"));
    assert [] + [Bare("exec")] == [Bare("exec")];
    assert COMMAND + [Quoted(body)] + [Bare("sh")] == COMMAND + [Quoted(body), Bare("sh")];
  }

  lemma SpelledParts(settings: Settings, args: seq<string>, body: string)
    ensures Spellings(Parts(settings, args, body))
            == ["exec", "sh", "-c"] + [ShellQuote(body)] + ["sh"] + Spellings(Assignments(settings.env))
               + [ShellQuote(Binary(settings))] + Spellings(QuotedAll(args))
  {
    var start := COMMAND + [Quoted(body), Bare("sh")];
    SpelledStart(body);
    SpellingsConcat(start, Assignments(settings.env));
    SpellingsSnoc(start + Assignments(settings.env), Quoted(Binary(settings)));
    SpellingsConcat(start + Assignments(settings.env) + [Quoted(Binary(settings))], QuotedAll(args));
  }

  /** Texts joined by single blanks. */
  function Join(texts: seq<string>): string {
    if texts == [] then ""
    else if |texts| == 1 then texts[0]
    else Join(texts[..|texts| - 1]) + " " + texts[|texts| - 1]
  }

  lemma {:induction false} JoinIsJoined(parts: seq<Part>)
    ensures |Spellings(parts)| == |parts| && Join(Spellings(parts)) == Joined(parts)
    decreases |parts|
  {
    if parts != [] {
      var n := |parts| - 1;
      JoinIsJoined(parts[..n]);
      assert Spellings(parts)[..n] == Spellings(parts[..n]);
    }
  }

  // ----- The round trip -----

  lemma MeaningsSnoc(parts: seq<Part>, p: Part)
    ensures Meanings(parts + [p]) == Meanings(parts) + [Meaning(p)]
  {
    assert (parts + [p])[..|parts|] == parts;
  }

  lemma {:induction false} MeaningsConcat(a: seq<Part>, b: seq<Part>)
    ensures Meanings(a + b) == Meanings(a) + Meanings(b)
    decreases |b|
  {
    if b == [] {
      assert a + b == a;
    } else {
      var n := |b| - 1;
      MeaningsConcat(a, b[..n]);
      assert a + b == (a + b[..n]) + [b[n]];
      MeaningsSnoc(a + b[..n], b[n]);
    }
  }

  lemma {:induction false} AssignmentsMean(env: seq<Variable>)
    ensures Meanings(Assignments(env)) == AssignedWords(env)
    decreases |env|
  {
    if env != [] {
      var n := |env| - 1;
      AssignmentsMean(env[..n]);
      MeaningsSnoc(Assignments(env[..n]), Assignment(Trim(env[n].name), env[n].value));
    }
  }

  lemma {:induction false} ArgumentsMean(args: seq<string>)
    ensures Meanings(QuotedAll(args)) == args
    decreases |args|
  {
    if args != [] {
      var n := |args| - 1;
      ArgumentsMean(args[..n]);
      MeaningsSnoc(QuotedAll(args[..n]), Quoted(args[n]));
    }
  }

  lemma StartMeans(body: string)
    ensures Meanings(COMMAND + [Quoted(body), Bare("sh")]) == ["exec", "sh", "-c", body, "sh"]
  {
    MeaningsSnoc([], Bare("exec"));
    MeaningsSnoc([Bare("exec")], Bare("sh"));
    MeaningsSnoc([Bare("exec"), Bare("sh")], Bare("-c"));
    MeaningsSnoc(COMMAND, Quoted(body));
    MeaningsSnoc(COMMAND + [Quoted(body)], Bare("sh"));
    assert [] + [Bare("exec")] == [Bare("exec")];
    assert COMMAND + [Quoted(body)] + [Bare("sh")] == COMMAND + [Quoted(body), Bare("sh")];
  }

  lemma PartsMean(settings: Settings, args: seq<string>, body: string)
    ensures Meanings(Parts(settings, args, body)) == Words(settings, args, body)
  {
    var start := COMMAND + [Quoted(body), Bare("sh")];
    StartMeans(body);
    AssignmentsMean(settings.env);
    ArgumentsMean(args);
    MeaningsConcat(start, Assignments(settings.env));
    MeaningsSnoc(start + Assignments(settings.env), Quoted(Binary(settings)));
    MeaningsConcat(start + Assignments(settings.env) + [Quoted(Binary(settings))], QuotedAll(args));
  }

  lemma {:induction false} AssignmentMembers(env: seq<Variable>, p: Part)
    ensures p in Assignments(env) <==> exists v :: v in env && p == Assignment(Trim(v.name), v.value)
    decreases |env|
  {
    if env != [] {
      var n := |env| - 1;
      AssignmentMembers(env[..n], p);
      assert env == env[..n] + [env[n]];
    }
  }

  lemma {:induction false} ArgumentMembers(args: seq<string>, p: Part)
    ensures p in QuotedAll(args) <==> exists arg :: arg in args && p == Quoted(arg)
    decreases |args|
  {
    if args != [] {
      var n := |args| - 1;
      ArgumentMembers(args[..n], p);
      assert args == args[..n] + [args[n]];
    }
  }

  lemma LettersArePlain(text: string)
    requires text != "" && forall i :: 0 <= i < |text| ==> 'a' <= text[i] <= 'z' || text[i] == '-'
    ensures WellFormed(Bare(text)) && NulFree(text)
  {
  }

  lemma CommandIsPlain(p: Part)
    requires p in COMMAND + [Bare("sh")]
    ensures WellFormed(p) && NulFree(Meaning(p))
  {
    LettersArePlain("exec");
    LettersArePlain("sh");
    LettersArePlain("-c");
  }

  lemma PartsAreWellFormed(settings: Settings, args: seq<string>, body: string, p: Part)
    requires ValidNames(settings.env) && p in Parts(settings, args, body)
    ensures WellFormed(p) && (NoNuls(settings, args, body) ==> NulFree(Meaning(p)))
  {
    AssignmentMembers(settings.env, p);
    ArgumentMembers(args, p);
    if p in COMMAND + [Bare("sh")] {
      CommandIsPlain(p);
    } else if p in Assignments(settings.env) {
      var v :| v in settings.env && p == Assignment(Trim(v.name), v.value);
      NamesArePlain(Trim(v.name));
    }
  }

  lemma {:induction false} EscapedKeepsNul(value: string)
    requires !NulFree(value)
    ensures '\0' in Escaped(value)
    decreases |value|
  {
    if value[0] != '\0' {
      assert value == [value[0]] + value[1..];
      EscapedKeepsNul(value[1..]);
    }
  }

  lemma BlankJoinKeepsNul(a: string, b: string)
    requires !NulFree(a) || !NulFree(b)
    ensures !NulFree(a + " " + b)
  {
  }

  lemma {:induction false} JoinedKeepsNul(parts: seq<Part>, k: nat)
    requires k < |parts| && !NulFree(Spelling(parts[k]))
    ensures !NulFree(Joined(parts))
    decreases |parts|
  {
    var n := |parts| - 1;
    if n > 0 {
      var before := parts[..n];
      if k < n {
        assert before[k] == parts[k];
        JoinedKeepsNul(before, k);
      }
      BlankJoinKeepsNul(Joined(before), Spelling(parts[n]));
    }
  }

  lemma NulPart(settings: Settings, args: seq<string>, body: string) returns (p: Part)
    requires !NoNuls(settings, args, body)
    ensures p in Parts(settings, args, body) && '\0' in Spelling(p)
  {
    if !NulFree(body) {
      p := Quoted(body);
      EscapedKeepsNul(body);
    } else if !NulFree(Binary(settings)) {
      p := Quoted(Binary(settings));
      EscapedKeepsNul(Binary(settings));
    } else if v :| v in settings.env && !NulFree(v.value) {
      p := Assignment(Trim(v.name), v.value);
      AssignmentMembers(settings.env, p);
      EscapedKeepsNul(v.value);
    } else {
      var arg :| arg in args && !NulFree(arg);
      p := Quoted(arg);
      ArgumentMembers(args, p);
      EscapedKeepsNul(arg);
    }
  }

  lemma RoundTrip(settings: Settings, args: seq<string>, body: string)
    requires ValidNames(settings.env)
    ensures Tokenize(Joined(Parts(settings, args, body)))
            == if NoNuls(settings, args, body) then Some(Words(settings, args, body)) else None
  {
    var parts := Parts(settings, args, body);
    if NoNuls(settings, args, body) {
      forall p | p in parts
        ensures WellFormed(p) && NulFree(Meaning(p))
      {
        PartsAreWellFormed(settings, args, body, p);
      }
      ScriptIsRead(parts);
      PartsMean(settings, args, body);
    } else {
      var p := NulPart(settings, args, body);
      var k :| 0 <= k < |parts| && parts[k] == p;
      JoinedKeepsNul(parts, k);
      NulIsRejected(Joined(parts));
    }
  }

  // ----- The two bodies -----

  datatype BinDir = Home(rel: string) | Abs(path: string)

  const BIN_DIRS: seq<BinDir> := [Home(".cargo/bin"), Abs("/opt/homebrew/bin"), Abs("/usr/local/bin"), Home(".local/bin")]

  const SHIM_DIRS: seq<BinDir> := [Home(".local/share/mise/shims"), Home(".asdf/shims")]

  function DirText(dir: BinDir): string {
    if dir.Home? then "$HOME/" + dir.rel else dir.path
  }

  /** The directories separated by colons, in order. */
  function DirList(dirs: seq<BinDir>): string {
    if dirs == [] then ""
    else if |dirs| == 1 then DirText(dirs[0])
    else DirList(dirs[..|dirs| - 1]) + ":" + DirText(dirs[|dirs| - 1])
  }

  const PATH_GUARD := "${PATH:+$PATH:}"
  const PATH_END := "\"; export PATH; exec env \"$@\""

  /** The text assigned to PATH, inside double quotes. */
  function PathText(dirs: seq<BinDir>): string {
    PATH_GUARD + DirList(dirs)
  }

  function PathBody(dirs: seq<BinDir>): string {
    "PATH=\"" + PathText(dirs) + PATH_END
  }

  method RemotePathShScript() returns (body: string)
    ensures body == PathBody(BIN_DIRS + SHIM_DIRS)
  {
    var path := PushDirs("PATH=\"" + PATH_GUARD, BIN_DIRS + SHIM_DIRS);
    StartAssociates(PATH_GUARD, DirList(BIN_DIRS + SHIM_DIRS));
    body := path + PATH_END;
  }

  lemma StartAssociates(guard: string, list: string)
    ensures ("PATH=\"" + guard) + list == "PATH=\"" + (guard + list)
  {
  }

  method PushDirs(before: string, dirs: seq<BinDir>) returns (path: string)
    ensures path == before + DirList(dirs)
  {
    path := before;
    for i := 0 to |dirs|
      invariant path == before + DirList(dirs[..i])
    {
      assert dirs[..i + 1][..i] == dirs[..i];
      if i > 0 {
        path := path + ":";
      }
      match dirs[i]
      case Home(rel) =>
        path := path + "$HOME/";
        path := path + rel;
      case Abs(abs) => path := path + abs;
    }
    assert dirs[..|dirs|] == dirs;
  }

  const HOST_MARKER := "__AGENTSCAN_REMOTE_HOST__="
  const PROBE_END := "%s\\n' \"$(hostname 2>/dev/null)\"; "
  const HOST_PROBE := "printf '" + HOST_MARKER + PROBE_END

  function PreflightBody(): string {
    HOST_PROBE + PathBody(BIN_DIRS + SHIM_DIRS)
  }

  lemma {:induction false} DirsHaveNoNuls(dirs: seq<BinDir>)
    requires forall dir :: dir in dirs ==> NulFree(DirText(dir))
    ensures NulFree(DirList(dirs))
    decreases |dirs|
  {
    if dirs != [] {
      assert dirs[|dirs| - 1] in dirs;
      DirsHaveNoNuls(dirs[..|dirs| - 1]);
    }
  }

  lemma BinDirsHaveNoNuls(dir: BinDir)
    requires dir in BIN_DIRS
    ensures NulFree(DirText(dir))
  {
  }

  lemma ShimDirsHaveNoNuls(dir: BinDir)
    requires dir in SHIM_DIRS
    ensures NulFree(DirText(dir))
  {
  }

  lemma PathEndsHaveNoNuls()
    ensures NulFree("PATH=\"") && NulFree(PATH_GUARD) && NulFree(PATH_END)
  {
  }

  lemma MarkerHasNoNuls()
    ensures NulFree(HOST_MARKER)
  {
  }

  lemma ProbeEndHasNoNuls()
    ensures NulFree(PROBE_END)
  {
  }

  lemma ProbeHasNoNuls()
    ensures NulFree(HOST_PROBE)
  {
    MarkerHasNoNuls();
    ProbeEndHasNoNuls();
    ConcatHasNoNuls("printf '", HOST_MARKER);
    ConcatHasNoNuls("printf '" + HOST_MARKER, PROBE_END);
  }

  lemma PathBodyHasNoNuls()
    ensures NulFree(PathBody(BIN_DIRS + SHIM_DIRS))
  {
    forall dir | dir in BIN_DIRS + SHIM_DIRS
      ensures NulFree(DirText(dir))
    {
      if dir in BIN_DIRS {
        BinDirsHaveNoNuls(dir);
      } else {
        ShimDirsHaveNoNuls(dir);
      }
    }
    var dirs := BIN_DIRS + SHIM_DIRS;
    DirsHaveNoNuls(dirs);
    PathEndsHaveNoNuls();
    ConcatHasNoNuls(PATH_GUARD, DirList(dirs));
    ConcatHasNoNuls("PATH=\"", PathText(dirs));
    ConcatHasNoNuls("PATH=\"" + PathText(dirs), PATH_END);
  }

  lemma ConcatHasNoNuls(a: string, b: string)
    requires NulFree(a) && NulFree(b)
    ensures NulFree(a + b)
  {
  }

  /** Neither body holds a NUL, so the shell reads both back as they are. */
  lemma BothBodiesAreRead(settings: Settings, args: seq<string>, body: string)
    requires body in {PathBody(BIN_DIRS + SHIM_DIRS), PreflightBody()}
    requires ValidNames(settings.env) && NoNuls(settings, args, "")
    ensures Tokenize(Joined(Parts(settings, args, body))) == Some(Words(settings, args, body))
  {
    PathBodyHasNoNuls();
    ProbeHasNoNuls();
    ConcatHasNoNuls(HOST_PROBE, PathBody(BIN_DIRS + SHIM_DIRS));
    RoundTrip(settings, args, body);
  }
}
