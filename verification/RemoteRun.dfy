/**
 What the remote host runs in the end (desktop/src-tauri/src/runner.rs:897-1030): the
 login shell reads the script, the inner `sh` carries out its body, and `env` starts the
 command. Of the Shell Command Language (POSIX.1-2017, XCU chapter 2) only what the
 bodies use is carried out: an assignment of a double-quoted text, `export`, the line
 that prints the host name, and `exec env "$@"`.
 */
module RemoteRun {
  import opened Options
  import opened Text
  import opened ShellTokens
  import opened RemoteScript
  import opened RemotePath

  // A process started: its command, arguments and environment.
  datatype Process = Process(command: string, args: seq<string>, environment: Variables)

  const EXPORT := "export "
  const NEXT := "; "
  const EXEC_ENV := "exec env \"$@\""

  /** The variables a child process gets. */
  function Exported(vars: Variables, exported: set<string>): Variables {
    map name | name in vars && name in exported :: vars[name]
  }

  /** The index of the first such character, or the length. */
  function IndexOfChar(s: string, c: char): (i: nat)
    ensures i <= |s| && (i < |s| ==> s[i] == c)
    ensures forall k :: 0 <= k < i ==> s[k] != c
  {
    if s == "" || s[0] == c then 0 else 1 + IndexOfChar(s[1..], c)
  }

  predicate StartsWith(s: string, start: string) {
    |start| <= |s| && s[..|start|] == start
  }

  /** `env`: leading operands with an equals sign are assignments, the next one is the
      command. */
  function StartedByEnv(words: seq<string>, environment: Variables): Option<Process> {
    if words == [] then None
    else
      var i := IndexOfChar(words[0], '=');
      if i < |words[0]| then StartedByEnv(words[1..], environment[words[0][..i] := words[0][i + 1..]])
      else Some(Process(words[0], words[1..], environment))
  }

  /** Options of `env` come first, and are not modelled. */
  function RunEnv(words: seq<string>, environment: Variables): Option<Process> {
    if words != [] && StartsWith(words[0], "-") then None else StartedByEnv(words, environment)
  }

  /** The body, carried out by `sh` with these variables and positional parameters. */
  function RunBody(s: string, vars: Variables, exported: set<string>, words: seq<string>): Option<Process>
    decreases |s|
  {
    var n := NameLength(s);
    if s == EXEC_ENV then RunEnv(words, Exported(vars, exported))
    else if StartsWith(s, HOST_PROBE) then RunBody(s[|HOST_PROBE|..], vars, exported, words)
    else if StartsWith(s, EXPORT) then
      var m := NameLength(s[7..]);
      if m > 0 && StartsWith(s[7 + m..], NEXT) then RunBody(s[9 + m..], vars, exported + {s[7..7 + m]}, words) else None
    else if n > 0 && NameStart(s[0]) && StartsWith(s[n..], "=\"") then
      var rest := s[n + 2..];
      var k := IndexOfChar(rest, '"');
      if k < |rest| && StartsWith(rest[k + 1..], NEXT) && Expand(rest[..k], vars).Some? then
        RunBody(rest[k + 3..], vars[s[..n] := Expand(rest[..k], vars).value], exported, words)
      else None
    else None
  }

  /** The command line the login shell is given. */
  function RunScript(script: string, vars: Variables, exported: set<string>): Option<Process> {
    match Tokenize(script)
    case None => None
    case Some(words) =>
      if |words| >= 5 && words[..3] == ["exec", "sh", "-c"] then RunBody(words[3], vars, exported, words[5..]) else None
  }

  // ----- Reading the body -----

  lemma {:induction false} CharAt(a: string, c: char, b: string)
    requires c !in a
    ensures IndexOfChar(a + [c] + b, c) == |a|
    decreases |a|
  {
    if a != "" {
      assert a[0] in a;
      CharAt(a[1..], c, b);
      assert (a + [c] + b)[1..] == a[1..] + [c] + b;
    }
  }

  lemma {:induction false} CharAbsent(a: string, c: char)
    requires c !in a
    ensures IndexOfChar(a, c) == |a|
    decreases |a|
  {
    if a != "" {
      assert a[0] in a;
      CharAbsent(a[1..], c);
    }
  }

  lemma DirHasNoQuote(dir: BinDir)
    requires PlainDir(dir)
    ensures '"' !in DirText(dir)
  {
    var text := if dir.Home? then dir.rel else dir.path;
    assert '"' in text ==> Literal('"');
    assert '"' !in text;
  }

  lemma {:induction false} DirListHasNoQuote(dirs: seq<BinDir>)
    requires forall dir :: dir in dirs ==> PlainDir(dir)
    ensures '"' !in DirList(dirs)
    decreases |dirs|
  {
    if dirs != [] {
      var n := |dirs| - 1;
      assert dirs[n] in dirs;
      DirHasNoQuote(dirs[n]);
      DirListHasNoQuote(dirs[..n]);
    }
  }

  lemma ExecRuns(vars: Variables, exported: set<string>, words: seq<string>)
    ensures RunBody(EXEC_ENV, vars, exported, words) == RunEnv(words, Exported(vars, exported))
  {
  }

  lemma ExportRuns(name: string, rest: string, vars: Variables, exported: set<string>, words: seq<string>)
    requires IsName(name)
    ensures RunBody(EXPORT + name + NEXT + rest, vars, exported, words) == RunBody(rest, vars, exported + {name}, words)
  {
    var s := EXPORT + name + NEXT + rest;
    assert s[7..] == name + (NEXT + rest);
    NameEnds(name, NEXT + rest);
    assert s[..7] == EXPORT && s[0] == 'e' && s[2] == 'p';
    assert s[7..7 + |name|] == name;
    assert s[7 + |name|..] == NEXT + rest && (NEXT + rest)[..2] == NEXT;
    assert s[9 + |name|..] == rest;
    assert EXEC_ENV[2] == 'e' && HOST_PROBE[0] == 'p';
  }

  lemma AssignmentSlices(name: string, text: string, rest: string)
    ensures var s := name + "=\"" + text + "\"" + NEXT + rest;
            var tail := text + "\"" + (NEXT + rest);
            && s == name + ("=\"" + tail) && s[..|name|] == name
            && s[|name|..] == "=\"" + tail && s[|name| + 2..] == tail
            && tail[..|text|] == text && tail[|text| + 1..] == NEXT + rest && tail[|text| + 3..] == rest
  {
  }

  lemma TakesAssignment(s: string, n: nat, k: nat, text: string, rest: string,
                        vars: Variables, exported: set<string>, words: seq<string>)
    requires s != "" && s[0] == 'P' && NameLength(s) == n > 0 && StartsWith(s[n..], "=\"")
    requires var tail := s[n + 2..];
             IndexOfChar(tail, '"') == k < |tail| && StartsWith(tail[k + 1..], NEXT) && tail[..k] == text && tail[k + 3..] == rest
    requires Expand(text, vars).Some?
    ensures RunBody(s, vars, exported, words) == RunBody(rest, vars[s[..n] := Expand(text, vars).value], exported, words)
  {
    assert EXEC_ENV[0] == 'e' && HOST_PROBE[..1] == "p" && EXPORT[0] == 'e';
    assert HOST_PROBE[0] == 'p';
    assert !StartsWith(s, HOST_PROBE) && !StartsWith(s, EXPORT);
  }

  lemma PathIsAssigned(text: string, rest: string, vars: Variables, exported: set<string>, words: seq<string>)
    requires '"' !in text && Expand(text, vars).Some?
    ensures RunBody("PATH" + "=\"" + text + "\"" + NEXT + rest, vars, exported, words)
            == RunBody(rest, vars["PATH" := Expand(text, vars).value], exported, words)
  {
    var s := "PATH" + "=\"" + text + "\"" + NEXT + rest;
    var tail := text + "\"" + (NEXT + rest);
    AssignmentSlices("PATH", text, rest);
    HomeIsAName();
    NameEnds("PATH", "=\"" + tail);
    CharAt(text, '"', NEXT + rest);
    assert ("=\"" + tail)[..2] == "=\"" && (NEXT + rest)[..2] == NEXT;
    TakesAssignment(s, 4, |text|, text, rest, vars, exported, words);
  }

  /** The shared body puts the new PATH into the environment and has `env` start the
      positional parameters. */
  lemma PathBodyRuns(dirs: seq<BinDir>, vars: Variables, exported: set<string>, words: seq<string>)
    requires dirs == BIN_DIRS + SHIM_DIRS
    ensures var path := Inherited(Value(vars, "PATH")) + DirValues(dirs, Value(vars, "HOME"));
            RunBody(PathBody(dirs), vars, exported, words)
            == RunEnv(words, Exported(vars["PATH" := path], exported + {"PATH"}))
  {
    var text := PathText(dirs);
    BodyDirsArePlain(dirs);
    DirListHasNoQuote(dirs);
    assert '"' !in PATH_GUARD;
    BodyAssignsPath(dirs, vars);
    var path := Expand(text, vars).value;
    var rest := EXPORT + "PATH" + NEXT + EXEC_ENV;
    BodySpelling(text);
    PathIsAssigned(text, rest, vars, exported, words);
    HomeIsAName();
    ExportRuns("PATH", EXEC_ENV, vars["PATH" := path], exported, words);
    ExecRuns(vars["PATH" := path], exported + {"PATH"}, words);
  }

  lemma BodySpelling(text: string)
    ensures "PATH=\"" + text + PATH_END == "PATH" + "=\"" + text + "\"" + NEXT + (EXPORT + "PATH" + NEXT + EXEC_ENV)
  {
    assert PATH_END == "\"" + NEXT + (EXPORT + "PATH" + NEXT + EXEC_ENV);
  }

  /** The preflight's body prints the host name and does the same. */
  lemma PreflightBodyRuns(vars: Variables, exported: set<string>, words: seq<string>)
    ensures RunBody(PreflightBody(), vars, exported, words) == RunBody(PathBody(BIN_DIRS + SHIM_DIRS), vars, exported, words)
  {
    var rest := PathBody(BIN_DIRS + SHIM_DIRS);
    ProbeIsSkipped(rest, vars, exported, words);
  }

  lemma ProbeIsSkipped(rest: string, vars: Variables, exported: set<string>, words: seq<string>)
    ensures RunBody(HOST_PROBE + rest, vars, exported, words) == RunBody(rest, vars, exported, words)
  {
    var s := HOST_PROBE + rest;
    assert s[..|HOST_PROBE|] == HOST_PROBE && s[|HOST_PROBE|..] == rest;
    assert HOST_PROBE[0] == 'p' && EXEC_ENV[0] == 'e';
    assert s[0] == 'p';
  }

  // ----- Starting the command -----

  /** The environment with each variable set, later ones over earlier ones. */
  function Overlaid(environment: Variables, env: seq<Variable>): Variables
    decreases |env|
  {
    if env == [] then environment
    else Overlaid(environment[Trim(env[0].name) := env[0].value], env[1..])
  }

  /** A later variable goes over the earlier ones, and changes its own name only. */
  lemma {:induction false} LaterVariablesWin(environment: Variables, env: seq<Variable>, v: Variable)
    ensures Overlaid(environment, env + [v]) == Overlaid(environment, env)[Trim(v.name) := v.value]
    decreases |env|
  {
    if env == [] {
      assert [] + [v] == [v] && [v][1..] == [];
    } else {
      LaterVariablesWin(environment[Trim(env[0].name) := env[0].value], env[1..], v);
      assert (env + [v])[1..] == env[1..] + [v];
    }
  }

  lemma NameHasNoEquals(name: string)
    requires ValidName(name)
    ensures '=' !in name && name[0] != '-'
  {
    assert name == [name[0]] + name[1..];
  }

  lemma AssignedFromTheFront(env: seq<Variable>)
    requires env != []
    ensures AssignedWords(env) == [Trim(env[0].name) + "=" + env[0].value] + AssignedWords(env[1..])
    decreases |env|
  {
    var n := |env| - 1;
    if n == 0 {
      assert env[..0] == [] && env[1..] == [];
    } else {
      AssignedFromTheFront(env[..n]);
      assert env[..n][1..] == env[1..][..n - 1] && env[1..][n - 1] == env[n];
    }
  }

  lemma OneAssignment(name: string, value: string, rest: seq<string>, environment: Variables)
    requires '=' !in name
    ensures StartedByEnv([name + "=" + value] + rest, environment) == StartedByEnv(rest, environment[name := value])
  {
    var first := name + "=" + value;
    CharAt(name, '=', value);
    assert first[..|name|] == name && first[|name| + 1..] == value;
    assert ([first] + rest)[1..] == rest;
  }

  lemma {:induction false} EnvAssigns(env: seq<Variable>, words: seq<string>, environment: Variables)
    requires ValidNames(env)
    ensures StartedByEnv(AssignedWords(env) + words, environment) == StartedByEnv(words, Overlaid(environment, env))
    decreases |env|
  {
    if env == [] {
      assert [] + words == words;
    } else {
      var name, value := Trim(env[0].name), env[0].value;
      AssignedFromTheFront(env);
      NameHasNoEquals(name);
      OneAssignment(name, value, AssignedWords(env[1..]) + words, environment);
      assert AssignedWords(env) + words == [name + "=" + value] + (AssignedWords(env[1..]) + words);
      EnvAssigns(env[1..], words, environment[name := value]);
    }
  }

  lemma {:induction false} StartedTakesFewer(words: seq<string>, environment: Variables)
    ensures StartedByEnv(words, environment).Some? ==> |StartedByEnv(words, environment).value.args| < |words|
    decreases |words|
  {
    if words != [] {
      var i := IndexOfChar(words[0], '=');
      if i < |words[0]| {
        StartedTakesFewer(words[1..], environment[words[0][..i] := words[0][i + 1..]]);
      }
    }
  }

  /** `env` can take this for a command. */
  predicate IsCommand(settings: Settings, binary: string) {
    '=' !in binary && (settings.env == [] ==> !StartsWith(binary, "-"))
  }

  lemma CommandStarts(binary: string, args: seq<string>, environment: Variables)
    ensures var started := StartedByEnv([binary] + args, environment);
            if '=' !in binary then started == Some(Process(binary, args, environment))
            else started.Some? ==> |started.value.args| < |args|
  {
    var words := [binary] + args;
    assert words[0] == binary && words[1..] == args;
    if '=' in binary {
      EqualsIsFound(binary);
      var i := IndexOfChar(binary, '=');
      StartedTakesFewer(args, environment[binary[..i] := binary[i + 1..]]);
    } else {
      CharAbsent(binary, '=');
    }
  }

  lemma FirstOperand(env: seq<Variable>, binary: string, args: seq<string>)
    requires ValidNames(env)
    ensures var words := AssignedWords(env) + ([binary] + args);
            words != [] && (StartsWith(words[0], "-") <==> env == [] && StartsWith(binary, "-"))
  {
    if env != [] {
      AssignedFromTheFront(env);
      NameHasNoEquals(Trim(env[0].name));
      var word := Trim(env[0].name) + "=" + env[0].value;
      assert word[0] == Trim(env[0].name)[0] && word[..1] == [word[0]];
    }
  }

  lemma EnvStarts(settings: Settings, args: seq<string>, environment: Variables)
    requires ValidNames(settings.env)
    ensures var words := AssignedWords(settings.env) + [Binary(settings)] + args;
            if IsCommand(settings, Binary(settings)) then
              RunEnv(words, environment) == Some(Process(Binary(settings), args, Overlaid(environment, settings.env)))
            else RunEnv(words, environment).Some? ==> |RunEnv(words, environment).value.args| < |args|
  {
    var env, binary := settings.env, Binary(settings);
    assert AssignedWords(env) + [binary] + args == AssignedWords(env) + ([binary] + args);
    EnvAssigns(env, [binary] + args, environment);
    CommandStarts(binary, args, Overlaid(environment, env));
    FirstOperand(env, binary, args);
  }

  lemma EqualsIsFound(s: string)
    requires '=' in s
    ensures IndexOfChar(s, '=') < |s|
  {
  }

  // ----- From settings to process -----

  /** The path configured, without the spaces around it, or the bare name if there is
      none. */
  predicate IsBinary(settings: Settings, binary: string) {
    if settings.binaryPath.Some? && !AllSpace(settings.binaryPath.value) then binary == Trim(settings.binaryPath.value)
    else binary == "agentscan"
  }

  lemma BinaryIs(settings: Settings)
    ensures IsBinary(settings, Binary(settings))
  {
    if settings.binaryPath.Some? {
      var front, back := TrimCuts(settings.binaryPath.value);
      if Trim(settings.binaryPath.value) != "" {
        assert Trim(settings.binaryPath.value)[0] in settings.binaryPath.value;
      }
    }
  }

  /** The environment the remote command gets: what the login shell exports, the new
      PATH, and over both the variables of the profile. */
  function RemoteEnvironment(settings: Settings, vars: Variables, exported: set<string>): Variables {
    Overlaid(PathEnvironment(vars, exported), settings.env)
  }

  /** Whatever the values, the arguments and the remote's own variables are: a script that
      a POSIX shell reads as the intended words, with either body, starts the configured
      binary with exactly the arguments and that environment; if and only if `env` can
      take the binary for a command, which it cannot with an equals sign in its path, or
      with a leading dash and no variables. */
  lemma RemoteCommandIsRun(settings: Settings, args: seq<string>, body: string, script: string,
                           vars: Variables, exported: set<string>)
    requires ValidNames(settings.env) && body in {PathBody(BIN_DIRS + SHIM_DIRS), PreflightBody()}
    requires Tokenize(script) == Some(Words(settings, args, body))
    ensures exists binary :: IsBinary(settings, binary)
                             && (IsCommand(settings, binary) <==>
                                 RunScript(script, vars, exported)
                                 == Some(Process(binary, args, RemoteEnvironment(settings, vars, exported))))
  {
    var params := AssignedWords(settings.env) + [Binary(settings)] + args;
    BinaryIs(settings);
    BodyIsRun(settings, args, body, script, vars, exported);
    BothBodiesRun(body, vars, exported, params);
    EnvStarts(settings, args, PathEnvironment(vars, exported));
  }

  function PathEnvironment(vars: Variables, exported: set<string>): Variables {
    var path := Inherited(Value(vars, "PATH")) + DirValues(BIN_DIRS + SHIM_DIRS, Value(vars, "HOME"));
    Exported(vars["PATH" := path], exported + {"PATH"})
  }

  lemma BothBodiesRun(body: string, vars: Variables, exported: set<string>, words: seq<string>)
    requires body in {PathBody(BIN_DIRS + SHIM_DIRS), PreflightBody()}
    ensures RunBody(body, vars, exported, words) == RunEnv(words, PathEnvironment(vars, exported))
  {
    var dirs := BIN_DIRS + SHIM_DIRS;
    PreflightBodyRuns(vars, exported, words);
    PathBodyRuns(dirs, vars, exported, words);
  }

  lemma BodyIsRun(settings: Settings, args: seq<string>, body: string, script: string,
                  vars: Variables, exported: set<string>)
    requires Tokenize(script) == Some(Words(settings, args, body))
    ensures RunScript(script, vars, exported)
            == RunBody(body, vars, exported, AssignedWords(settings.env) + [Binary(settings)] + args)
  {
    var words := Words(settings, args, body);
    var params := AssignedWords(settings.env) + [Binary(settings)] + args;
    assert words == ["exec", "sh", "-c", body, "sh"] + params;
    assert words[..3] == ["exec", "sh", "-c"] && words[3] == body && words[5..] == params;
  }
}
