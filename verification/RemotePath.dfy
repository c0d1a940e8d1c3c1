/**
 What PATH the remote body sets (desktop/src-tauri/src/runner.rs:942-974): the
 double-quoted text it assigns, under parameter expansion as in sections 2.2.3 and
 2.6.2 of the Shell Command Language (POSIX.1-2017, XCU chapter 2). Only the forms
 `$NAME` and `${NAME:+word}` are expanded; anything else special is rejected.
 */
module RemotePath {
  import opened Options
  import opened RemoteScript

  type Variables = map<string, string>

  const OPENING_BRACE: char := 123 as char
  const CLOSING_BRACE: char := 125 as char

  function Value(vars: Variables, name: string): string {
    if name in vars then vars[name] else ""
  }

  /** The length of the longest name the text starts with. */
  function NameLength(s: string): (n: nat)
    ensures n <= |s|
  {
    if s != "" && NameChar(s[0]) then 1 + NameLength(s[1..]) else 0
  }

  /** The index of the first closing brace, or the length. */
  function Closing(s: string): (k: nat)
    ensures k <= |s| && (k < |s| ==> s[k] == CLOSING_BRACE)
    ensures forall i :: 0 <= i < k ==> s[i] != CLOSING_BRACE
  {
    if s == "" || s[0] == CLOSING_BRACE then 0 else 1 + Closing(s[1..])
  }

  function Concatenated(a: Option<string>, b: Option<string>): Option<string> {
    if a.Some? && b.Some? then Some(a.value + b.value) else None
  }

  /** Characters that stand for themselves inside double quotes. */
  predicate Literal(c: char) {
    c != '$' && c != '"' && c != '`' && c != '\\'
  }

  /** Text inside double quotes, expanded. */
  function Expand(s: string, vars: Variables): Option<string>
    decreases |s|
  {
    if s == "" then Some("")
    else if s[0] == '$' then
      if |s| > 1 && NameStart(s[1]) then
        var n := NameLength(s[1..]);
        Concatenated(Some(Value(vars, s[1..1 + n])), Expand(s[1 + n..], vars))
      else if |s| > 1 && s[1] == OPENING_BRACE then ExpandBraced(s[2..], vars)
      else None
    else if !Literal(s[0]) then None
    else Concatenated(Some([s[0]]), Expand(s[1..], vars))
  }

  /** The rest of `${NAME:+word}` after its `${`. */
  predicate WellBraced(s: string) {
    0 < NameLength(s) && NameLength(s) + 2 <= Closing(s) < |s| && NameStart(s[0]) && s[NameLength(s)..NameLength(s) + 2] == ":+"
  }

  function BracedName(s: string): string
    requires WellBraced(s)
  {
    s[..NameLength(s)]
  }

  function BracedWord(s: string): (word: string)
    requires WellBraced(s)
    ensures |word| < |s|
  {
    s[NameLength(s) + 2..Closing(s)]
  }

  function AfterBrace(s: string): (rest: string)
    requires WellBraced(s)
    ensures |rest| < |s|
  {
    s[Closing(s) + 1..]
  }

  /** The word if the parameter is set and not empty, else nothing. */
  function ExpandBraced(s: string, vars: Variables): Option<string>
    decreases |s|
  {
    if WellBraced(s) then
      Concatenated(if Value(vars, BracedName(s)) == "" then Some("") else Expand(BracedWord(s), vars),
                   Expand(AfterBrace(s), vars))
    else None
  }

  // ----- Expanding text piece by piece -----

  lemma {:induction false} LiteralExpands(text: string, rest: string, vars: Variables)
    requires forall c :: c in text ==> Literal(c)
    ensures Expand(text + rest, vars) == Concatenated(Some(text), Expand(rest, vars))
    decreases |text|
  {
    if text == "" {
      assert text + rest == rest;
      assert Expand(rest, vars).Some? ==> "" + Expand(rest, vars).value == Expand(rest, vars).value;
    } else {
      assert text == [text[0]] + text[1..];
      assert Literal(text[0]);
      LiteralExpands(text[1..], rest, vars);
      assert (text + rest)[1..] == text[1..] + rest;
      if Expand(rest, vars).Some? {
        assert [text[0]] + (text[1..] + Expand(rest, vars).value) == text + Expand(rest, vars).value;
      }
    }
  }

  lemma {:induction false} NameEnds(name: string, rest: string)
    requires forall c :: c in name ==> NameChar(c)
    requires rest == "" || !NameChar(rest[0])
    ensures NameLength(name + rest) == |name|
    decreases |name|
  {
    if name == "" {
      assert name + rest == rest;
    } else {
      assert name[0] in name;
      NameEnds(name[1..], rest);
      assert (name + rest)[1..] == name[1..] + rest;
    }
  }

  lemma {:induction false} BraceCloses(word: string, rest: string)
    requires CLOSING_BRACE !in word
    ensures Closing(word + [CLOSING_BRACE] + rest) == |word|
    decreases |word|
  {
    if word != "" {
      assert word[0] in word;
      BraceCloses(word[1..], rest);
      assert (word + [CLOSING_BRACE] + rest)[1..] == word[1..] + [CLOSING_BRACE] + rest;
    }
  }

  predicate IsName(name: string) {
    name != "" && NameStart(name[0]) && forall c :: c in name ==> NameChar(c)
  }

  lemma NameExpands(name: string, rest: string, vars: Variables)
    requires IsName(name) && (rest == "" || !NameChar(rest[0]))
    ensures Expand("$" + name + rest, vars) == Concatenated(Some(Value(vars, name)), Expand(rest, vars))
  {
    var s := "$" + name + rest;
    NameEnds(name, rest);
    assert s[1..] == name + rest;
    assert s[1..1 + |name|] == name;
    assert s[1 + |name|..] == rest;
  }

  lemma GuardSlices(name: string, word: string, rest: string)
    ensures var (s, n) := (name + ":+" + word + [CLOSING_BRACE] + rest, |name|);
            && |s| == n + 3 + |word| + |rest|
            && s == name + (":+" + word + [CLOSING_BRACE] + rest) && s == (name + ":+" + word) + [CLOSING_BRACE] + rest
            && s[..n] == name && s[n..n + 2] == ":+" && s[n + 2..n + 2 + |word|] == word && s[n + 3 + |word|..] == rest
  {
  }

  lemma NoBraceBefore(name: string, word: string)
    requires IsName(name) && CLOSING_BRACE !in word
    ensures CLOSING_BRACE !in name + ":+" + word
  {
    assert forall c :: c in name ==> NameChar(c);
  }

  lemma GuardCloses(name: string, word: string, rest: string)
    requires IsName(name) && CLOSING_BRACE !in word
    ensures NameLength(name + ":+" + word + [CLOSING_BRACE] + rest) == |name|
    ensures Closing(name + ":+" + word + [CLOSING_BRACE] + rest) == |name| + 2 + |word|
  {
    GuardSlices(name, word, rest);
    NameEnds(name, ":+" + word + [CLOSING_BRACE] + rest);
    NoBraceBefore(name, word);
    BraceCloses(name + ":+" + word, rest);
  }

  lemma GuardExpands(name: string, word: string, rest: string, vars: Variables)
    requires IsName(name) && CLOSING_BRACE !in word
    ensures ExpandBraced(name + ":+" + word + [CLOSING_BRACE] + rest, vars)
            == Concatenated(if Value(vars, name) == "" then Some("") else Expand(word, vars), Expand(rest, vars))
  {
    GuardParts(name, word, rest);
  }

  lemma GuardParts(name: string, word: string, rest: string)
    requires IsName(name) && CLOSING_BRACE !in word
    ensures var s := name + ":+" + word + [CLOSING_BRACE] + rest;
            WellBraced(s) && BracedName(s) == name && BracedWord(s) == word && AfterBrace(s) == rest
  {
    var s := name + ":+" + word + [CLOSING_BRACE] + rest;
    GuardSlices(name, word, rest);
    GuardCloses(name, word, rest);
    assert s[0] == s[..|name|][0];
  }

  // ----- The assigned PATH -----

  predicate PlainDir(dir: BinDir) {
    forall c :: c in (if dir.Home? then dir.rel else dir.path) ==> Literal(c)
  }

  function DirValue(dir: BinDir, home: string): string {
    if dir.Home? then home + "/" + dir.rel else dir.path
  }

  function DirValues(dirs: seq<BinDir>, home: string): string {
    if dirs == [] then ""
    else if |dirs| == 1 then DirValue(dirs[0], home)
    else DirValues(dirs[..|dirs| - 1], home) + ":" + DirValue(dirs[|dirs| - 1], home)
  }

  lemma HomeIsAName()
    ensures IsName("HOME") && IsName("PATH")
  {
  }

  lemma DirExpands(dir: BinDir, rest: string, vars: Variables)
    requires PlainDir(dir)
    ensures Expand(DirText(dir) + rest, vars) == Concatenated(Some(DirValue(dir, Value(vars, "HOME"))), Expand(rest, vars))
  {
    match dir
    case Abs(path) => LiteralExpands(path, rest, vars);
    case Home(rel) =>
      var tail := "/" + rel + rest;
      HomeIsAName();
      assert DirText(dir) + rest == "$" + "HOME" + tail;
      NameExpands("HOME", tail, vars);
      assert tail == ("/" + rel) + rest;
      LiteralExpands("/" + rel, rest, vars);
      JoinAssociates(Value(vars, "HOME"), "/" + rel, Expand(rest, vars));
      assert Value(vars, "HOME") + ("/" + rel) == DirValue(dir, Value(vars, "HOME"));
  }

  lemma JoinAssociates(a: string, b: string, rest: Option<string>)
    ensures Concatenated(Some(a), Concatenated(Some(b), rest)) == Concatenated(Some(a + b), rest)
  {
    if rest.Some? {
      assert a + (b + rest.value) == a + b + rest.value;
    }
  }

  lemma OneMoreDir(head: string, value: string, dir: BinDir, rest: string, vars: Variables)
    requires PlainDir(dir)
    requires var tail := ":" + (DirText(dir) + rest);
             Expand(head + tail, vars) == Concatenated(Some(value), Expand(tail, vars))
    ensures Expand((head + ":" + DirText(dir)) + rest, vars)
            == Concatenated(Some(value + ":" + DirValue(dir, Value(vars, "HOME"))), Expand(rest, vars))
  {
    var text, last := DirText(dir), DirValue(dir, Value(vars, "HOME"));
    ColonAssociates(head, text, rest);
    ColonAssociates(value, last, "");
    LiteralExpands(":", text + rest, vars);
    DirExpands(dir, rest, vars);
    JoinAssociates(":", last, Expand(rest, vars));
    JoinAssociates(value, ":" + last, Expand(rest, vars));
  }

  lemma ColonAssociates(a: string, b: string, rest: string)
    ensures (a + ":" + b) + rest == a + (":" + (b + rest))
    ensures a + (":" + b) == a + ":" + b
  {
  }

  lemma {:induction false} DirListExpands(dirs: seq<BinDir>, rest: string, vars: Variables)
    requires dirs != [] && forall dir :: dir in dirs ==> PlainDir(dir)
    ensures Expand(DirList(dirs) + rest, vars) == Concatenated(Some(DirValues(dirs, Value(vars, "HOME"))), Expand(rest, vars))
    decreases |dirs|
  {
    var n := |dirs| - 1;
    assert dirs[n] in dirs;
    if n == 0 {
      DirExpands(dirs[0], rest, vars);
    } else {
      DirListExpands(dirs[..n], ":" + (DirText(dirs[n]) + rest), vars);
      OneMoreDir(DirList(dirs[..n]), DirValues(dirs[..n], Value(vars, "HOME")), dirs[n], rest, vars);
    }
  }

  lemma InheritedExpands(name: string, vars: Variables)
    requires IsName(name)
    ensures Expand("$" + name + ":", vars) == Some(Value(vars, name) + ":")
  {
    NameExpands(name, ":", vars);
    LiteralExpands(":", "", vars);
    assert ":" + "" == ":";
  }

  function Inherited(path: string): string {
    if path == "" then "" else path + ":"
  }

  /** The guarded use of a parameter, as the script spells it for PATH. */
  function Guarded(name: string): string {
    "$" + [OPENING_BRACE] + name + ":+" + ("$" + name + ":") + [CLOSING_BRACE]
  }

  lemma GuardedExpands(name: string, rest: string, vars: Variables)
    requires IsName(name)
    ensures Expand(Guarded(name) + rest, vars) == Concatenated(Some(Inherited(Value(vars, name))), Expand(rest, vars))
  {
    var word, s := "$" + name + ":", Guarded(name) + rest;
    assert s[0] == '$' && s[1] == OPENING_BRACE;
    assert s[2..] == name + ":+" + word + [CLOSING_BRACE] + rest;
    NoBraceInName(name);
    GuardExpands(name, word, rest, vars);
    InheritedExpands(name, vars);
  }

  lemma NoBraceInName(name: string)
    requires IsName(name)
    ensures CLOSING_BRACE !in "$" + name + ":"
  {
    assert forall c :: c in name ==> NameChar(c);
  }

  /** The PATH assigned: an inherited PATH first, if it is not empty, then the
      directories under HOME or absolute. An empty PATH leaves no empty component in
      front. */
  lemma AssignedPath(dirs: seq<BinDir>, vars: Variables)
    requires dirs != [] && forall dir :: dir in dirs ==> PlainDir(dir)
    ensures Expand(PathText(dirs), vars)
            == Some(Inherited(Value(vars, "PATH")) + DirValues(dirs, Value(vars, "HOME")))
  {
    HomeIsAName();
    assert PATH_GUARD == Guarded("PATH");
    GuardedExpands("PATH", DirList(dirs), vars);
    DirListExpands(dirs, "", vars);
    assert DirList(dirs) + "" == DirList(dirs);
    assert DirValues(dirs, Value(vars, "HOME")) + "" == DirValues(dirs, Value(vars, "HOME"));
  }

  lemma PathTextIsLiteral(text: string)
    requires forall i :: 0 <= i < |text| ==> 'a' <= text[i] <= 'z' || text[i] == '.' || text[i] == '/'
    ensures forall c :: c in text ==> Literal(c)
  {
  }

  lemma BinDirsArePlain(dir: BinDir)
    requires dir in BIN_DIRS
    ensures PlainDir(dir)
  {
    PathTextIsLiteral(".cargo/bin");
    PathTextIsLiteral("/opt/homebrew/bin");
    PathTextIsLiteral("/usr/local/bin");
    PathTextIsLiteral(".local/bin");
  }

  lemma ShimDirsArePlain(dir: BinDir)
    requires dir in SHIM_DIRS
    ensures PlainDir(dir)
  {
  }

  lemma BodyDirsArePlain(dirs: seq<BinDir>)
    requires dirs == BIN_DIRS + SHIM_DIRS
    ensures forall dir :: dir in dirs ==> PlainDir(dir)
  {
    forall dir | dir in dirs
      ensures PlainDir(dir)
    {
      if dir in BIN_DIRS {
        BinDirsArePlain(dir);
      } else {
        ShimDirsArePlain(dir);
      }
    }
  }

  /** The body's own directories give a legal text, so what it assigns is that value for
      every PATH and HOME. */
  lemma BodyAssignsPath(dirs: seq<BinDir>, vars: Variables)
    requires dirs == BIN_DIRS + SHIM_DIRS
    ensures Expand(PathText(dirs), vars) == Some(Inherited(Value(vars, "PATH")) + DirValues(dirs, Value(vars, "HOME")))
  {
    BodyDirsArePlain(dirs);
    AssignedPath(dirs, vars);
  }

  // ----- Command lookup along the assigned PATH -----

  /** The entries of a PATH value, in search order; an empty value is one empty entry. */
  function Entries(path: string): (entries: seq<string>)
    ensures entries != []
  {
    if path == "" then [""] else Onto(path[0], Entries(path[1..]))
  }

  /** The entries once a character is put in front of the first. */
  function Onto(c: char, entries: seq<string>): (longer: seq<string>)
    requires entries != []
    ensures longer != []
  {
    if c == ':' then [""] + entries else [[c] + entries[0]] + entries[1..]
  }

  /** What the inherited PATH contributes: nothing at all if it is empty. */
  function InheritedEntries(path: string): seq<string> {
    if path == "" then [] else Entries(path)
  }

  /** What the directories contribute; one entry each, unless HOME holds a colon. */
  function DirEntries(dirs: seq<BinDir>, home: string): seq<string> {
    if dirs == [] then [] else DirEntries(dirs[..|dirs| - 1], home) + Entries(DirValue(dirs[|dirs| - 1], home))
  }

  /** The entry a command is run from, given the directories that hold it. */
  function FirstHolder(entries: seq<string>, holders: set<string>): Option<string> {
    if entries == [] then None
    else if entries[0] in holders then Some(entries[0])
    else FirstHolder(entries[1..], holders)
  }

  function OrElse(first: Option<string>, second: Option<string>): Option<string> {
    if first.Some? then first else second
  }

  lemma OntoTheFirst(c: char, first: seq<string>, rest: seq<string>)
    requires first != []
    ensures Onto(c, first + rest) == Onto(c, first) + rest
  {
  }

  lemma ColonStarts(entries: seq<string>)
    requires entries != []
    ensures Onto(':', entries) == [""] + entries
  {
  }

  lemma {:induction false} EntriesSplit(a: string, b: string)
    ensures Entries(a + ":" + b) == Entries(a) + Entries(b)
    decreases |a|
  {
    var whole := a + ":" + b;
    if a == "" {
      assert whole[0] == ':' && whole[1..] == b;
      ColonStarts(Entries(b));
    } else {
      EntriesSplit(a[1..], b);
      assert whole[0] == a[0] && whole[1..] == a[1..] + ":" + b;
      OntoTheFirst(a[0], Entries(a[1..]), Entries(b));
    }
  }

  lemma {:induction false} DirValuesSplit(dirs: seq<BinDir>, home: string)
    requires dirs != []
    ensures Entries(DirValues(dirs, home)) == DirEntries(dirs, home)
    decreases |dirs|
  {
    var n := |dirs| - 1;
    if n == 0 {
      assert dirs[..0] == [];
    } else {
      DirValuesSplit(dirs[..n], home);
      EntriesSplit(DirValues(dirs[..n], home), DirValue(dirs[n], home));
    }
  }

  lemma {:induction false} DirEntriesJoin(installed: seq<BinDir>, shims: seq<BinDir>, home: string)
    ensures DirEntries(installed + shims, home) == DirEntries(installed, home) + DirEntries(shims, home)
    decreases |shims|
  {
    if shims == [] {
      assert installed + shims == installed;
    } else {
      var n := |shims| - 1;
      DirEntriesJoin(installed, shims[..n], home);
      assert (installed + shims)[..|installed| + n] == installed + shims[..n];
      JoinThree(DirEntries(installed, home), DirEntries(shims[..n], home), Entries(DirValue(shims[n], home)));
    }
  }

  lemma JoinThree(a: seq<string>, b: seq<string>, c: seq<string>)
    ensures a + b + c == a + (b + c)
  {
  }

  lemma {:induction false} EarlierEntriesWin(a: seq<string>, b: seq<string>, holders: set<string>)
    ensures FirstHolder(a + b, holders) == OrElse(FirstHolder(a, holders), FirstHolder(b, holders))
    decreases |a|
  {
    if a == [] {
      assert a + b == b;
    } else {
      EarlierEntriesWin(a[1..], b, holders);
      assert (a + b)[1..] == a[1..] + b;
    }
  }

  lemma InheritedSplit(path: string, rest: string)
    ensures Entries(Inherited(path) + rest) == InheritedEntries(path) + Entries(rest)
  {
    if path == "" {
      assert Inherited(path) + rest == rest;
    } else {
      EntriesSplit(path, rest);
    }
  }

  /** The assigned value splits into the entries inherited, then those of the install
      directories, then those of the shims, whatever PATH and HOME hold. */
  lemma AssignedEntries(installed: seq<BinDir>, shims: seq<BinDir>, path: string, home: string)
    requires installed + shims != []
    ensures Entries(Inherited(path) + DirValues(installed + shims, home))
            == InheritedEntries(path) + DirEntries(installed, home) + DirEntries(shims, home)
  {
    var dirs := DirValues(installed + shims, home);
    DirValuesSplit(installed + shims, home);
    DirEntriesJoin(installed, shims, home);
    InheritedSplit(path, dirs);
    JoinThree(InheritedEntries(path), DirEntries(installed, home), DirEntries(shims, home));
  }

  /** Precedence on the remote, for every PATH, HOME and set of directories holding a
      command: it is run from the inherited PATH if that holds it, else from an install
      directory, and from a shim only if neither does. */
  lemma InheritedThenInstalledThenShims(dirs: seq<BinDir>, vars: Variables, holders: set<string>)
    requires dirs == BIN_DIRS + SHIM_DIRS
    ensures var home := Value(vars, "HOME");
            var expanded := Expand(PathText(dirs), vars);
            expanded.Some? && FirstHolder(Entries(expanded.value), holders)
                              == OrElse(FirstHolder(InheritedEntries(Value(vars, "PATH")), holders),
                                        OrElse(FirstHolder(DirEntries(BIN_DIRS, home), holders),
                                               FirstHolder(DirEntries(SHIM_DIRS, home), holders)))
  {
    var path, home := Value(vars, "PATH"), Value(vars, "HOME");
    var installed, shims := BIN_DIRS, SHIM_DIRS;
    BodyAssignsPath(dirs, vars);
    AssignedEntries(installed, shims, path, home);
    EarlierEntriesWin(InheritedEntries(path) + DirEntries(installed, home), DirEntries(shims, home), holders);
    EarlierEntriesWin(InheritedEntries(path), DirEntries(installed, home), holders);
  }

  // ----- What entries, lookup and an unset PATH are -----

  /** Texts joined by colons. */
  function JoinedByColons(entries: seq<string>): string {
    if entries == [] then ""
    else if |entries| == 1 then entries[0]
    else entries[0] + ":" + JoinedByColons(entries[1..])
  }

  lemma OntoJoins(c: char, entries: seq<string>)
    requires entries != []
    ensures JoinedByColons(Onto(c, entries)) == [c] + JoinedByColons(entries)
  {
    var longer := Onto(c, entries);
    if c == ':' {
      assert longer[1..] == entries;
    } else {
      assert longer[1..] == entries[1..] && longer[0] == [c] + entries[0];
      if |entries| > 1 {
        assert [c] + entries[0] + ":" + JoinedByColons(entries[1..]) == [c] + (entries[0] + ":" + JoinedByColons(entries[1..]));
      }
    }
  }

  /** The entries are the pieces between the colons: joined again they give the value
      back, and none holds one. */
  lemma {:induction false} EntriesAreThePieces(path: string)
    ensures JoinedByColons(Entries(path)) == path
    ensures forall entry :: entry in Entries(path) ==> ':' !in entry
    decreases |path|
  {
    if path != "" {
      EntriesAreThePieces(path[1..]);
      OntoJoins(path[0], Entries(path[1..]));
      var entries := Entries(path[1..]);
      assert path == [path[0]] + path[1..];
      assert entries[0] in entries;
    }
  }

  /** Lookup finds the first entry that holds the command, and none only if none does. */
  lemma {:induction false} FirstHolderIsFirst(entries: seq<string>, holders: set<string>)
    ensures match FirstHolder(entries, holders)
            case None => forall entry :: entry in entries ==> entry !in holders
            case Some(found) => found in holders && exists i :: 0 <= i < |entries| && entries[i] == found
                                                                && forall k :: 0 <= k < i ==> entries[k] !in holders
    decreases |entries|
  {
    if entries != [] && entries[0] !in holders {
      FirstHolderIsFirst(entries[1..], holders);
      var found := FirstHolder(entries[1..], holders);
      if found.Some? {
        var i :| 0 <= i < |entries[1..]| && entries[1..][i] == found.value
                 && forall k :: 0 <= k < i ==> entries[1..][k] !in holders;
        assert entries[i + 1] == found.value;
        assert forall k :: 0 < k < i + 1 ==> entries[k] == entries[1..][k - 1];
      }
    }
  }

  /** An unset PATH and an empty one are the same: the directories stand alone, and the
      lookup starts with the first of them. */
  lemma UnsetPathAddsNothing(dirs: seq<BinDir>, vars: Variables)
    requires dirs == BIN_DIRS + SHIM_DIRS && ("PATH" in vars ==> vars["PATH"] == "")
    ensures Expand(PathText(dirs), vars) == Some(DirValues(dirs, Value(vars, "HOME")))
    ensures InheritedEntries(Value(vars, "PATH")) == []
  {
    BodyAssignsPath(dirs, vars);
    assert "" + DirValues(dirs, Value(vars, "HOME")) == DirValues(dirs, Value(vars, "HOME"));
  }
}
