/**
 Which workspace a pane belongs to (src/app/picker.rs:303-312, 385-540), told from the
 pane's own fields and the filesystem.
 */
module WorkspaceMeaning {
  import opened Options
  import opened PickerWorkspace
  import opened Text

  // ----- Paths -----

  predicate AllSlashes(s: Path) {
    forall c :: c in s ==> c == '/'
  }

  lemma {:induction false} StripSlashesCuts(s: Path) returns (tail: Path)
    ensures AllSlashes(tail) && s == StripSlashes(s) + tail
    decreases |s|
  {
    if s != "" && s[|s| - 1] == '/' {
      var rest := StripSlashesCuts(s[..|s| - 1]);
      tail := rest + "/";
    } else {
      tail := "";
    }
  }

  lemma {:induction false} NoTrailingSlash(body: Path, tail: Path)
    requires AllSlashes(tail) && (body == "" || body[|body| - 1] != '/')
    ensures StripSlashes(body + tail) == body
    decreases |tail|
  {
    if tail == "" {
      assert body + tail == body;
    } else {
      var n := |tail| - 1;
      assert tail[n] in tail;
      assert tail == tail[..n] + [tail[n]];
      assert (body + tail)[..|body| + n] == body + tail[..n];
      forall c | c in tail[..n]
        ensures c == '/'
      {
        assert c in tail;
      }
      NoTrailingSlash(body, tail[..n]);
    }
  }

  predicate IsComponent(name: string) {
    name != "" && '/' !in name
  }

  /** The path ends where a component may follow. */
  predicate TakesComponent(dir: Path) {
    dir == "" || dir[|dir| - 1] == '/'
  }

  lemma {:induction false} LastComponentIs(dir: Path, name: string)
    requires TakesComponent(dir) && '/' !in name
    ensures LastComponent(dir + name) == name
    decreases |name|
  {
    if name == "" {
      assert dir + name == dir;
    } else {
      var n := |name| - 1;
      assert name[n] in name;
      assert (dir + name)[..|dir| + n] == dir + name[..n];
      LastComponentIs(dir, name[..n]);
    }
  }

  /** The parent of a path is what precedes its last component, without trailing
      slashes, except the root's own; slashes after the component make no difference. */
  lemma ParentIs(dir: Path, name: string, tail: Path)
    requires TakesComponent(dir) && IsComponent(name) && AllSlashes(tail)
    ensures Parent(dir + name + tail) == Some(if dir != "" && AllSlashes(dir) then "/" else StripSlashes(dir))
    ensures Basename(dir + name + tail) == if name == ".." then None else NonEmpty(Trim(name))
  {
    var body := dir + name;
    assert body[|body| - 1] == name[|name| - 1] && name[|name| - 1] in name;
    NoTrailingSlash(body, tail);
    LastComponentIs(dir, name);
    assert body[..|body| - |name|] == dir;
    if AllSlashes(dir) {
      NoTrailingSlash("", dir);
      assert "" + dir == dir;
    } else {
      var front := StripSlashesCuts(dir);
    }
  }

  lemma NothingAboveTheRoot(path: Path)
    requires AllSlashes(path)
    ensures Parent(path) == None && Basename(path) == None
  {
    NoTrailingSlash("", path);
    assert "" + path == path;
  }

  // ----- The pane's directory -----

  predicate Blank(s: string) {
    AllSpace(s)
  }

  lemma BlankIffTrimmedEmpty(s: string)
    ensures Trim(s) == "" <==> Blank(s)
  {
    var front, back := TrimCuts(s);
    if Trim(s) != "" {
      assert Trim(s)[0] in s;
    }
  }

  /** The agent's directory if it reported one, else tmux's; a blank one counts as
      none. */
  lemma EffectiveCwdIs(pane: Pane)
    ensures EffectiveCwd(pane) ==
            if pane.agentCwd.Some? && !Blank(pane.agentCwd.value) then Some(Trim(pane.agentCwd.value))
            else if !Blank(pane.tmuxPath) then Some(Trim(pane.tmuxPath))
            else None
  {
    BlankIffTrimmedEmpty(pane.tmuxPath);
    if pane.agentCwd.Some? {
      BlankIffTrimmedEmpty(pane.agentCwd.value);
    }
  }

  // ----- Workspaces -----

  /** `dir` is the nearest directory from the pane's upwards that has a `.git`. */
  ghost predicate NearestGit(fs: FileSystem, pane: Pane, dir: Path) {
    EffectiveCwd(pane).Some?
    && var above := Ancestors(EffectiveCwd(pane).value);
    exists i :: 0 <= i < |above| && above[i] == dir && StopsClimb(fs, dir)
                && forall k :: 0 <= k < i ==> !StopsClimb(fs, above[k])
  }

  ghost predicate NoGitAbove(fs: FileSystem, pane: Pane) {
    EffectiveCwd(pane).Some? ==>
      forall dir :: dir in Ancestors(EffectiveCwd(pane).value) ==> !StopsClimb(fs, dir)
  }

  /** The group of one repository, under its directory's name. */
  predicate IsRepo(workspace: Workspace, repo: Path, caption: string) {
    workspace.id == "git-repo:" + repo && workspace.caption == caption && workspace.source == FromGitRepo
  }

  /** The name of a bare repository is shown without its suffix. */
  ghost predicate NamesBare(name: string, caption: string) {
    if exists front :: name == front + ".git" && !Blank(front) then
      exists front :: name == front + ".git" && caption == Trim(front)
    else caption == name
  }

  lemma StrippedLabelNames(name: string)
    ensures NamesBare(name, StrippedLabel(name))
  {
    var n := |name|;
    if front :| name == front + ".git" && !Blank(front) {
      assert name[..n - 4] == front && name[n - 4..] == ".git";
      BlankIffTrimmedEmpty(front);
      assert StrippedLabel(name) == Trim(front);
    } else if n >= 4 && name[n - 4..] == ".git" {
      assert name == name[..n - 4] + ".git";
      BlankIffTrimmedEmpty(name[..n - 4]);
    }
  }

  lemma NearestDecides(fs: FileSystem, pane: Pane, dir: Path)
    requires NearestGit(fs, pane, dir)
    ensures Climb(fs, EffectiveCwd(pane).value) == RepoAt(fs, dir)
  {
    var cwd := EffectiveCwd(pane).value;
    var i :| 0 <= i < |Ancestors(cwd)| && Ancestors(cwd)[i] == dir && StopsClimb(fs, dir)
             && forall k :: 0 <= k < i ==> !StopsClimb(fs, Ancestors(cwd)[k]);
    ClimbAnswersFromNearest(fs, cwd, i);
  }

  /** A pane in a checkout of its own belongs to the directory that has the `.git`; so
      does one whose `.git` file leads nowhere. */
  lemma OwnRepositoryIsTheGroup(fs: FileSystem, pane: Pane, dir: Path)
    requires NearestGit(fs, pane, dir) && Basename(dir).Some?
    requires fs(dir).GitFile? && fs(dir).link.Some? ==> Basename(fs(dir).link.value.repo) == None
    ensures IsRepo(ComputeWorkspace(fs, pane, ByGitRepo), dir, Basename(dir).value)
  {
    NearestDecides(fs, pane, dir);
  }

  /** A pane in a linked worktree belongs to the repository it is linked to. */
  lemma LinkedWorktreeJoinsItsRepository(fs: FileSystem, pane: Pane, dir: Path)
    requires NearestGit(fs, pane, dir)
    requires fs(dir).GitFile? && fs(dir).link.Some? && Basename(fs(dir).link.value.repo).Some?
    ensures var (workspace, link) := (ComputeWorkspace(fs, pane, ByGitRepo), fs(dir).link.value);
            var name := Basename(link.repo).value;
            && IsRepo(workspace, link.repo, workspace.caption)
            && (if link.stripDotGit then NamesBare(name, workspace.caption) else workspace.caption == name)
  {
    NearestDecides(fs, pane, dir);
    StrippedLabelNames(Basename(fs(dir).link.value.repo).value);
  }

  /** So a linked worktree and the repository's own checkout are one group. */
  lemma WorktreeAndCheckoutAreOneGroup(fs: FileSystem, pane: Pane, dir: Path, other: Pane, repo: Path)
    requires NearestGit(fs, pane, dir) && fs(dir).GitFile? && fs(dir).link.Some? && fs(dir).link.value.repo == repo
    requires NearestGit(fs, other, repo) && fs(repo) == GitDir && Basename(repo).Some?
    ensures ComputeWorkspace(fs, pane, ByGitRepo).id == ComputeWorkspace(fs, other, ByGitRepo).id
  {
    LinkedWorktreeJoinsItsRepository(fs, pane, dir);
    OwnRepositoryIsTheGroup(fs, other, repo);
  }

  /** Outside any repository a pane belongs to its directory, under that name, and
      without a named directory to its session. */
  lemma OutsideRepositories(fs: FileSystem, pane: Pane)
    requires NoGitAbove(fs, pane)
    ensures ComputeWorkspace(fs, pane, ByGitRepo) == ComputeWorkspace(fs, pane, ByCwd)
  {
    if EffectiveCwd(pane).Some? {
      var above := Ancestors(EffectiveCwd(pane).value);
      ClimbAnswersFromNearest(fs, EffectiveCwd(pane).value, |above|);
    }
  }

  /** A checkout in a directory without a name counts as no repository. */
  lemma NamelessRepository(fs: FileSystem, pane: Pane, dir: Path)
    requires NearestGit(fs, pane, dir) && Basename(dir) == None
    requires fs(dir).GitFile? && fs(dir).link.Some? ==> Basename(fs(dir).link.value.repo) == None
    ensures ComputeWorkspace(fs, pane, ByGitRepo) == ComputeWorkspace(fs, pane, ByCwd)
  {
    NearestDecides(fs, pane, dir);
  }

  lemma DirectoryGroups(fs: FileSystem, pane: Pane)
    ensures var (workspace, cwd) := (ComputeWorkspace(fs, pane, ByCwd), EffectiveCwd(pane));
            if cwd.Some? && Basename(cwd.value).Some? then
              workspace.id == "cwd:" + cwd.value && workspace.caption == Basename(cwd.value).value && workspace.source == FromCwd
            else workspace == ComputeWorkspace(fs, pane, BySession)
  {
  }

  lemma SessionGroups(fs: FileSystem, pane: Pane)
    ensures var workspace := ComputeWorkspace(fs, pane, BySession);
            && workspace.id == "session:" + pane.session && workspace.source == FromSession
            && workspace.caption == if Blank(pane.session) then "ungrouped" else Trim(pane.session)
  {
    BlankIffTrimmedEmpty(pane.session);
  }
}
