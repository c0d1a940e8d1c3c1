/**
 Workspaces of panes (src/app/picker.rs): by session, by working directory, or by
 the git repository found by climbing from the working directory.

 Paths are strings, as the cache keys them; `.` components are not treated
 specially. The filesystem is any function from a directory to what its `.git`
 is; what a `.git` file resolves to is part of that answer.
 */
module PickerWorkspace {
  import opened Options
  import opened Text

  type Path = string

  // Where a `.git` file of a linked worktree leads, before labelling.
  datatype Linked = Linked(repo: Path, stripDotGit: bool)

  datatype GitEntry = NoGit | GitDir | GitFile(link: Option<Linked>) | OtherGit

  type FileSystem = Path -> GitEntry

  datatype GroupBy = BySession | ByGitRepo | ByCwd

  datatype Source = FromSession | FromGitRepo | FromCwd

  datatype Workspace = Workspace(id: string, caption: string, source: Source, cacheRoot: Option<Path>)

  // The parts of a pane record that decide its workspace.
  datatype Pane = Pane(agentCwd: Option<string>, tmuxPath: string, session: string)

  // ----- Strings -----

  function NonEmpty(s: string): Option<string> {
    if s == "" then None else Some(s)
  }

  // ----- Paths -----

  function StripSlashes(s: Path): (t: Path)
    ensures |t| <= |s| && (t == "" || t[|t| - 1] != '/')
    decreases |s|
  {
    if s != "" && s[|s| - 1] == '/' then StripSlashes(s[..|s| - 1]) else s
  }

  /** Everything after the last slash. */
  function LastComponent(s: Path): (t: Path)
    ensures |t| <= |s| && (t == s ==> '/' !in s)
    decreases |s|
  {
    if s == "" || s[|s| - 1] == '/' then "" else LastComponent(s[..|s| - 1]) + [s[|s| - 1]]
  }

  /** The parent directory; none for the root and for the empty path. */
  function Parent(path: Path): (parent: Option<Path>)
    ensures parent.Some? ==> |parent.value| < |path|
  {
    var body := StripSlashes(path);
    if body == "" then None
    else
      var name := LastComponent(body);
      if name == body then Some("")
      else
        var dir := StripSlashes(body[..|body| - |name|]);
        Some(if dir == "" then "/" else dir)
  }

  function Basename(path: Path): Option<string> {
    var name := LastComponent(StripSlashes(path));
    if name == ".." then None else NonEmpty(Trim(name))
  }

  // ----- compute_workspace_for_pane -----

  function EffectiveCwd(pane: Pane): (cwd: Option<Path>)
    ensures cwd.Some? ==> cwd.value != "" && !IsSpace(cwd.value[|cwd.value| - 1])
  {
    var agent := match pane.agentCwd case Some(cwd) => NonEmpty(Trim(cwd)) case None => None;
    if agent.Some? then agent else NonEmpty(Trim(pane.tmuxPath))
  }

  function SessionWorkspace(pane: Pane): Workspace {
    var caption := Trim(pane.session);
    Workspace("session:" + pane.session, if caption == "" then "ungrouped" else caption, FromSession, None)
  }

  function CwdWorkspaceForPath(cwd: Path): Option<Workspace> {
    match Basename(cwd)
    case None => None
    case Some(caption) => Some(Workspace("cwd:" + cwd, caption, FromCwd, None))
  }

  function CwdWorkspace(pane: Pane): Workspace {
    match EffectiveCwd(pane)
    case None => SessionWorkspace(pane)
    case Some(cwd) =>
      (match CwdWorkspaceForPath(cwd)
       case Some(workspace) => workspace
       case None => SessionWorkspace(pane))
  }

  /** The label with a `.git` suffix removed, unless nothing would be left. */
  function StrippedLabel(caption: string): string {
    var n := |caption|;
    if n >= 4 && caption[n - 4..] == ".git" && Trim(caption[..n - 4]) != "" then Trim(caption[..n - 4]) else caption
  }

  function GitRepoWorkspaceFromPath(repo: Path, stripDotGit: bool): Option<Workspace> {
    match Basename(repo)
    case None => None
    case Some(caption) =>
      Some(Workspace("git-repo:" + repo, if stripDotGit then StrippedLabel(caption) else caption, FromGitRepo, Some(repo)))
  }

  /** What a `.git` in `dir` makes of the directories below it. */
  function RepoAt(fs: FileSystem, dir: Path): Option<Workspace>
    requires fs(dir).GitDir? || fs(dir).GitFile?
  {
    match fs(dir)
    case GitDir => GitRepoWorkspaceFromPath(dir, false)
    case GitFile(link) =>
      var common := match link
                    case None => None
                    case Some(linked) => GitRepoWorkspaceFromPath(linked.repo, linked.stripDotGit);
      match common
      case Some(workspace) => Some(workspace.(cacheRoot := Some(dir)))
      case None => GitRepoWorkspaceFromPath(dir, false)
  }

  predicate StopsClimb(fs: FileSystem, dir: Path) {
    fs(dir).GitDir? || fs(dir).GitFile?
  }

  function Climb(fs: FileSystem, dir: Path): Option<Workspace>
    decreases |dir|
  {
    if StopsClimb(fs, dir) then RepoAt(fs, dir)
    else
      match Parent(dir)
      case None => None
      case Some(parent) => Climb(fs, parent)
  }

  /** The directory itself, its parent, and so on. */
  function Ancestors(dir: Path): (dirs: seq<Path>)
    ensures dirs != [] && dirs[0] == dir
    decreases |dir|
  {
    match Parent(dir)
    case None => [dir]
    case Some(parent) => [dir] + Ancestors(parent)
  }

  /** The climb answers from the nearest directory upwards that has a `.git`, and
      from nothing if none has. */
  lemma {:induction false} ClimbAnswersFromNearest(fs: FileSystem, dir: Path, i: nat)
    requires i <= |Ancestors(dir)| && forall k :: 0 <= k < i ==> !StopsClimb(fs, Ancestors(dir)[k])
    ensures i == |Ancestors(dir)| ==> Climb(fs, dir) == None
    ensures i < |Ancestors(dir)| && StopsClimb(fs, Ancestors(dir)[i]) ==> Climb(fs, dir) == RepoAt(fs, Ancestors(dir)[i])
    decreases |dir|
  {
    if i > 0 {
      assert !StopsClimb(fs, Ancestors(dir)[0]);
      match Parent(dir)
      case None =>
      case Some(parent) =>
        var above := Ancestors(parent);
        forall k | 0 <= k < i - 1
          ensures !StopsClimb(fs, above[k])
        {
          assert above[k] == Ancestors(dir)[k + 1];
        }
        ClimbAnswersFromNearest(fs, parent, i - 1);
    }
  }

  method GitRepoWorkspaceForPath(fs: FileSystem, path: Path) returns (workspace: Option<Workspace>)
    ensures workspace == if path == "" then None else Climb(fs, path)
  {
    if path == "" {
      return None;
    }
    var current := path;
    while !StopsClimb(fs, current)
      invariant Climb(fs, current) == Climb(fs, path)
      decreases |current|
    {
      match Parent(current) {
        case None => return None;
        case Some(parent) => current := parent;
      }
    }
    return RepoAt(fs, current);
  }

  function GitRepoWorkspace(fs: FileSystem, pane: Pane): Workspace {
    var found := match EffectiveCwd(pane) case Some(cwd) => Climb(fs, cwd) case None => None;
    match found
    case Some(workspace) => workspace
    case None => CwdWorkspace(pane)
  }

  function ComputeWorkspace(fs: FileSystem, pane: Pane, groupBy: GroupBy): Workspace {
    match groupBy
    case BySession => SessionWorkspace(pane)
    case ByCwd => CwdWorkspace(pane)
    case ByGitRepo => GitRepoWorkspace(fs, pane)
  }
}
