/**
 The workspace cache (src/app/picker.rs, PickerWorkspaceCache): entries live for
 a fixed time, and a computed repository is also indexed under every directory
 between the working directory and the repository root.
 */
module WorkspaceCache {
  import opened Options
  import opened PickerWorkspace
  import opened WorkspaceMeaning
  import opened Text

  // Milliseconds.
  const WORKSPACE_CACHE_TTL: int := 2000

  datatype CacheKey = CacheKey(groupBy: GroupBy, identity: string)

  datatype Cached = Cached(workspace: Workspace, expiresAt: int)

  type Entries = map<CacheKey, Cached>

  const SEPARATOR := "\nsession:"

  function KeyOf(pane: Pane, groupBy: GroupBy): CacheKey {
    var bySession := "session:" + pane.session;
    CacheKey(groupBy,
             if groupBy == BySession then bySession
             else
               match EffectiveCwd(pane)
               case Some(cwd) => "cwd:" + cwd + SEPARATOR + pane.session
               case None => bySession)
  }

  function AncestorKey(dir: Path): CacheKey {
    CacheKey(ByGitRepo, "git-ancestor:" + dir)
  }

  predicate Hits(entries: Entries, key: CacheKey, now: int) {
    key in entries && entries[key].expiresAt > now
  }

  /** The ancestor-index search: the nearest indexed directory, unless a `.git` of
      any kind lies on the way to it. */
  function FindIndexed(fs: FileSystem, entries: Entries, dir: Path, now: int): Option<Workspace>
    decreases |dir|
  {
    if Hits(entries, AncestorKey(dir), now) then Some(entries[AncestorKey(dir)].workspace)
    else if fs(dir) != NoGit then None
    else
      match Parent(dir)
      case None => None
      case Some(parent) => FindIndexed(fs, entries, parent, now)
  }

  function CachedGitRepoWorkspace(fs: FileSystem, entries: Entries, pane: Pane, groupBy: GroupBy, now: int): Option<Workspace> {
    if groupBy != ByGitRepo then None
    else
      match EffectiveCwd(pane)
      case None => None
      case Some(cwd) => FindIndexed(fs, entries, cwd, now)
  }

  /** The directories from `dir` up to `root`; none if `root` is not above `dir`. */
  function CachePaths(dir: Path, root: Path): seq<Path>
    decreases |dir|
  {
    if dir == root then [dir]
    else
      match Parent(dir)
      case None => []
      case Some(parent) => Extended([dir], CachePaths(parent, root))
  }

  function Extended(below: seq<Path>, above: seq<Path>): seq<Path> {
    if above == [] then [] else below + above
  }

  function CachePathsFrom(dir: Option<Path>, root: Path): seq<Path> {
    match dir
    case None => []
    case Some(d) => CachePaths(d, root)
  }

  function IndexAll(entries: Entries, dirs: seq<Path>, cached: Cached): Entries {
    if dirs == [] then entries
    else IndexAll(entries, dirs[..|dirs| - 1], cached)[AncestorKey(dirs[|dirs| - 1]) := cached]
  }

  /** The directories a freshly computed workspace is indexed under. */
  function IndexedDirs(pane: Pane, groupBy: GroupBy, workspace: Workspace): seq<Path> {
    var cwd := EffectiveCwd(pane);
    if groupBy == ByGitRepo && workspace.source == FromGitRepo && cwd.Some? && workspace.cacheRoot.Some?
    then CachePaths(cwd.value, workspace.cacheRoot.value)
    else []
  }

  function AfterCompute(entries: Entries, pane: Pane, groupBy: GroupBy, workspace: Workspace, now: int): Entries {
    var cached := Cached(workspace, now + WORKSPACE_CACHE_TTL);
    IndexAll(entries[KeyOf(pane, groupBy) := cached], IndexedDirs(pane, groupBy, workspace), cached)
  }

  /** The answer to one query, and the entries after it. */
  function Lookup(fs: FileSystem, entries: Entries, pane: Pane, groupBy: GroupBy, now: int): (Workspace, Entries) {
    var key := KeyOf(pane, groupBy);
    if Hits(entries, key, now) then (entries[key].workspace, entries)
    else
      match CachedGitRepoWorkspace(fs, entries, pane, groupBy, now)
      case Some(workspace) => (workspace, entries)
      case None =>
        var workspace := ComputeWorkspace(fs, pane, groupBy);
        (workspace, AfterCompute(entries, pane, groupBy, workspace, now))
  }

  // ----- The cache as the source's mutable map -----

  class PickerWorkspaceCache {
    var workspaces: Entries

    constructor ()
      ensures workspaces == map[]
    {
      workspaces := map[];
    }

    method WorkspaceForPane(fs: FileSystem, pane: Pane, groupBy: GroupBy, now: int) returns (workspace: Workspace)
      modifies this
      ensures (workspace, workspaces) == Lookup(fs, old(workspaces), pane, groupBy, now)
    {
      var key := KeyOf(pane, groupBy);
      if Hits(workspaces, key, now) {
        return workspaces[key].workspace;
      }
      var indexed := FindGitRepoWorkspace(fs, pane, groupBy, now);
      if indexed.Some? {
        return indexed.value;
      }
      workspace := ComputeWorkspace(fs, pane, groupBy);
      workspaces := workspaces[key := Cached(workspace, now + WORKSPACE_CACHE_TTL)];
      CacheGitRepoAncestors(pane, groupBy, workspace, now);
    }

    method Clear()
      modifies this
      ensures workspaces == map[]
    {
      workspaces := map[];
    }

    method FindGitRepoWorkspace(fs: FileSystem, pane: Pane, groupBy: GroupBy, now: int) returns (found: Option<Workspace>)
      ensures found == CachedGitRepoWorkspace(fs, workspaces, pane, groupBy, now)
    {
      if groupBy != ByGitRepo {
        return None;
      }
      var next := EffectiveCwd(pane);
      while next.Some?
        invariant CachedGitRepoWorkspace(fs, workspaces, pane, groupBy, now) ==
                  match next case Some(dir) => FindIndexed(fs, workspaces, dir, now) case None => None
        decreases if next.Some? then |next.value| + 1 else 0
      {
        var dir := next.value;
        if Hits(workspaces, AncestorKey(dir), now) {
          return Some(workspaces[AncestorKey(dir)].workspace);
        }
        if fs(dir) != NoGit {
          return None;
        }
        next := Parent(dir);
      }
      return None;
    }

    method CacheGitRepoAncestors(pane: Pane, groupBy: GroupBy, workspace: Workspace, now: int)
      modifies this
      ensures workspaces == IndexAll(old(workspaces), IndexedDirs(pane, groupBy, workspace),
                                     Cached(workspace, now + WORKSPACE_CACHE_TTL))
    {
      if groupBy != ByGitRepo || workspace.source != FromGitRepo {
        return;
      }
      var cwd := EffectiveCwd(pane);
      if cwd == None || workspace.cacheRoot == None {
        return;
      }
      var dirs := GitRepoCachePaths(cwd.value, workspace.cacheRoot.value);
      var i := 0;
      while i < |dirs|
        invariant 0 <= i <= |dirs|
        invariant workspaces == IndexAll(old(workspaces), dirs[..i], Cached(workspace, now + WORKSPACE_CACHE_TTL))
      {
        assert dirs[..i + 1][..i] == dirs[..i];
        workspaces := workspaces[AncestorKey(dirs[i]) := Cached(workspace, now + WORKSPACE_CACHE_TTL)];
        i := i + 1;
      }
      assert dirs[..i] == dirs;
    }
  }

  method GitRepoCachePaths(cwd: Path, root: Path) returns (paths: seq<Path>)
    ensures paths == CachePaths(cwd, root)
  {
    paths := [];
    var next := Some(cwd);
    while next.Some?
      invariant CachePaths(cwd, root) == Extended(paths, CachePathsFrom(next, root))
      decreases if next.Some? then |next.value| + 1 else 0
    {
      var dir := next.value;
      if dir == root {
        return paths + [dir];
      }
      next := Parent(dir);
      CachePathsStep(dir, root);
      ExtendedTwice(paths, [dir], CachePathsFrom(next, root));
      paths := paths + [dir];
    }
    return [];
  }

  lemma CachePathsStep(dir: Path, root: Path)
    requires dir != root
    ensures CachePaths(dir, root) == Extended([dir], CachePathsFrom(Parent(dir), root))
  {
  }

  lemma ExtendedTwice(low: seq<Path>, mid: seq<Path>, high: seq<Path>)
    requires mid != []
    ensures Extended(low, Extended(mid, high)) == Extended(low + mid, high)
  {
    assert low + (mid + high) == low + mid + high;
  }

  // ----- Keys -----

  predicate SeparatesAt(s: string, i: nat) {
    i + |SEPARATOR| <= |s| && s[i..i + |SEPARATOR|] == SEPARATOR
  }

  /** `session` can be read as the end of a directory name, the separator and
      the session name `other`. */
  predicate Confusable(session: string, other: string) {
    exists i :: 0 <= i < |session| && SeparatesAt(session, i) && session[i + |SEPARATOR|..] == other &&
                (i == 0 || !IsSpace(session[i - 1]))
  }

  /** No name in use can be confused with another. */
  predicate NamesApart(names: set<string>) {
    forall n, m :: n in names && m in names ==> !Confusable(n, m)
  }

  /** Only names with both a newline and a colon are confusable. */
  lemma ConfusableHoldsBoth(session: string, other: string)
    requires Confusable(session, other)
    ensures '\n' in session && ':' in session
  {
    var n := |SEPARATOR| - 1;
    var i :| 0 <= i < |session| && SeparatesAt(session, i) && session[i + |SEPARATOR|..] == other &&
             (i == 0 || !IsSpace(session[i - 1]));
    assert session[i..i + |SEPARATOR|][0] == session[i] == '\n';
    assert session[i..i + |SEPARATOR|][n] == session[i + n] == ':';
  }

  lemma SeparatorsDoNotOverlap(s: string, i: nat, j: nat)
    requires SeparatesAt(s, i) && SeparatesAt(s, j) && i < j
    ensures i + |SEPARATOR| <= j
  {
    assert s[j..j + |SEPARATOR|][0] == s[j] == '\n';
    forall k | i < k < i + |SEPARATOR|
      ensures s[k] != '\n'
    {
      assert s[i..i + |SEPARATOR|][k - i] == s[k];
    }
  }

  /** Two directory-and-session strings can only agree if the directories do,
      unless the session after the shorter directory is confusable with the other. */
  lemma ShorterCwdConfuses(cwd: Path, session: string, cwd': Path, session': string)
    requires cwd + SEPARATOR + session == cwd' + SEPARATOR + session'
    requires |cwd| < |cwd'| && !IsSpace(cwd'[|cwd'| - 1])
    ensures Confusable(session, session')
  {
    var whole := cwd + SEPARATOR + session;
    var n := |cwd| + |SEPARATOR|;
    assert SeparatesAt(whole, |cwd|);
    assert whole == cwd' + SEPARATOR + session';
    assert SeparatesAt(whole, |cwd'|);
    SeparatorsDoNotOverlap(whole, |cwd|, |cwd'|);
    var i := |cwd'| - n;
    assert whole[n..] == session;
    assert session[i..i + |SEPARATOR|] == whole[|cwd'|..|cwd'| + |SEPARATOR|];
    assert SeparatesAt(session, i);
    assert session[i + |SEPARATOR|..] == whole[|cwd'| + |SEPARATOR|..] == session';
    if i > 0 {
      assert session[i - 1] == whole[|cwd'| - 1] == cwd'[|cwd'| - 1];
    }
  }

  lemma CwdSessionIsInjective(cwd: Path, session: string, cwd': Path, session': string)
    requires cwd + SEPARATOR + session == cwd' + SEPARATOR + session'
    requires cwd != "" && !IsSpace(cwd[|cwd| - 1]) && cwd' != "" && !IsSpace(cwd'[|cwd'| - 1])
    requires !Confusable(session, session') && !Confusable(session', session)
    ensures cwd == cwd' && session == session'
  {
    if |cwd| < |cwd'| {
      ShorterCwdConfuses(cwd, session, cwd', session');
    } else if |cwd'| < |cwd| {
      ShorterCwdConfuses(cwd', session', cwd, session);
    }
    var whole := cwd + SEPARATOR + session;
    assert whole[..|cwd|] == cwd && whole[..|cwd'|] == cwd';
    assert whole[|cwd| + |SEPARATOR|..] == session && whole[|cwd'| + |SEPARATOR|..] == session';
  }

  lemma SessionKeyDecides(pane: Pane, other: Pane, groupBy: GroupBy)
    requires KeyOf(pane, groupBy) == KeyOf(other, groupBy)
    requires groupBy == BySession || EffectiveCwd(pane) == None
    ensures other.session == pane.session && (groupBy != BySession ==> EffectiveCwd(other) == None)
  {
    var id, id' := KeyOf(pane, groupBy).identity, KeyOf(other, groupBy).identity;
    assert id[0] == 's' == id'[0];
    assert id'[8..] == other.session && id[8..] == pane.session;
  }

  lemma CwdTail(cwd: Path, session: string)
    ensures ("cwd:" + cwd + SEPARATOR + session)[4..] == cwd + SEPARATOR + session
  {
  }

  lemma CwdKeyDecides(pane: Pane, other: Pane, groupBy: GroupBy)
    requires KeyOf(pane, groupBy) == KeyOf(other, groupBy)
    requires !Confusable(pane.session, other.session) && !Confusable(other.session, pane.session)
    requires groupBy != BySession && EffectiveCwd(pane).Some?
    ensures other.session == pane.session && EffectiveCwd(other) == EffectiveCwd(pane)
  {
    var cwd := EffectiveCwd(pane).value;
    CwdTail(cwd, pane.session);
    assert EffectiveCwd(other).Some? by {
      assert KeyOf(pane, groupBy).identity[0] == 'c';
    }
    CwdTail(EffectiveCwd(other).value, other.session);
    CwdSessionIsInjective(EffectiveCwd(pane).value, pane.session, EffectiveCwd(other).value, other.session);
  }

  /** Panes whose session names cannot be confused and whose keys agree have the
      same workspace, on any filesystem. */
  lemma KeyDecidesWorkspace(fs: FileSystem, pane: Pane, other: Pane, groupBy: GroupBy, groupBy': GroupBy)
    requires KeyOf(pane, groupBy) == KeyOf(other, groupBy')
    requires !Confusable(pane.session, other.session) && !Confusable(other.session, pane.session)
    ensures groupBy' == groupBy && ComputeWorkspace(fs, pane, groupBy) == ComputeWorkspace(fs, other, groupBy)
  {
    if groupBy == BySession || EffectiveCwd(pane) == None {
      SessionKeyDecides(pane, other, groupBy);
    } else {
      CwdKeyDecides(pane, other, groupBy);
    }
  }

  lemma AncestorKeysAreApart(pane: Pane, groupBy: GroupBy, dir: Path, dir': Path)
    ensures KeyOf(pane, groupBy) != AncestorKey(dir)
    ensures AncestorKey(dir) == AncestorKey(dir') ==> dir == dir'
  {
    assert AncestorKey(dir).identity[0] == 'g';
    assert KeyOf(pane, groupBy).identity[0] in {'s', 'c'};
    assert AncestorKey(dir).identity[13..] == dir && AncestorKey(dir').identity[13..] == dir';
  }

  // ----- The climb and the index -----

  /** A climb that finds a repository reaches it at the cache root, and every
      directory on the way finds the same one. */
  lemma {:induction false} ClimbReachesRoot(fs: FileSystem, dir: Path, workspace: Workspace, q: Path)
    requires Climb(fs, dir) == Some(workspace)
    ensures workspace.cacheRoot.Some? && |workspace.cacheRoot.value| <= |dir|
    ensures q in CachePaths(dir, workspace.cacheRoot.value) ==> Climb(fs, q) == Some(workspace)
    decreases |dir|
  {
    if !StopsClimb(fs, dir) {
      ClimbReachesRoot(fs, Parent(dir).value, workspace, q);
    }
  }

  /** A directory found through the index was indexed, and no `.git` lies between. */
  ghost predicate FoundAbove(fs: FileSystem, entries: Entries, dir: Path, now: int, workspace: Workspace)
    decreases |dir|
  {
    || (Hits(entries, AncestorKey(dir), now) && entries[AncestorKey(dir)].workspace == workspace)
    || (fs(dir) == NoGit && Parent(dir).Some? && FoundAbove(fs, entries, Parent(dir).value, now, workspace))
  }

  lemma {:induction false} FindIndexedFindsAbove(fs: FileSystem, entries: Entries, dir: Path, now: int)
    requires FindIndexed(fs, entries, dir, now).Some?
    ensures FoundAbove(fs, entries, dir, now, FindIndexed(fs, entries, dir, now).value)
    decreases |dir|
  {
    if !Hits(entries, AncestorKey(dir), now) {
      FindIndexedFindsAbove(fs, entries, Parent(dir).value, now);
    }
  }

  // ----- Coherence on an unchanging filesystem -----

  ghost predicate PaneEntryOk(fs: FileSystem, names: set<string>, entries: Entries, pane: Pane, groupBy: GroupBy) {
    KeyOf(pane, groupBy) in entries && pane.session in names ==>
      entries[KeyOf(pane, groupBy)].workspace == ComputeWorkspace(fs, pane, groupBy)
  }

  ghost predicate IndexEntryOk(fs: FileSystem, entries: Entries, dir: Path) {
    AncestorKey(dir) in entries ==> Climb(fs, dir) == Some(entries[AncestorKey(dir)].workspace)
  }

  ghost predicate Coherent(fs: FileSystem, names: set<string>, entries: Entries) {
    && (forall pane, groupBy :: PaneEntryOk(fs, names, entries, pane, groupBy))
    && (forall dir :: IndexEntryOk(fs, entries, dir))
  }

  lemma {:induction false} FoundAboveIsClimb(fs: FileSystem, names: set<string>, entries: Entries, dir: Path,
                                             now: int, workspace: Workspace)
    requires Coherent(fs, names, entries) && FoundAbove(fs, entries, dir, now, workspace)
    ensures Climb(fs, dir) == Some(workspace)
    decreases |dir|
  {
    if Hits(entries, AncestorKey(dir), now) && entries[AncestorKey(dir)].workspace == workspace {
      assert IndexEntryOk(fs, entries, dir);
    } else {
      FoundAboveIsClimb(fs, names, entries, Parent(dir).value, now, workspace);
    }
  }

  lemma InsertKeepsCoherent(fs: FileSystem, names: set<string>, entries: Entries, pane: Pane, groupBy: GroupBy, expiresAt: int)
    requires Coherent(fs, names, entries) && pane.session in names && NamesApart(names)
    ensures Coherent(fs, names, entries[KeyOf(pane, groupBy) := Cached(ComputeWorkspace(fs, pane, groupBy), expiresAt)])
  {
    var entries' := entries[KeyOf(pane, groupBy) := Cached(ComputeWorkspace(fs, pane, groupBy), expiresAt)];
    forall other, groupBy'
      ensures PaneEntryOk(fs, names, entries', other, groupBy')
    {
      assert PaneEntryOk(fs, names, entries, other, groupBy');
      if KeyOf(other, groupBy') == KeyOf(pane, groupBy) && other.session in names {
        KeyDecidesWorkspace(fs, pane, other, groupBy, groupBy');
      }
    }
    forall dir
      ensures IndexEntryOk(fs, entries', dir)
    {
      assert IndexEntryOk(fs, entries, dir);
      AncestorKeysAreApart(pane, groupBy, dir, dir);
    }
  }

  lemma {:induction false} IndexKeepsCoherent(fs: FileSystem, names: set<string>, entries: Entries,
                                              dirs: seq<Path>, cached: Cached)
    requires Coherent(fs, names, entries)
    requires forall q :: q in dirs ==> Climb(fs, q) == Some(cached.workspace)
    ensures Coherent(fs, names, IndexAll(entries, dirs, cached))
    decreases |dirs|
  {
    if dirs != [] {
      var n := |dirs| - 1;
      IndexKeepsCoherent(fs, names, entries, dirs[..n], cached);
      var before := IndexAll(entries, dirs[..n], cached);
      var after := before[AncestorKey(dirs[n]) := cached];
      forall pane, groupBy
        ensures PaneEntryOk(fs, names, after, pane, groupBy)
      {
        assert PaneEntryOk(fs, names, before, pane, groupBy);
        AncestorKeysAreApart(pane, groupBy, dirs[n], dirs[n]);
      }
      forall dir
        ensures IndexEntryOk(fs, after, dir)
      {
        assert IndexEntryOk(fs, before, dir);
        AncestorKeysAreApart(Pane(None, "", ""), BySession, dir, dirs[n]);
      }
    }
  }

  lemma ComputeKeepsCoherent(fs: FileSystem, names: set<string>, entries: Entries, pane: Pane, groupBy: GroupBy, now: int)
    requires Coherent(fs, names, entries) && pane.session in names && NamesApart(names)
    ensures Coherent(fs, names, AfterCompute(entries, pane, groupBy, ComputeWorkspace(fs, pane, groupBy), now))
  {
    var workspace := ComputeWorkspace(fs, pane, groupBy);
    var dirs := IndexedDirs(pane, groupBy, workspace);
    InsertKeepsCoherent(fs, names, entries, pane, groupBy, now + WORKSPACE_CACHE_TTL);
    forall q | q in dirs
      ensures Climb(fs, q) == Some(workspace)
    {
      ClimbReachesRoot(fs, EffectiveCwd(pane).value, workspace, q);
    }
    IndexKeepsCoherent(fs, names, entries[KeyOf(pane, groupBy) := Cached(workspace, now + WORKSPACE_CACHE_TTL)], dirs,
                       Cached(workspace, now + WORKSPACE_CACHE_TTL));
  }

  /** One query on coherent entries: the answer is the plain computation's. */
  lemma LookupIsCompute(fs: FileSystem, names: set<string>, entries: Entries, pane: Pane, groupBy: GroupBy, now: int)
    requires Coherent(fs, names, entries) && pane.session in names && NamesApart(names)
    ensures Lookup(fs, entries, pane, groupBy, now).0 == ComputeWorkspace(fs, pane, groupBy)
    ensures Coherent(fs, names, Lookup(fs, entries, pane, groupBy, now).1)
  {
    assert PaneEntryOk(fs, names, entries, pane, groupBy);
    var indexed := CachedGitRepoWorkspace(fs, entries, pane, groupBy, now);
    if !Hits(entries, KeyOf(pane, groupBy), now) {
      if indexed.Some? {
        var cwd := EffectiveCwd(pane).value;
        FindIndexedFindsAbove(fs, entries, cwd, now);
        FoundAboveIsClimb(fs, names, entries, cwd, now, indexed.value);
      } else {
        ComputeKeepsCoherent(fs, names, entries, pane, groupBy, now);
      }
    }
  }

  // ----- Runs -----

  datatype Call = Query(fs: FileSystem, pane: Pane, groupBy: GroupBy, now: int) | ClearAll

  function EntriesAfter(calls: seq<Call>): Entries
    decreases |calls|
  {
    if calls == [] then map[]
    else
      var last := calls[|calls| - 1];
      match last
      case ClearAll => map[]
      case Query(fs, pane, groupBy, now) => Lookup(fs, EntriesAfter(calls[..|calls| - 1]), pane, groupBy, now).1
  }

  /** The answer to call `n` of a run. */
  function Answer(calls: seq<Call>, n: nat): Workspace
    requires n < |calls| && calls[n].Query?
  {
    Lookup(calls[n].fs, EntriesAfter(calls[..n]), calls[n].pane, calls[n].groupBy, calls[n].now).0
  }

  ghost predicate OnOneFileSystem(fs: FileSystem, names: set<string>, calls: seq<Call>) {
    forall call :: call in calls && call.Query? ==> call.fs == fs && call.pane.session in names
  }

  lemma {:induction false} RunsStayCoherent(fs: FileSystem, names: set<string>, calls: seq<Call>)
    requires OnOneFileSystem(fs, names, calls) && NamesApart(names)
    ensures Coherent(fs, names, EntriesAfter(calls))
    decreases |calls|
  {
    if calls != [] {
      var n := |calls| - 1;
      assert calls[n] in calls;
      if calls[n].Query? {
        RunsStayCoherent(fs, names, calls[..n]);
        LookupIsCompute(fs, names, EntriesAfter(calls[..n]), calls[n].pane, calls[n].groupBy, calls[n].now);
      }
    }
  }

  /** On an unchanging filesystem the cache is invisible: every answer in every run
      of queries and clears, at any times, is the plain computation's. */
  lemma CacheIsCoherent(fs: FileSystem, names: set<string>, calls: seq<Call>, n: nat)
    requires OnOneFileSystem(fs, names, calls) && NamesApart(names) && n < |calls| && calls[n].Query?
    ensures Answer(calls, n) == ComputeWorkspace(fs, calls[n].pane, calls[n].groupBy)
  {
    assert calls[n] in calls;
    RunsStayCoherent(fs, names, calls[..n]);
    LookupIsCompute(fs, names, EntriesAfter(calls[..n]), calls[n].pane, calls[n].groupBy, calls[n].now);
  }

  // ----- A changing filesystem: how old an answer can be -----

  function Computed(call: Call): Cached
    requires call.Query?
  {
    Cached(ComputeWorkspace(call.fs, call.pane, call.groupBy), call.now + WORKSPACE_CACHE_TTL)
  }

  ghost predicate IndexesRepo(fs: FileSystem, key: CacheKey, workspace: Workspace) {
    exists dir :: key == AncestorKey(dir) && Climb(fs, dir) == Some(workspace)
  }

  /** `cached` was computed by `call`, for its own pane or for a directory in which
      that call's climb would have found the same repository. */
  ghost predicate IsOrigin(call: Call, key: CacheKey, cached: Cached) {
    && call.Query? && cached == Computed(call)
    && (key == KeyOf(call.pane, call.groupBy) || IndexesRepo(call.fs, key, cached.workspace))
  }

  ghost predicate HasOrigin(calls: seq<Call>, key: CacheKey, cached: Cached) {
    exists call :: call in calls && IsOrigin(call, key, cached)
  }

  ghost predicate HasOrigins(calls: seq<Call>, entries: Entries) {
    forall key :: key in entries ==> HasOrigin(calls, key, entries[key])
  }

  lemma InsertKeepsOrigins(calls: seq<Call>, entries: Entries, call: Call, key: CacheKey, cached: Cached)
    requires HasOrigins(calls, entries) && call in calls && IsOrigin(call, key, cached)
    ensures HasOrigins(calls, entries[key := cached])
  {
    assert HasOrigin(calls, key, cached);
  }

  lemma {:induction false} IndexKeepsOrigins(calls: seq<Call>, entries: Entries, call: Call, dirs: seq<Path>, cached: Cached)
    requires HasOrigins(calls, entries) && call in calls
    requires forall dir :: dir in dirs ==> IsOrigin(call, AncestorKey(dir), cached)
    ensures HasOrigins(calls, IndexAll(entries, dirs, cached))
    decreases |dirs|
  {
    if dirs != [] {
      var n := |dirs| - 1;
      IndexKeepsOrigins(calls, entries, call, dirs[..n], cached);
      InsertKeepsOrigins(calls, IndexAll(entries, dirs[..n], cached), call, AncestorKey(dirs[n]), cached);
    }
  }

  lemma IndexedDirsOrigin(call: Call, dir: Path)
    requires call.Query? && dir in IndexedDirs(call.pane, call.groupBy, Computed(call).workspace)
    ensures IsOrigin(call, AncestorKey(dir), Computed(call))
  {
    ClimbReachesRoot(call.fs, EffectiveCwd(call.pane).value, Computed(call).workspace, dir);
  }

  lemma ComputeKeepsOrigins(calls: seq<Call>, entries: Entries, call: Call)
    requires HasOrigins(calls, entries) && call in calls && call.Query?
    ensures HasOrigins(calls, AfterCompute(entries, call.pane, call.groupBy, Computed(call).workspace, call.now))
  {
    var key, cached := KeyOf(call.pane, call.groupBy), Computed(call);
    var dirs := IndexedDirs(call.pane, call.groupBy, cached.workspace);
    InsertKeepsOrigins(calls, entries, call, key, cached);
    forall dir | dir in dirs
      ensures IsOrigin(call, AncestorKey(dir), cached)
    {
      IndexedDirsOrigin(call, dir);
    }
    IndexKeepsOrigins(calls, entries[key := cached], call, dirs, cached);
  }

  lemma MoreCallsKeepOrigins(calls: seq<Call>, more: seq<Call>, entries: Entries)
    requires HasOrigins(calls, entries) && forall call :: call in calls ==> call in more
    ensures HasOrigins(more, entries)
  {
    forall key | key in entries
      ensures HasOrigin(more, key, entries[key])
    {
      assert HasOrigin(calls, key, entries[key]);
    }
  }

  lemma QueryKeepsOrigins(calls: seq<Call>, entries: Entries, call: Call)
    requires HasOrigins(calls, entries) && call in calls && call.Query?
    ensures HasOrigins(calls, Lookup(call.fs, entries, call.pane, call.groupBy, call.now).1)
  {
    ComputeKeepsOrigins(calls, entries, call);
  }

  lemma {:induction false} RunsHaveOrigins(calls: seq<Call>)
    ensures HasOrigins(calls, EntriesAfter(calls))
    decreases |calls|
  {
    if calls != [] && calls[|calls| - 1].Query? {
      var n := |calls| - 1;
      RunsHaveOrigins(calls[..n]);
      MoreCallsKeepOrigins(calls[..n], calls, EntriesAfter(calls[..n]));
      QueryKeepsOrigins(calls, EntriesAfter(calls[..n]), calls[n]);
    }
  }

  /** `dir` is `from` or above it, and no `.git` lies in between. */
  ghost predicate ClearPath(fs: FileSystem, from: Path, dir: Path)
    decreases |from|
  {
    || from == dir
    || (fs(from) == NoGit && Parent(from).Some? && ClearPath(fs, Parent(from).value, dir))
  }

  lemma {:induction false} FoundAboveAt(fs: FileSystem, entries: Entries, from: Path, now: int, workspace: Workspace)
    returns (dir: Path)
    requires FoundAbove(fs, entries, from, now, workspace)
    ensures ClearPath(fs, from, dir)
    ensures Hits(entries, AncestorKey(dir), now) && entries[AncestorKey(dir)].workspace == workspace
    decreases |from|
  {
    if Hits(entries, AncestorKey(from), now) && entries[AncestorKey(from)].workspace == workspace {
      dir := from;
    } else {
      dir := FoundAboveAt(fs, entries, Parent(from).value, now, workspace);
    }
  }

  /** The answer is that of an earlier call less than the time to live ago, made
      under the same key or for a repository that also holds the directory asked
      for, with a clear path to the directory it was indexed under. */
  ghost predicate AnsweredFrom(earlier: Call, call: Call, answer: Workspace)
    requires call.Query?
  {
    && earlier.Query?
    && Computed(earlier).expiresAt > call.now && Computed(earlier).workspace == answer
    && (KeyOf(earlier.pane, earlier.groupBy) == KeyOf(call.pane, call.groupBy) || SharedRepo(earlier.fs, call, answer))
  }

  ghost predicate SharedRepo(earlier: FileSystem, call: Call, answer: Workspace)
    requires call.Query?
  {
    && call.groupBy == ByGitRepo && EffectiveCwd(call.pane).Some?
    && exists dir :: ClearPath(call.fs, EffectiveCwd(call.pane).value, dir) && Climb(earlier, dir) == Some(answer)
  }

  ghost predicate IsAnswered(calls: seq<Call>, call: Call, answer: Workspace)
    requires call.Query?
  {
    exists earlier :: earlier in calls && AnsweredFrom(earlier, call, answer)
  }

  lemma PaneKeysAreNotIndexed(fs: FileSystem, pane: Pane, groupBy: GroupBy, workspace: Workspace)
    ensures !IndexesRepo(fs, KeyOf(pane, groupBy), workspace)
  {
    forall dir
      ensures KeyOf(pane, groupBy) != AncestorKey(dir)
    {
      AncestorKeysAreApart(pane, groupBy, dir, dir);
    }
  }

  lemma HitIsFresh(calls: seq<Call>, entries: Entries, call: Call, key: CacheKey)
    requires call.Query? && HasOrigins(calls, entries)
    requires key == KeyOf(call.pane, call.groupBy) && Hits(entries, key, call.now)
    ensures IsAnswered(calls, call, entries[key].workspace)
  {
    assert HasOrigin(calls, key, entries[key]);
    var origin :| origin in calls && IsOrigin(origin, key, entries[key]);
    PaneKeysAreNotIndexed(origin.fs, call.pane, call.groupBy, entries[key].workspace);
    assert AnsweredFrom(origin, call, entries[key].workspace);
  }

  lemma IndexedRepoIsClimb(origin: Call, dir: Path, cached: Cached)
    requires IsOrigin(origin, AncestorKey(dir), cached)
    ensures Climb(origin.fs, dir) == Some(cached.workspace)
  {
    AncestorKeysAreApart(origin.pane, origin.groupBy, dir, dir);
    var dir' :| AncestorKey(dir) == AncestorKey(dir') && Climb(origin.fs, dir') == Some(cached.workspace);
    AncestorKeysAreApart(origin.pane, origin.groupBy, dir, dir');
  }

  lemma IndexHitIsFresh(calls: seq<Call>, entries: Entries, call: Call, answer: Workspace)
    requires call.Query? && HasOrigins(calls, entries)
    requires CachedGitRepoWorkspace(call.fs, entries, call.pane, call.groupBy, call.now) == Some(answer)
    ensures IsAnswered(calls, call, answer)
  {
    var cwd := EffectiveCwd(call.pane).value;
    FindIndexedFindsAbove(call.fs, entries, cwd, call.now);
    var dir := FoundAboveAt(call.fs, entries, cwd, call.now, answer);
    var key := AncestorKey(dir);
    assert HasOrigin(calls, key, entries[key]);
    var origin :| origin in calls && IsOrigin(origin, key, entries[key]);
    IndexedRepoIsClimb(origin, dir, entries[key]);
    assert SharedRepo(origin.fs, call, answer);
    assert AnsweredFrom(origin, call, answer);
  }

  /** Over every run on a filesystem that may change at every call: an answer is
      either computed by its own call or is that of an earlier call less than the
      time to live before it. Hits never renew an entry. */
  lemma AnswersAreFresh(calls: seq<Call>, n: nat)
    requires n < |calls| && calls[n].Query?
    ensures || Answer(calls, n) == ComputeWorkspace(calls[n].fs, calls[n].pane, calls[n].groupBy)
            || IsAnswered(calls[..n], calls[n], Answer(calls, n))
  {
    var call, entries := calls[n], EntriesAfter(calls[..n]);
    RunsHaveOrigins(calls[..n]);
    if Hits(entries, KeyOf(call.pane, call.groupBy), call.now) {
      HitIsFresh(calls[..n], entries, call, KeyOf(call.pane, call.groupBy));
    } else if CachedGitRepoWorkspace(call.fs, entries, call.pane, call.groupBy, call.now).Some? {
      IndexHitIsFresh(calls[..n], entries, call, Answer(calls, n));
    }
  }

  // ----- Confusable session names break it -----

  lemma TrimKeeps(s: string)
    requires s != "" && !IsSpace(s[0]) && !IsSpace(s[|s| - 1])
    ensures Trim(s) == s
  {
  }

  lemma CwdIsPlain(cwd: Path, session: string)
    requires cwd != "" && !IsSpace(cwd[0]) && !IsSpace(cwd[|cwd| - 1])
    ensures EffectiveCwd(Pane(None, cwd, session)) == Some(cwd)
  {
    TrimKeeps(cwd);
  }

  lemma NameOfA()
    ensures Basename("/a") == Some("a")
  {
    ParentIs("/", "a", "");
    assert "/" + "a" + "" == "/a";
    TrimKeeps("a");
  }

  lemma WorkspaceOfA(fs: FileSystem, session: string)
    ensures ComputeWorkspace(fs, Pane(None, "/a", session), ByCwd).id == "cwd:/a"
  {
    CwdIsPlain("/a", session);
    NameOfA();
    DirectoryGroups(fs, Pane(None, "/a", session));
  }

  lemma WorkspaceOfOther(fs: FileSystem, cwd: Path, session: string)
    requires |cwd| > 2 && cwd[0] == '/' && !IsSpace(cwd[|cwd| - 1])
    ensures ComputeWorkspace(fs, Pane(None, cwd, session), ByCwd).id != "cwd:/a"
  {
    CwdIsPlain(cwd, session);
    assert ("cwd:" + cwd)[4..] == cwd && |"cwd:/a"| == 6;
    assert ("session:" + session)[0] == 's';
  }

  /** Two confusable names, asked for one after the other, and a wrong answer. The cache
      takes any string as a session name; tmux, which replaces colons in session names,
      never produces a confusable one. */
  lemma ConfusableNamesGoWrong(fs: FileSystem, names: set<string>, session: string, other: string) returns (calls: seq<Call>)
    requires session in names && other in names && Confusable(session, other)
    ensures OnOneFileSystem(fs, names, calls) && |calls| == 2 && calls[1].Query?
    ensures Answer(calls, 1) != ComputeWorkspace(fs, calls[1].pane, calls[1].groupBy)
  {
    var i :| 0 <= i < |session| && SeparatesAt(session, i) && session[i + |SEPARATOR|..] == other &&
             (i == 0 || !IsSpace(session[i - 1]));
    var cwd := "/a" + SEPARATOR + session[..i];
    var first, second := Pane(None, "/a", session), Pane(None, cwd, other);
    calls := [Query(fs, first, ByCwd, 0), Query(fs, second, ByCwd, 0)];
    assert session == session[..i] + SEPARATOR + other;
    assert "/a" + SEPARATOR + session == cwd + SEPARATOR + other;
    CwdIsPlain("/a", session);
    CwdIsPlain(cwd, other);
    KeysAgree(first, second);
    SecondCallHits(fs, first, second);
    WorkspaceOfA(fs, session);
    WorkspaceOfOther(fs, cwd, other);
  }

  lemma KeysAgree(first: Pane, second: Pane)
    requires EffectiveCwd(first).Some? && EffectiveCwd(second).Some?
    requires EffectiveCwd(first).value + SEPARATOR + first.session == EffectiveCwd(second).value + SEPARATOR + second.session
    ensures KeyOf(first, ByCwd) == KeyOf(second, ByCwd)
  {
    assert "cwd:" + EffectiveCwd(first).value + SEPARATOR + first.session ==
           "cwd:" + (EffectiveCwd(first).value + SEPARATOR + first.session);
    assert "cwd:" + EffectiveCwd(second).value + SEPARATOR + second.session ==
           "cwd:" + (EffectiveCwd(second).value + SEPARATOR + second.session);
  }

  lemma SecondCallHits(fs: FileSystem, first: Pane, second: Pane)
    requires KeyOf(first, ByCwd) == KeyOf(second, ByCwd)
    ensures Answer([Query(fs, first, ByCwd, 0), Query(fs, second, ByCwd, 0)], 1) == ComputeWorkspace(fs, first, ByCwd)
  {
    var calls := [Query(fs, first, ByCwd, 0), Query(fs, second, ByCwd, 0)];
    var key, workspace := KeyOf(first, ByCwd), ComputeWorkspace(fs, first, ByCwd);
    var before := calls[..1];
    assert before == [calls[0]] && before[..0] == [];
    var entries := EntriesAfter(before);
    assert EntriesAfter(before[..0]) == map[];
    assert entries == Lookup(fs, map[], first, ByCwd, 0).1;
    assert entries == AfterCompute(map[], first, ByCwd, workspace, 0);
    assert IndexedDirs(first, ByCwd, workspace) == [];
    assert entries == map[key := Cached(workspace, WORKSPACE_CACHE_TTL)];
  }

  /** So it never happens with names as tmux makes them, which hold no colon. */
  lemma ColonFreeNamesAreCoherent(fs: FileSystem, names: set<string>, calls: seq<Call>, n: nat)
    requires forall name :: name in names ==> ':' !in name
    requires OnOneFileSystem(fs, names, calls) && n < |calls| && calls[n].Query?
    ensures Answer(calls, n) == ComputeWorkspace(fs, calls[n].pane, calls[n].groupBy)
  {
    forall session, other | session in names && Confusable(session, other)
      ensures ':' in session
    {
      ConfusableHoldsBoth(session, other);
    }
    assert NamesApart(names);
    CacheIsCoherent(fs, names, calls, n);
  }

  /** Exactly when the session names in use are apart is the cache invisible in
      every run over panes of those sessions. */
  lemma CoherentIffNamesApart(fs: FileSystem, names: set<string>)
    ensures NamesApart(names) <==>
            forall calls: seq<Call>, n: nat :: OnOneFileSystem(fs, names, calls) && n < |calls| && calls[n].Query? ==>
              Answer(calls, n) == ComputeWorkspace(fs, calls[n].pane, calls[n].groupBy)
  {
    if NamesApart(names) {
      forall calls: seq<Call>, n: nat | OnOneFileSystem(fs, names, calls) && n < |calls| && calls[n].Query?
        ensures Answer(calls, n) == ComputeWorkspace(fs, calls[n].pane, calls[n].groupBy)
      {
        CacheIsCoherent(fs, names, calls, n);
      }
    } else {
      var session, other :| session in names && other in names && Confusable(session, other);
      var calls := ConfusableNamesGoWrong(fs, names, session, other);
    }
  }
}
