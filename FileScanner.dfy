/** File discovery: which paths the include/exclude rules keep, which child
    directories are pruned before the walk descends into them, and the
    top-down walk itself, whose result is a strictly ascending list of
    absolute paths. The file system is a tree of `Node`s given as input. */
module FileScanner {
  import opened Common
  import opened Glob
  import opened Paths

  // ---------------------------------------------------------------------
  // Pattern predicates
  // ---------------------------------------------------------------------

  /** The text actually compared: lower-cased unless matching is case sensitive. */
  function Fold(s: string, caseSensitive: bool): string
  {
    if caseSensitive then s else Lower(s)
  }

  /** `s.rstrip(...)` with slash and star as the characters to strip: drop every trailing `/` and `*`. */
  function RStripSlashStar(s: string): (r: string)
    ensures StartsWith(s, r)
    ensures r == [] || (r[|r| - 1] != '/' && r[|r| - 1] != '*')
    ensures forall i :: |r| <= i < |s| ==> s[i] == '/' || s[i] == '*'
    decreases |s|
  {
    if s != [] && (s[|s| - 1] == '/' || s[|s| - 1] == '*') then RStripSlashStar(s[..|s| - 1]) else s
  }

  /** The directory prefix under which a pattern excludes everything: for
      a pattern ending in a slash, or in a slash and a star, the pattern without its trailing `/` and `*`
      characters, otherwise the pattern itself; followed by `/`. */
  function DirPrefix(pat: string): string
  {
    if EndsWith(pat, "/") || EndsWith(pat, "/*") then RStripSlashStar(pat) + "/" else pat + "/"
  }

  /** One (already case-folded) exclude pattern against one (already
      case-folded) path: a glob match, or the path lies under the pattern's
      directory prefix. */
  predicate PatternExcludes(path: string, pat: string)
  {
    Fnmatch(path, pat) || StartsWith(path, DirPrefix(pat))
  }

  /** `_is_path_excluded_by_pattern`: some pattern excludes the path. */
  function IsPathExcludedByPattern(relPath: string, patterns: seq<string>, caseSensitive: bool): (r: bool)
    ensures r <==> exists i :: 0 <= i < |patterns| && PatternExcludes(Fold(relPath, caseSensitive), Fold(patterns[i], caseSensitive))
    decreases |patterns|
  {
    if patterns == [] then false
    else if PatternExcludes(Fold(relPath, caseSensitive), Fold(patterns[0], caseSensitive)) then true
    else
      var r := IsPathExcludedByPattern(relPath, patterns[1..], caseSensitive);
      assert forall i :: 1 <= i < |patterns| ==> patterns[i] == patterns[1..][i - 1];
      r
  }

  /** Some pattern glob-matches the (already case-folded) path. */
  function AnyPatternMatches(path: string, patterns: seq<string>, caseSensitive: bool): (r: bool)
    ensures r <==> exists i :: 0 <= i < |patterns| && Fnmatch(path, Fold(patterns[i], caseSensitive))
    decreases |patterns|
  {
    if patterns == [] then false
    else if Fnmatch(path, Fold(patterns[0], caseSensitive)) then true
    else
      var r := AnyPatternMatches(path, patterns[1..], caseSensitive);
      assert forall i :: 1 <= i < |patterns| ==> patterns[i] == patterns[1..][i - 1];
      r
  }

  /** `_is_path_included_by_pattern`: an empty pattern list includes
      everything, otherwise some pattern must glob-match the path. */
  function IsPathIncludedByPattern(relPath: string, patterns: seq<string>, caseSensitive: bool): (r: bool)
    ensures r <==> |patterns| == 0 || exists i :: 0 <= i < |patterns| && Fnmatch(Fold(relPath, caseSensitive), Fold(patterns[i], caseSensitive))
  {
    if patterns == [] then true else AnyPatternMatches(Fold(relPath, caseSensitive), patterns, caseSensitive)
  }

  /** Case-insensitive matching cannot tell paths or patterns apart that
      differ only in letter case. */
  lemma {:induction false} MatchingIgnoresCase(p1: string, p2: string, ps1: seq<string>, ps2: seq<string>)
    requires Lower(p1) == Lower(p2)
    requires |ps1| == |ps2| && forall i :: 0 <= i < |ps1| ==> Lower(ps1[i]) == Lower(ps2[i])
    ensures IsPathExcludedByPattern(p1, ps1, false) == IsPathExcludedByPattern(p2, ps2, false)
    ensures IsPathIncludedByPattern(p1, ps1, false) == IsPathIncludedByPattern(p2, ps2, false)
  {
    if IsPathExcludedByPattern(p1, ps1, false) {
      var i :| 0 <= i < |ps1| && PatternExcludes(Lower(p1), Lower(ps1[i]));
      assert PatternExcludes(Lower(p2), Lower(ps2[i]));
    }
    if IsPathExcludedByPattern(p2, ps2, false) {
      var i :| 0 <= i < |ps2| && PatternExcludes(Lower(p2), Lower(ps2[i]));
      assert PatternExcludes(Lower(p1), Lower(ps1[i]));
    }
    if ps1 != [] && IsPathIncludedByPattern(p1, ps1, false) {
      var i :| 0 <= i < |ps1| && Fnmatch(Lower(p1), Lower(ps1[i]));
      assert Fnmatch(Lower(p2), Lower(ps2[i]));
    }
    if ps2 != [] && IsPathIncludedByPattern(p2, ps2, false) {
      var i :| 0 <= i < |ps2| && Fnmatch(Lower(p2), Lower(ps2[i]));
      assert Fnmatch(Lower(p1), Lower(ps1[i]));
    }
  }

  /** A pattern ending in a slash, or in a slash and a star, excludes everything under the
      directory it names. */
  lemma DirectoryPatternExcludesNested(relPath: string, patterns: seq<string>, i: nat, rest: string)
    requires i < |patterns|
    requires EndsWith(Lower(patterns[i]), "/") || EndsWith(Lower(patterns[i]), "/*")
    requires Lower(relPath) == RStripSlashStar(Lower(patterns[i])) + "/" + rest
    ensures IsPathExcludedByPattern(relPath, patterns, false)
  {
    assert StartsWith(Lower(relPath), DirPrefix(Lower(patterns[i])));
  }

  /** Any other pattern, such as a bare `node_modules`, excludes everything
      under a directory of that name at the top of the project. */
  lemma BarePatternExcludesNested(relPath: string, patterns: seq<string>, i: nat, rest: string)
    requires i < |patterns|
    requires !EndsWith(Lower(patterns[i]), "/") && !EndsWith(Lower(patterns[i]), "/*")
    requires Lower(relPath) == Lower(patterns[i]) + "/" + rest
    ensures IsPathExcludedByPattern(relPath, patterns, false)
  {
    assert StartsWith(Lower(relPath), DirPrefix(Lower(patterns[i])));
  }

  // ---------------------------------------------------------------------
  // Per-file checks
  // ---------------------------------------------------------------------

  /** `_passes_file_specific_checks`: not in the explicit exclude set, and
      its size (`None` when `stat()` fails) is known and at most the limit. */
  function PassesFileSpecificChecks(absPath: Path, excludeFilesAbs: set<Path>, maxSizeBytes: int, size: Option<nat>): (r: bool)
    ensures r ==> absPath !in excludeFilesAbs
    ensures size.None? ==> !r
    ensures absPath !in excludeFilesAbs && size.Some? ==> (r <==> size.value <= maxSizeBytes)
  {
    if absPath in excludeFilesAbs then false
    else
      match size
      case None => false
      case Some(fileSize) => if fileSize > maxSizeBytes then false else true
  }

  // ---------------------------------------------------------------------
  // The tree and the walk's specification
  // ---------------------------------------------------------------------

  /** What the walk sees: a file with its `stat()` size (`None` when the
      call fails) or a directory with its entries. */
  datatype Node =
    | File(name: string, size: Option<nat>)
    | Dir(name: string, entries: seq<Node>)

  /** The settings the scanner reads from the configuration; the explicit
      exclude list is already resolved to absolute paths. */
  datatype ScanConfig = ScanConfig(
    excludeDirs: set<string>,
    excludeFilesAbs: set<Path>,
    excludePatterns: seq<string>,
    includePatterns: seq<string>,
    maxFileSizeKb: int)

  const CaseSensitiveMatching: bool := false

  function MaxSizeBytes(cfg: ScanConfig): int
  {
    cfg.maxFileSizeKb * 1024
  }

  /** A child directory (relative path `rel` from the project path) is not
      descended into. Names and paths are compared with `exclude_dirs`
      exactly; patterns case-insensitively. */
  predicate DirPruned(cfg: ScanConfig, rel: Path)
  {
    Name(rel) in cfg.excludeDirs
    || PathStr(rel) in cfg.excludeDirs
    || IsPathExcludedByPattern(PathStr(rel), cfg.excludePatterns, CaseSensitiveMatching)
  }

  /** A file met by the walk is kept: no exclude pattern, some include
      pattern (or none given), and the per-file checks. */
  predicate FileSelected(cfg: ScanConfig, cli: Path, rel: Path, size: Option<nat>)
  {
    !IsPathExcludedByPattern(PathStr(rel), cfg.excludePatterns, CaseSensitiveMatching)
    && IsPathIncludedByPattern(PathStr(rel), cfg.includePatterns, CaseSensitiveMatching)
    && PassesFileSpecificChecks(cli + rel, cfg.excludeFilesAbs, MaxSizeBytes(cfg), size)
  }

  /** The absolute paths the walk keeps among `entries` of directory `dir`
      (relative to the project path `cli`) and below them. */
  function Selected(cfg: ScanConfig, cli: Path, entries: seq<Node>, dir: Path): set<Path>
    decreases entries
  {
    if entries == [] then {}
    else Selected(cfg, cli, entries[..|entries| - 1], dir) + EntrySelected(cfg, cli, entries[|entries| - 1], dir)
  }

  function EntrySelected(cfg: ScanConfig, cli: Path, e: Node, dir: Path): set<Path>
    decreases e
  {
    match e
    case File(name, size) =>
      if FileSelected(cfg, cli, dir + [name], size) then {cli + (dir + [name])} else {}
    case Dir(name, entries) =>
      if DirPruned(cfg, dir + [name]) then {} else Selected(cfg, cli, entries, dir + [name])
  }

  /** The result of scanning `root`, which lies at `rootRel` under the
      project path; walking something that is not a directory yields nothing. */
  function ScanResult(cfg: ScanConfig, cli: Path, root: Node, rootRel: Path): set<Path>
  {
    if root.Dir? then Selected(cfg, cli, root.entries, rootRel) else {}
  }

  // ---------------------------------------------------------------------
  // Reference description of the result, independent of the walk
  // ---------------------------------------------------------------------

  /** The tree holds a file at relative path `rel` with that size. */
  predicate HasFile(entries: seq<Node>, dir: Path, rel: Path, size: Option<nat>)
    decreases entries
  {
    entries != []
    && (HasFile(entries[..|entries| - 1], dir, rel, size) || EntryHasFile(entries[|entries| - 1], dir, rel, size))
  }

  predicate EntryHasFile(e: Node, dir: Path, rel: Path, size: Option<nat>)
    decreases e
  {
    match e
    case File(name, sz) => rel == dir + [name] && size == sz
    case Dir(name, entries) => HasFile(entries, dir + [name], rel, size)
  }

  /** No directory strictly between `dir` and the file `rel` is pruned. */
  predicate NotUnderPruned(cfg: ScanConfig, dir: Path, rel: Path)
  {
    forall k :: |dir| < k < |rel| ==> !DirPruned(cfg, rel[..k])
  }

  lemma {:induction false} HasFileShape(entries: seq<Node>, dir: Path, rel: Path, size: Option<nat>)
    requires HasFile(entries, dir, rel, size)
    ensures |rel| > |dir| && rel[..|dir|] == dir
    decreases entries
  {
    var n := |entries|;
    if HasFile(entries[..n - 1], dir, rel, size) {
      HasFileShape(entries[..n - 1], dir, rel, size);
    } else {
      EntryHasFileShape(entries[n - 1], dir, rel, size);
    }
  }

  lemma {:induction false} EntryHasFileShape(e: Node, dir: Path, rel: Path, size: Option<nat>)
    requires EntryHasFile(e, dir, rel, size)
    ensures |rel| > |dir| && rel[..|dir|] == dir
    decreases e
  {
    match e
    case File(name, sz) =>
    case Dir(name, entries) =>
      HasFileShape(entries, dir + [name], rel, size);
      assert rel[..|dir|] == rel[..|dir| + 1][..|dir|];
  }

  /** Everything the walk keeps is a file of the tree below the scan root,
      under no pruned directory, that passed every file check. */
  lemma {:induction false} SelectedSound(cfg: ScanConfig, cli: Path, entries: seq<Node>, dir: Path, q: Path)
    requires q in Selected(cfg, cli, entries, dir)
    ensures |q| >= |cli| && q[..|cli|] == cli
    ensures var rel := q[|cli|..];
      NotUnderPruned(cfg, dir, rel)
      && exists size :: HasFile(entries, dir, rel, size) && FileSelected(cfg, cli, rel, size)
    decreases entries
  {
    var n := |entries|;
    if q in Selected(cfg, cli, entries[..n - 1], dir) {
      SelectedSound(cfg, cli, entries[..n - 1], dir, q);
      var rel := q[|cli|..];
      var size :| HasFile(entries[..n - 1], dir, rel, size) && FileSelected(cfg, cli, rel, size);
      assert HasFile(entries, dir, rel, size);
    } else {
      EntrySelectedSound(cfg, cli, entries[n - 1], dir, q);
      var rel := q[|cli|..];
      var size :| EntryHasFile(entries[n - 1], dir, rel, size) && FileSelected(cfg, cli, rel, size);
      assert HasFile(entries, dir, rel, size);
    }
  }

  lemma {:induction false} EntrySelectedSound(cfg: ScanConfig, cli: Path, e: Node, dir: Path, q: Path)
    requires q in EntrySelected(cfg, cli, e, dir)
    ensures |q| >= |cli| && q[..|cli|] == cli
    ensures var rel := q[|cli|..];
      NotUnderPruned(cfg, dir, rel)
      && exists size :: EntryHasFile(e, dir, rel, size) && FileSelected(cfg, cli, rel, size)
    decreases e
  {
    match e
    case File(name, size) =>
      assert q == cli + (dir + [name]);
      assert q[|cli|..] == dir + [name];
      assert EntryHasFile(e, dir, q[|cli|..], size);
    case Dir(name, entries) =>
      var sub := dir + [name];
      assert !DirPruned(cfg, sub) && q in Selected(cfg, cli, entries, sub);
      SelectedSound(cfg, cli, entries, sub, q);
      var rel := q[|cli|..];
      var size :| HasFile(entries, sub, rel, size) && FileSelected(cfg, cli, rel, size);
      HasFileShape(entries, sub, rel, size);
      assert rel[..|dir| + 1] == sub;
      forall k | |dir| < k < |rel| ensures !DirPruned(cfg, rel[..k]) {
        if k == |dir| + 1 {
          assert rel[..k] == sub;
        }
      }
      assert EntryHasFile(e, dir, rel, size);
  }

  /** Every file of the tree under no pruned directory that passes every
      file check is kept. */
  lemma {:induction false} SelectedComplete(cfg: ScanConfig, cli: Path, entries: seq<Node>, dir: Path, rel: Path, size: Option<nat>)
    requires HasFile(entries, dir, rel, size)
    requires NotUnderPruned(cfg, dir, rel)
    requires FileSelected(cfg, cli, rel, size)
    ensures cli + rel in Selected(cfg, cli, entries, dir)
    decreases entries
  {
    var n := |entries|;
    if HasFile(entries[..n - 1], dir, rel, size) {
      SelectedComplete(cfg, cli, entries[..n - 1], dir, rel, size);
    } else {
      EntrySelectedComplete(cfg, cli, entries[n - 1], dir, rel, size);
    }
  }

  lemma {:induction false} EntrySelectedComplete(cfg: ScanConfig, cli: Path, e: Node, dir: Path, rel: Path, size: Option<nat>)
    requires EntryHasFile(e, dir, rel, size)
    requires NotUnderPruned(cfg, dir, rel)
    requires FileSelected(cfg, cli, rel, size)
    ensures cli + rel in EntrySelected(cfg, cli, e, dir)
    decreases e
  {
    match e
    case File(name, sz) =>
    case Dir(name, entries) =>
      var sub := dir + [name];
      HasFileShape(entries, sub, rel, size);
      assert rel[..|dir| + 1] == sub;
      assert !DirPruned(cfg, sub);
      SelectedComplete(cfg, cli, entries, sub, rel, size);
  }

  /** Exclude wins: a file matched by an exclude pattern is never returned,
      whatever the include patterns say. */
  lemma ExcludeWins(cfg: ScanConfig, cli: Path, entries: seq<Node>, dir: Path, rel: Path)
    requires IsPathExcludedByPattern(PathStr(rel), cfg.excludePatterns, false)
    ensures cli + rel !in Selected(cfg, cli, entries, dir)
  {
    assert (cli + rel)[|cli|..] == rel;
    if cli + rel in Selected(cfg, cli, entries, dir) {
      SelectedSound(cfg, cli, entries, dir, cli + rel);
    }
  }

  /** Nothing is returned from inside a directory whose name or relative
      path is listed in `exclude_dirs`. */
  lemma ExcludedDirectoryIsPruned(cfg: ScanConfig, cli: Path, entries: seq<Node>, dir: Path, rel: Path, k: nat)
    requires |dir| < k < |rel|
    requires rel[k - 1] in cfg.excludeDirs || PathStr(rel[..k]) in cfg.excludeDirs
    ensures cli + rel !in Selected(cfg, cli, entries, dir)
  {
    assert Name(rel[..k]) == rel[k - 1];
    assert DirPruned(cfg, rel[..k]);
    assert (cli + rel)[|cli|..] == rel;
    if cli + rel in Selected(cfg, cli, entries, dir) {
      SelectedSound(cfg, cli, entries, dir, cli + rel);
    }
  }

  /** A file exactly at the size limit is kept, one byte more is not. */
  lemma SizeBoundary(cfg: ScanConfig, cli: Path, entries: seq<Node>, dir: Path, rel: Path, size: nat)
    requires HasFile(entries, dir, rel, Some(size)) && NotUnderPruned(cfg, dir, rel)
    requires !IsPathExcludedByPattern(PathStr(rel), cfg.excludePatterns, false)
    requires IsPathIncludedByPattern(PathStr(rel), cfg.includePatterns, false)
    requires cli + rel !in cfg.excludeFilesAbs
    requires forall sz :: HasFile(entries, dir, rel, sz) ==> sz == Some(size)
    ensures cli + rel in Selected(cfg, cli, entries, dir) <==> size <= cfg.maxFileSizeKb * 1024
  {
    if size <= cfg.maxFileSizeKb * 1024 {
      SelectedComplete(cfg, cli, entries, dir, rel, Some(size));
    }
    assert (cli + rel)[|cli|..] == rel;
    if cli + rel in Selected(cfg, cli, entries, dir) {
      SelectedSound(cfg, cli, entries, dir, cli + rel);
    }
  }

  // ---------------------------------------------------------------------
  // The walk
  // ---------------------------------------------------------------------

  /** A directory waiting to be visited: its entries and its path relative
      to the project path. */
  datatype WalkItem = WalkItem(entries: seq<Node>, dir: Path)

  function Pending(cfg: ScanConfig, cli: Path, stack: seq<WalkItem>): set<Path>
  {
    if stack == [] then {}
    else Pending(cfg, cli, stack[..|stack| - 1]) + Selected(cfg, cli, stack[|stack| - 1].entries, stack[|stack| - 1].dir)
  }

  /** The child directories of `dir` that survive pruning, as walk items. */
  function KeptDirs(cfg: ScanConfig, entries: seq<Node>, dir: Path): seq<WalkItem>
  {
    if entries == [] then []
    else
      var e := entries[|entries| - 1];
      KeptDirs(cfg, entries[..|entries| - 1], dir)
      + (if e.Dir? && !DirPruned(cfg, dir + [e.name]) then [WalkItem(e.entries, dir + [e.name])] else [])
  }

  /** The files of `dir` itself that are kept. */
  function FilesHere(cfg: ScanConfig, cli: Path, entries: seq<Node>, dir: Path): set<Path>
  {
    if entries == [] then {}
    else
      var e := entries[|entries| - 1];
      FilesHere(cfg, cli, entries[..|entries| - 1], dir)
      + (if e.File? && FileSelected(cfg, cli, dir + [e.name], e.size) then {cli + (dir + [e.name])} else {})
  }

  function EntriesWeight(entries: seq<Node>): nat
    decreases entries
  {
    if entries == [] then 0 else EntriesWeight(entries[..|entries| - 1]) + NodeWeight(entries[|entries| - 1])
  }

  function NodeWeight(e: Node): nat
    decreases e
  {
    match e
    case File(_, _) => 1
    case Dir(_, entries) => 1 + EntriesWeight(entries)
  }

  function StackWeight(stack: seq<WalkItem>): nat
  {
    if stack == [] then 0
    else StackWeight(stack[..|stack| - 1]) + 1 + EntriesWeight(stack[|stack| - 1].entries)
  }

  lemma {:induction false} PendingAppend(cfg: ScanConfig, cli: Path, a: seq<WalkItem>, b: seq<WalkItem>)
    ensures Pending(cfg, cli, a + b) == Pending(cfg, cli, a) + Pending(cfg, cli, b)
    ensures StackWeight(a + b) == StackWeight(a) + StackWeight(b)
    decreases |b|
  {
    if b == [] {
      assert a + b == a;
    } else {
      assert (a + b)[..|a + b| - 1] == a + b[..|b| - 1];
      PendingAppend(cfg, cli, a, b[..|b| - 1]);
    }
  }

  /** Visiting a directory splits its part of the result into its own kept
      files and the parts of the child directories it keeps. */
  lemma {:induction false} SelectedSplits(cfg: ScanConfig, cli: Path, entries: seq<Node>, dir: Path)
    ensures Selected(cfg, cli, entries, dir)
         == FilesHere(cfg, cli, entries, dir) + Pending(cfg, cli, KeptDirs(cfg, entries, dir))
    ensures StackWeight(KeptDirs(cfg, entries, dir)) <= EntriesWeight(entries)
    decreases entries
  {
    if entries != [] {
      var n := |entries|;
      var e := entries[n - 1];
      SelectedSplits(cfg, cli, entries[..n - 1], dir);
      var kept := if e.Dir? && !DirPruned(cfg, dir + [e.name]) then [WalkItem(e.entries, dir + [e.name])] else [];
      PendingAppend(cfg, cli, KeptDirs(cfg, entries[..n - 1], dir), kept);
      if kept != [] {
        assert kept[..0] == [];
      }
    }
  }

  /** One visit of the walk: replacing the top directory by the child
      directories it keeps, after adding its own kept files, preserves what
      remains to be found, and makes the stack lighter. */
  lemma VisitStep(cfg: ScanConfig, cli: Path, rest: seq<WalkItem>, item: WalkItem)
    ensures Pending(cfg, cli, rest + [item])
         == FilesHere(cfg, cli, item.entries, item.dir) + Pending(cfg, cli, rest + KeptDirs(cfg, item.entries, item.dir))
    ensures StackWeight(rest + KeptDirs(cfg, item.entries, item.dir)) < StackWeight(rest + [item])
  {
    assert (rest + [item])[..|rest|] == rest;
    SelectedSplits(cfg, cli, item.entries, item.dir);
    PendingAppend(cfg, cli, rest, KeptDirs(cfg, item.entries, item.dir));
  }

  /** `sorted(list(found))`: the paths in ascending `pathlib` order. */
  method SortPaths(found: set<Path>) returns (sorted: seq<Path>)
    ensures StrictlySorted(sorted)
    ensures forall q :: q in sorted <==> q in found
    ensures |sorted| == |found|
  {
    sorted := [];
    var rest := found;
    while rest != {}
      invariant rest <= found
      invariant StrictlySorted(sorted)
      invariant forall q :: q in sorted <==> q in found && q !in rest
      invariant |sorted| + |rest| == |found|
      decreases |rest|
    {
      var x :| x in rest;
      sorted := InsertSorted(sorted, x);
      rest := rest - {x};
    }
  }

  /** The walk's first pass over a directory: the child directories it may
      still descend into, in their original order. */
  method PruneDirs(cfg: ScanConfig, entries: seq<Node>, dir: Path) returns (keep: seq<WalkItem>)
    ensures keep == KeptDirs(cfg, entries, dir)
  {
    keep := [];
    for i := 0 to |entries|
      invariant keep == KeptDirs(cfg, entries[..i], dir)
    {
      assert entries[..i + 1][..i] == entries[..i];
      var e := entries[i];
      if e.Dir? && !DirPruned(cfg, dir + [e.name]) {
        keep := keep + [WalkItem(e.entries, dir + [e.name])];
      }
    }
    assert entries[..|entries|] == entries;
  }

  /** The walk's second pass over a directory: its files that pass the
      exclude patterns, the include patterns and the per-file checks. */
  method KeepFiles(cfg: ScanConfig, cli: Path, entries: seq<Node>, dir: Path) returns (here: set<Path>)
    ensures here == FilesHere(cfg, cli, entries, dir)
  {
    here := {};
    for i := 0 to |entries|
      invariant here == FilesHere(cfg, cli, entries[..i], dir)
    {
      assert entries[..i + 1][..i] == entries[..i];
      var e := entries[i];
      if e.File? {
        var rel := dir + [e.name];
        if !IsPathExcludedByPattern(PathStr(rel), cfg.excludePatterns, CaseSensitiveMatching)
           && IsPathIncludedByPattern(PathStr(rel), cfg.includePatterns, CaseSensitiveMatching)
           && PassesFileSpecificChecks(cli + rel, cfg.excludeFilesAbs, MaxSizeBytes(cfg), e.size)
        {
          here := here + {cli + rel};
        }
      }
    }
    assert entries[..|entries|] == entries;
  }

  /** `scan_project`: walk `root` (at `rootRel` under the project path
      `cli`) top-down; in each directory first drop the child directories
      to prune, then keep the files that pass, then descend into the
      remaining children. Returns the kept absolute paths in ascending order. */
  method ScanProject(cfg: ScanConfig, cli: Path, root: Node, rootRel: Path) returns (files: seq<Path>)
    ensures StrictlySorted(files)
    ensures forall q :: q in files <==> q in ScanResult(cfg, cli, root, rootRel)
  {
    var included: set<Path> := {};
    var stack: seq<WalkItem> := if root.Dir? then [WalkItem(root.entries, rootRel)] else [];
    ghost var target := ScanResult(cfg, cli, root, rootRel);
    assert Pending(cfg, cli, stack) == target by {
      if root.Dir? { assert stack[..0] == []; }
    }
    while stack != []
      invariant included + Pending(cfg, cli, stack) == target
      decreases StackWeight(stack)
    {
      var item := stack[|stack| - 1];
      var rest := stack[..|stack| - 1];
      var entries, dir := item.entries, item.dir;

      // First prune the child directories, then take this directory's files.
      var keep := PruneDirs(cfg, entries, dir);
      var here := KeepFiles(cfg, cli, entries, dir);
      included := included + here;

      assert stack == rest + [item];
      VisitStep(cfg, cli, rest, item);
      stack := rest + keep;
    }
    files := SortPaths(included);
  }
}
