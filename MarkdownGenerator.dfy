/** The Markdown report: an optional title and summary line, then one
    section per processed file separated by horizontal rules, each holding
    a fenced code block or a notice; the whole stripped and ended by one
    newline. */
module MarkdownGenerator {
  import opened Common
  import opened Paths
  import opened FileProcessor

  // ---------------------------------------------------------------------
  // Language hints
  // ---------------------------------------------------------------------

  /** Index of the last `c` in `s`, or -1. */
  function RFind(s: string, c: char): (i: int)
    ensures -1 <= i < |s|
    ensures i >= 0 ==> s[i] == c
    ensures forall k :: i < k < |s| ==> s[k] != c
    decreases |s|
  {
    if s == [] then -1 else if s[|s| - 1] == c then |s| - 1 else RFind(s[..|s| - 1], c)
  }

  /** `PurePath.suffix` of a file name: from its last dot, when that dot is
      neither the first nor the last character; otherwise empty. */
  function Suffix(name: string): (r: string)
    ensures r == [] || (EndsWith(name, r) && r[0] == '.' && 2 <= |r| < |name|
                        && forall k :: 0 < k < |r| ==> r[k] != '.')
  {
    var i := RFind(name, '.');
    if 0 < i < |name| - 1 then name[i..] else ""
  }

  /** A name made of a non-empty stem, a dot and a non-empty extension
      without dots has that dot and extension as its suffix. */
  lemma SuffixOfDotted(stem: string, ext: string)
    requires stem != [] && ext != [] && forall k :: 0 <= k < |ext| ==> ext[k] != '.'
    ensures Suffix(stem + "." + ext) == "." + ext
  {
    var name := stem + "." + ext;
    var i := RFind(name, '.');
    assert name[|stem|] == '.';
    assert i == |stem| by {
      forall k | |stem| < k < |name| ensures name[k] != '.' {
        assert name[k] == ext[k - |stem| - 1];
      }
    }
    assert name[i..] == "." + ext;
  }

  /** Names without a dot, or whose only dot leads (`.gitignore`), have no
      suffix. */
  lemma NoSuffixWithoutInnerDot(name: string)
    requires forall k :: 0 < k < |name| ==> name[k] != '.'
    ensures Suffix(name) == ""
  {
  }

  /** `_get_language_hint`: the lower-cased file name if it is mapped, else
      the lower-cased suffix if that is mapped, else `text`. */
  function LanguageHint(path: Path, langMap: map<string, string>): string
  {
    var name := Lower(Name(path));
    if name in langMap then langMap[name]
    else
      var suffix := Lower(Suffix(Name(path)));
      if suffix in langMap then langMap[suffix] else "text"
  }

  /** A mapped file name wins: its entry is used whether or not the
      extension is mapped too. */
  lemma HintFromName(path: Path, langMap: map<string, string>)
    requires Lower(Name(path)) in langMap
    ensures LanguageHint(path, langMap) == langMap[Lower(Name(path))]
  {
  }

  /** The hint for `stem.ext` whose name is not itself mapped comes from
      the lower-cased extension, and is `text` when that is not mapped. */
  lemma HintFromExtension(path: Path, langMap: map<string, string>, stem: string, ext: string)
    requires path != [] && Name(path) == stem + "." + ext
    requires stem != [] && ext != [] && forall k :: 0 <= k < |ext| ==> ext[k] != '.'
    requires Lower(Name(path)) !in langMap
    ensures Lower("." + ext) in langMap ==> LanguageHint(path, langMap) == langMap[Lower("." + ext)]
    ensures Lower("." + ext) !in langMap ==> LanguageHint(path, langMap) == "text"
  {
    SuffixOfDotted(stem, ext);
  }

  /** Case does not matter: `Main.PY` gets the hint of `.py`, and a file
      name entry such as `dockerfile` is found for `Dockerfile`. */
  lemma HintIgnoresCase(p1: Path, p2: Path, langMap: map<string, string>)
    requires p1 != [] && p2 != []
    requires Lower(Name(p1)) == Lower(Name(p2))
    ensures LanguageHint(p1, langMap) == LanguageHint(p2, langMap)
  {
    SuffixIgnoresCase(Name(p1), Name(p2));
  }

  /** Names equal up to case have suffixes equal up to case. */
  lemma SuffixIgnoresCase(n1: string, n2: string)
    requires Lower(n1) == Lower(n2)
    ensures Lower(Suffix(n1)) == Lower(Suffix(n2))
  {
    var l1, l2 := Lower(n1), Lower(n2);
    assert |n1| == |l1| == |l2| == |n2|;
    forall k | 0 <= k < |n1| ensures n1[k] == '.' <==> n2[k] == '.' {
      assert l1[k] == LowerChar(n1[k]) && l2[k] == LowerChar(n2[k]);
    }
    RFindAgrees(n1, n2, '.');
    var i := RFind(n1, '.');
    if 0 < i < |n1| - 1 {
      LowerSlice(n1, i);
      LowerSlice(n2, i);
    }
  }

  lemma LowerSlice(s: string, i: nat)
    requires i <= |s|
    ensures Lower(s[i..]) == Lower(s)[i..]
  {
    var a, b := Lower(s[i..]), Lower(s)[i..];
    forall k | 0 <= k < |a| ensures a[k] == b[k] {
      assert s[i..][k] == s[i + k];
    }
  }

  lemma {:induction false} RFindAgrees(a: string, b: string, c: char)
    requires |a| == |b| && forall k :: 0 <= k < |a| ==> (a[k] == c <==> b[k] == c)
    ensures RFind(a, c) == RFind(b, c)
    decreases |a|
  {
    if a != [] {
      RFindAgrees(a[..|a| - 1], b[..|b| - 1], c);
    }
  }

  // ---------------------------------------------------------------------
  // Fences
  // ---------------------------------------------------------------------

  function Backticks(n: nat): (r: string)
    ensures |r| == n && forall i :: 0 <= i < n ==> r[i] == '`'
  {
    seq(n, _ => '`')
  }

  lemma ContainsNoLonger(s: string, t: string)
    requires Contains(s, t)
    ensures |t| <= |s|
  {
    ContainsAt(s, t);
  }

  /** The shortest run of at least three backticks from `n` on that the
      content does not contain. */
  function FenceLenFrom(content: string, n: nat): (m: nat)
    requires 3 <= n
    requires forall k :: 3 <= k < n ==> Contains(content, Backticks(k))
    ensures n <= m && !Contains(content, Backticks(m))
    ensures forall k :: 3 <= k < m ==> Contains(content, Backticks(k))
    decreases |content| + 1 - n
  {
    if !Contains(content, Backticks(n)) then n
    else
      ContainsNoLonger(content, Backticks(n));
      FenceLenFrom(content, n + 1)
  }

  /** The fence used around a file's content: the shortest run of at least
      three backticks that does not occur in it. */
  function MinimalFence(content: string): (fence: string)
  {
    Backticks(FenceLenFrom(content, 3))
  }

  /** The fence is never longer than three backticks or one more than the
      content's length, whichever is larger. */
  lemma {:induction false} FenceLenBound(content: string)
    ensures |MinimalFence(content)| <= if |content| + 1 < 3 then 3 else |content| + 1
  {
    var m := FenceLenFrom(content, 3);
    if m > 3 {
      assert Contains(content, Backticks(m - 1));
      ContainsNoLonger(content, Backticks(m - 1));
    }
  }

  /** `_get_dynamic_fence`: lengthen the fence from three backticks until
      the content no longer contains it. */
  method DynamicFence(content: string) returns (fence: string)
    ensures |fence| >= 3 && fence == Backticks(|fence|)
    ensures !Contains(content, fence)
    ensures forall k :: 3 <= k < |fence| ==> Contains(content, Backticks(k))
    ensures fence == MinimalFence(content)
  {
    var fenceLen := 3;
    while Contains(content, Backticks(fenceLen))
      invariant 3 <= fenceLen
      invariant forall k :: 3 <= k < fenceLen ==> Contains(content, Backticks(k))
      decreases |content| + 1 - fenceLen
    {
      ContainsNoLonger(content, Backticks(fenceLen));
      fenceLen := fenceLen + 1;
    }
    fence := Backticks(fenceLen);
    FenceLenUnique(content, fenceLen, FenceLenFrom(content, 3));
  }

  /** Only one fence length is both unused and minimal. */
  lemma FenceLenUnique(content: string, a: nat, b: nat)
    requires 3 <= a && 3 <= b
    requires !Contains(content, Backticks(a)) && !Contains(content, Backticks(b))
    requires forall k :: 3 <= k < a ==> Contains(content, Backticks(k))
    requires forall k :: 3 <= k < b ==> Contains(content, Backticks(k))
    ensures a == b
  {
  }

  /** Within a fenced block, the first occurrence of the fence after the
      info line is the closing one: the content can be read back. */
  lemma ClosingFenceIsFirst(content: string, fence: string)
    requires |fence| >= 1 && fence == Backticks(|fence|) && !Contains(content, fence)
    ensures var t := content + "\n" + fence;
      OccursAt(t, fence, |content| + 1)
      && forall i :: 0 <= i <= |content| ==> !OccursAt(t, fence, i)
  {
    var t := content + "\n" + fence;
    assert t[|content| + 1..] == fence;
    ContainsAt(content, fence);
    forall i | 0 <= i <= |content| ensures !OccursAt(t, fence, i) {
      if i + |fence| <= |content| {
        assert t[i..i + |fence|] == content[i..i + |fence|];
        assert !OccursAt(content, fence, i);
      } else {
        assert t[|content|] == '\n';
        assert fence[|content| - i] == '`';
      }
    }
  }

  // ---------------------------------------------------------------------
  // Sections
  // ---------------------------------------------------------------------

  /** `str(p).replace("\\", "/")`. */
  function Slashed(s: string): (r: string)
    ensures |r| == |s|
    ensures forall i :: 0 <= i < |s| ==> r[i] == (if s[i] == '\\' then '/' else s[i])
  {
    seq(|s|, i requires 0 <= i < |s| => if s[i] == '\\' then '/' else s[i])
  }

  /** The text of an absolute path. */
  function AbsPathStr(p: Path): string
  {
    "/" + Join(p, "/")
  }

  function RelText(fd: ProcessedFileData): string
  {
    Slashed(PathStr(fd.relativePath))
  }

  function SectionHeader(rel: string): string
  {
    "## File: `" + rel + "`"
  }

  const EmptyNotice: string := "_(File is empty)_"
  const UnknownError: string := "An unknown error occurred."

  /** `error_message or "An unknown error occurred."`: a missing or empty
      message is replaced. */
  function ErrorText(m: Option<string>): (r: string)
    ensures r != []
    ensures m.Some? && m.value != [] ==> r == m.value
  {
    if m.Some? && m.value != [] then m.value else UnknownError
  }

  /** What follows a section's header line, if anything. */
  function SectionBody(fd: ProcessedFileData, langMap: map<string, string>): Option<string>
  {
    var rel := RelText(fd);
    if fd.status == TextContent && fd.content.Some? then
      if Strip(fd.content.value) == [] then Some(EmptyNotice)
      else
        var fence := MinimalFence(fd.content.value);
        Some(fence + LanguageHint(fd.path, langMap) + "\n" + fd.content.value + "\n" + fence)
    else if fd.status == BinaryFile then
      Some("`[INFO] Binary file detected at '" + rel + "'. Content not included.`")
    else if fd.status == ReadError || fd.status == SkippedAccessError then
      Some("`[WARNING] Could not process file '" + rel + "'. Error: " + ErrorText(fd.errorMessage) + "`")
    else None
  }

  /** One file's section: its header line, then its body. */
  function RenderBlock(fd: ProcessedFileData, langMap: map<string, string>): string
  {
    Join([SectionHeader(RelText(fd)) + "\n"] + (match SectionBody(fd, langMap) case Some(b) => [b] case None => []), "\n")
  }

  /** Every section starts with its header line. */
  lemma BlockStartsWithHeader(fd: ProcessedFileData, langMap: map<string, string>)
    ensures StartsWith(RenderBlock(fd, langMap), SectionHeader(RelText(fd)))
  {
    var head := SectionHeader(RelText(fd)) + "\n";
    JoinStartsWithFirst([head] + (match SectionBody(fd, langMap) case Some(b) => [b] case None => []), "\n");
    assert head[..|SectionHeader(RelText(fd))|] == SectionHeader(RelText(fd));
  }

  /** The sections of `files`, in order. */
  function Blocks(files: seq<ProcessedFileData>, langMap: map<string, string>): (r: seq<string>)
    ensures |r| == |files|
    ensures forall i :: 0 <= i < |files| ==> r[i] == RenderBlock(files[i], langMap)
  {
    MapSeq(files, Renderer(langMap))
  }

  /** `RenderBlock` for a fixed language map, as a function value. */
  function Renderer(langMap: map<string, string>): ProcessedFileData -> string
  {
    fd => RenderBlock(fd, langMap)
  }

  /** Adding a file at the end adds its section at the end. */
  lemma BlocksSnoc(files: seq<ProcessedFileData>, fd: ProcessedFileData, langMap: map<string, string>)
    ensures Blocks(files + [fd], langMap) == Blocks(files, langMap) + [RenderBlock(fd, langMap)]
  {
    MapSnoc(files, fd, Renderer(langMap));
  }

  function TitleLine(projectRoot: Path): string
  {
    "# Codecat: Aggregated Code for '" + Name(projectRoot) + "'"
  }

  function SummaryLine(count: nat, projectRoot: Path): string
  {
    "Generated from `" + NatToDecimal(count) + "` files found in `" + Slashed(AbsPathStr(projectRoot)) + "`.\n"
  }

  const SectionSeparator: string := "\n\n---\n\n"

  function MainParts(files: seq<ProcessedFileData>, projectRoot: Path, langMap: map<string, string>, generateHeader: bool): seq<string>
  {
    (if generateHeader then [TitleLine(projectRoot), SummaryLine(|files|, projectRoot)] else [])
    + (if files == [] then [] else [Join(Blocks(files, langMap), SectionSeparator)])
  }

  /** The whole report. It always ends in exactly one newline: the character
      before it, if any, is not whitespace. */
  function Document(files: seq<ProcessedFileData>, projectRoot: Path, langMap: map<string, string>, generateHeader: bool): (r: string)
    ensures |r| >= 1 && r[|r| - 1] == '\n'
    ensures |r| >= 2 ==> !IsPySpace(r[|r| - 2])
  {
    Strip(Join(MainParts(files, projectRoot, langMap, generateHeader), "\n")) + "\n"
  }

  /** The body of the report loop for one file: its header line, then a
      fenced block, the empty-file notice, or a binary or error notice. */
  method RenderFileBlock(fileData: ProcessedFileData, langMap: map<string, string>) returns (block: string)
    ensures block == RenderBlock(fileData, langMap)
  {
    var blockParts := [SectionHeader(RelText(fileData)) + "\n"];
    if fileData.status == TextContent && fileData.content.Some? {
      if Strip(fileData.content.value) == [] {
        blockParts := blockParts + [EmptyNotice];
      } else {
        var langHint := LanguageHint(fileData.path, langMap);
        var fence := DynamicFence(fileData.content.value);
        blockParts := blockParts + [fence + langHint + "\n" + fileData.content.value + "\n" + fence];
      }
    } else if fileData.status == BinaryFile {
      blockParts := blockParts + ["`[INFO] Binary file detected at '" + RelText(fileData) + "'. Content not included.`"];
    } else if fileData.status == ReadError || fileData.status == SkippedAccessError {
      blockParts := blockParts + ["`[WARNING] Could not process file '" + RelText(fileData) + "'. Error: " + ErrorText(fileData.errorMessage) + "`"];
    }
    block := Join(blockParts, "\n");
  }

  /** One pass of that loop: the next file's section goes at the end. */
  method AppendBlock(blocks: seq<string>, done: seq<ProcessedFileData>, fd: ProcessedFileData, langMap: map<string, string>)
    returns (extended: seq<string>)
    requires blocks == Blocks(done, langMap)
    ensures extended == Blocks(done + [fd], langMap)
  {
    var block := RenderFileBlock(fd, langMap);
    BlocksSnoc(done, fd, langMap);
    extended := blocks + [block];
  }

  /** The loop of `generate_markdown` over the processed files: one
      section per file, in order. */
  method RenderBlocks(files: seq<ProcessedFileData>, langMap: map<string, string>) returns (blocks: seq<string>)
    ensures blocks == Blocks(files, langMap)
  {
    blocks := [];
    for i := 0 to |files|
      invariant blocks == Blocks(files[..i], langMap)
    {
      assert files[..i + 1] == files[..i] + [files[i]];
      blocks := AppendBlock(blocks, files[..i], files[i], langMap);
    }
    assert files[..|files|] == files;
  }

  /** `generate_markdown`. */
  method GenerateMarkdown(processedFiles: seq<ProcessedFileData>, projectRoot: Path, langMap: map<string, string>, generateHeader: bool)
    returns (md: string)
    ensures md == Document(processedFiles, projectRoot, langMap, generateHeader)
  {
    var mainParts: seq<string> := [];
    if generateHeader {
      mainParts := mainParts + [TitleLine(projectRoot)];
      mainParts := mainParts + [SummaryLine(|processedFiles|, projectRoot)];
    }
    assert mainParts == (if generateHeader then [TitleLine(projectRoot), SummaryLine(|processedFiles|, projectRoot)] else []);

    var fileBlocks := RenderBlocks(processedFiles, langMap);

    if fileBlocks != [] {
      mainParts := mainParts + [Join(fileBlocks, SectionSeparator)];
    } else {
      assert processedFiles == [];
    }
    assert mainParts == MainParts(processedFiles, projectRoot, langMap, generateHeader);
    var stripped := Strip(Join(mainParts, "\n"));
    assert stripped == Strip(Join(MainParts(processedFiles, projectRoot, langMap, generateHeader), "\n"));
    md := stripped + "\n";
  }

  // ---------------------------------------------------------------------
  // Properties of the report
  // ---------------------------------------------------------------------

  /** The joined sections begin with the first file's header line. */
  lemma SectionsStartWithFirstHeader(files: seq<ProcessedFileData>, langMap: map<string, string>)
    requires files != []
    ensures StartsWith(Join(Blocks(files, langMap), SectionSeparator), SectionHeader(RelText(files[0])))
  {
    var h := SectionHeader(RelText(files[0]));
    var blocks := Blocks(files, langMap);
    JoinStartsWithFirst(blocks, SectionSeparator);
    BlockStartsWithHeader(files[0], langMap);
    assert Join(blocks, SectionSeparator)[..|h|] == blocks[0][..|h|];
  }

  /** A section header line begins with `##` and ends with a backtick. */
  lemma SectionHeaderShape(rel: string)
    ensures var h := SectionHeader(rel); |h| >= 2 && h[0] == '#' && h[1] == '#' && h[|h| - 1] == '`'
  {
  }

  /** The title line begins with `# `; the summary line ends with `.` and
      a newline. */
  lemma HeaderLineShapes(count: nat, projectRoot: Path)
    ensures var t := TitleLine(projectRoot); |t| >= 2 && t[0] == '#' && t[1] == ' '
    ensures var g := SummaryLine(count, projectRoot); |g| >= 2 && g[|g| - 2] == '.' && g[|g| - 1] == '\n'
  {
  }

  /** The report with the header on and no files, before stripping. */
  lemma DocumentHeaderOnly(projectRoot: Path, langMap: map<string, string>)
    ensures Document([], projectRoot, langMap, true)
         == Strip(TitleLine(projectRoot) + "\n" + SummaryLine(0, projectRoot)) + "\n"
  {
    var title, summary := TitleLine(projectRoot), SummaryLine(0, projectRoot);
    assert MainParts([], projectRoot, langMap, true) == [title, summary];
    JoinTwo(title, summary, "\n");
  }

  /** The report with the header on and some files, before stripping. */
  lemma DocumentWithHeader(files: seq<ProcessedFileData>, projectRoot: Path, langMap: map<string, string>)
    requires files != []
    ensures Document(files, projectRoot, langMap, true)
         == Strip(TitleLine(projectRoot) + "\n" + SummaryLine(|files|, projectRoot) + "\n"
                  + Join(Blocks(files, langMap), SectionSeparator)) + "\n"
  {
    var title, summary := TitleLine(projectRoot), SummaryLine(|files|, projectRoot);
    var all := Join(Blocks(files, langMap), SectionSeparator);
    assert MainParts(files, projectRoot, langMap, true) == [title, summary, all];
    JoinThree(title, summary, all, "\n");
  }

  /** The report with the header off, before stripping. */
  lemma DocumentWithoutHeader(files: seq<ProcessedFileData>, projectRoot: Path, langMap: map<string, string>)
    requires files != []
    ensures Document(files, projectRoot, langMap, false) == Strip(Join(Blocks(files, langMap), SectionSeparator)) + "\n"
  {
  }

  /** With the header on, the report begins with the title line and then
      the summary line giving the number of files and the project path. */
  lemma HeaderLinesComeFirst(files: seq<ProcessedFileData>, projectRoot: Path, langMap: map<string, string>)
    ensures StartsWith(Document(files, projectRoot, langMap, true),
                       TitleLine(projectRoot) + "\n" + SummaryLine(|files|, projectRoot))
  {
    if files == [] {
      HeaderOnlyReport(projectRoot, langMap);
    } else {
      HeaderBeforeSections(files, projectRoot, langMap);
    }
  }

  /** With the header on and no files, the report is the two header lines. */
  lemma HeaderOnlyReport(projectRoot: Path, langMap: map<string, string>)
    ensures Document([], projectRoot, langMap, true) == TitleLine(projectRoot) + "\n" + SummaryLine(0, projectRoot)
  {
    DocumentHeaderOnly(projectRoot, langMap);
    HeaderLinesSurviveStrip(0, projectRoot);
  }

  lemma HeaderLinesSurviveStrip(count: nat, projectRoot: Path)
    ensures var head := TitleLine(projectRoot) + "\n" + SummaryLine(count, projectRoot);
      Strip(head) + "\n" == head
  {
    var head := TitleLine(projectRoot) + "\n" + SummaryLine(count, projectRoot);
    HeaderLineShapes(count, projectRoot);
    assert head[0] == '#' && head[|head| - 2] == '.' && head[|head| - 1] == '\n';
    StripThenNewline(head);
  }

  lemma HeaderBeforeSections(files: seq<ProcessedFileData>, projectRoot: Path, langMap: map<string, string>)
    requires files != []
    ensures StartsWith(Document(files, projectRoot, langMap, true),
                       TitleLine(projectRoot) + "\n" + SummaryLine(|files|, projectRoot))
  {
    DocumentWithHeader(files, projectRoot, langMap);
    HeaderLinesSurviveStripBeforeSections(files, projectRoot, langMap);
  }

  lemma HeaderLinesSurviveStripBeforeSections(files: seq<ProcessedFileData>, projectRoot: Path, langMap: map<string, string>)
    requires files != []
    ensures var head := TitleLine(projectRoot) + "\n" + SummaryLine(|files|, projectRoot);
      StartsWith(Strip(head + "\n" + Join(Blocks(files, langMap), SectionSeparator)) + "\n", head)
  {
    var head := TitleLine(projectRoot) + "\n" + SummaryLine(|files|, projectRoot);
    HeaderLineShapes(|files|, projectRoot);
    assert head[0] == '#';
    var all := Join(Blocks(files, langMap), SectionSeparator);
    FirstSectionStartsWithHash(files, langMap);
    StripKeepsHeadBeforeText(head, all);
  }

  /** The joined sections begin with `#`. */
  lemma FirstSectionStartsWithHash(files: seq<ProcessedFileData>, langMap: map<string, string>)
    requires files != []
    ensures var all := Join(Blocks(files, langMap), SectionSeparator); all != [] && all[0] == '#'
  {
    var all := Join(Blocks(files, langMap), SectionSeparator);
    var h := SectionHeader(RelText(files[0]));
    SectionsStartWithFirstHeader(files, langMap);
    SectionHeaderShape(RelText(files[0]));
    assert all[0] == all[..|h|][0] == h[0];
  }

  /** Without the header, a report of at least one file begins with the
      first file's section header line, and so not with the title line. */
  lemma NoHeaderStartsWithFirstSection(files: seq<ProcessedFileData>, projectRoot: Path, langMap: map<string, string>)
    requires files != []
    ensures StartsWith(Document(files, projectRoot, langMap, false), SectionHeader(RelText(files[0])))
    ensures !StartsWith(Document(files, projectRoot, langMap, false), TitleLine(projectRoot))
  {
    DocumentWithoutHeader(files, projectRoot, langMap);
    FirstHeaderSurvivesStrip(files, langMap);
    var h := SectionHeader(RelText(files[0]));
    SectionHeaderShape(RelText(files[0]));
    HeaderLineShapes(|files|, projectRoot);
    var doc := Document(files, projectRoot, langMap, false);
    if StartsWith(doc, TitleLine(projectRoot)) {
      PrefixesAgree(doc, h, TitleLine(projectRoot), 1);
    }
  }

  lemma FirstHeaderSurvivesStrip(files: seq<ProcessedFileData>, langMap: map<string, string>)
    requires files != []
    ensures StartsWith(Strip(Join(Blocks(files, langMap), SectionSeparator)) + "\n", SectionHeader(RelText(files[0])))
  {
    var h := SectionHeader(RelText(files[0]));
    var all := Join(Blocks(files, langMap), SectionSeparator);
    SectionsStartWithFirstHeader(files, langMap);
    SectionHeaderShape(RelText(files[0]));
    assert all[0] == all[..|h|][0] == h[0];
    StripNewlineKeepsPrefix(all, h);
  }

  /** Without header and without files the report is a lone newline. */
  lemma EmptyReport(projectRoot: Path, langMap: map<string, string>)
    ensures Document([], projectRoot, langMap, false) == "\n"
  {
    assert MainParts([], projectRoot, langMap, false) == [];
  }

  /** Every processed file gets its section: the report contains the
      header line naming its relative path. */
  lemma EverySectionPresent(files: seq<ProcessedFileData>, projectRoot: Path, langMap: map<string, string>, generateHeader: bool, i: nat)
    requires i < |files|
    ensures Contains(Document(files, projectRoot, langMap, generateHeader), SectionHeader(RelText(files[i])))
  {
    SectionSurvivesStrip(files, projectRoot, langMap, generateHeader, i);
  }

  /** The header line of every section survives the stripping of the
      joined report parts. */
  lemma SectionSurvivesStrip(files: seq<ProcessedFileData>, projectRoot: Path, langMap: map<string, string>, generateHeader: bool, i: nat)
    requires i < |files|
    ensures Contains(Strip(Join(MainParts(files, projectRoot, langMap, generateHeader), "\n")) + "\n",
                     SectionHeader(RelText(files[i])))
  {
    var h := SectionHeader(RelText(files[i]));
    var joined := Join(MainParts(files, projectRoot, langMap, generateHeader), "\n");
    SectionInParts(files, projectRoot, langMap, generateHeader, i);
    SectionHeaderShape(RelText(files[i]));
    StripNewlineKeepsInner(joined, h);
  }

  /** The joined report parts hold every section's header line. */
  lemma SectionInParts(files: seq<ProcessedFileData>, projectRoot: Path, langMap: map<string, string>, generateHeader: bool, i: nat)
    requires i < |files|
    ensures Contains(Join(MainParts(files, projectRoot, langMap, generateHeader), "\n"), SectionHeader(RelText(files[i])))
  {
    var h := SectionHeader(RelText(files[i]));
    var all := Join(Blocks(files, langMap), SectionSeparator);
    var parts := MainParts(files, projectRoot, langMap, generateHeader);
    SectionInSections(files, langMap, i);
    assert parts[|parts| - 1] == all;
    JoinContainsPart(parts, "\n", |parts| - 1);
    ContainsWithin(Join(parts, "\n"), all, h);
  }

  /** The joined sections hold every section's header line. */
  lemma SectionInSections(files: seq<ProcessedFileData>, langMap: map<string, string>, i: nat)
    requires i < |files|
    ensures Contains(Join(Blocks(files, langMap), SectionSeparator), SectionHeader(RelText(files[i])))
  {
    var h := SectionHeader(RelText(files[i]));
    var blocks := Blocks(files, langMap);
    BlockStartsWithHeader(files[i], langMap);
    assert OccursAt(blocks[i], h, 0);
    ContainsAt(blocks[i], h);
    JoinContainsPart(blocks, SectionSeparator, i);
    ContainsWithin(Join(blocks, SectionSeparator), blocks[i], h);
  }

  /** A text file holding only whitespace is shown as empty. */
  lemma BlankFileShownEmpty(fd: ProcessedFileData, langMap: map<string, string>)
    requires fd.status == TextContent && fd.content.Some?
    requires forall i :: 0 <= i < |fd.content.value| ==> IsPySpace(fd.content.value[i])
    ensures RenderBlock(fd, langMap) == SectionHeader(RelText(fd)) + "\n" + "\n" + EmptyNotice
  {
    var head := SectionHeader(RelText(fd)) + "\n";
    assert Strip(fd.content.value) == [];
    assert SectionBody(fd, langMap) == Some(EmptyNotice);
    var parts := [head] + [EmptyNotice];
    assert parts[1..] == [EmptyNotice];
    assert Join(parts, "\n") == head + "\n" + EmptyNotice;
  }

  /** A failed file without a usable message gets the generic one. */
  lemma MissingMessageReplaced(fd: ProcessedFileData, langMap: map<string, string>)
    requires fd.status == ReadError || fd.status == SkippedAccessError
    requires fd.errorMessage == None || fd.errorMessage == Some("")
    ensures SectionBody(fd, langMap)
         == Some("`[WARNING] Could not process file '" + RelText(fd) + "'. Error: An unknown error occurred.`")
  {
    var x := "`[WARNING] Could not process file '" + RelText(fd);
    var t1 := "'. Error: " + UnknownError + "`";
    var t2 := "'. Error: An unknown error occurred.`";
    assert |t1| == |t2|;
    assert forall k :: 0 <= k < |t1| ==> t1[k] == t2[k];
    assert t1 == t2;
    assert ErrorText(fd.errorMessage) == UnknownError;
    assert SectionBody(fd, langMap) == Some(x + "'. Error: " + UnknownError + "`");
    assert x + "'. Error: " + UnknownError + "`" == x + t1;
    assert "`[WARNING] Could not process file '" + RelText(fd) + "'. Error: An unknown error occurred.`" == x + t2;
  }
}
