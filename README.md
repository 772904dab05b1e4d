# codecat, modelled in Dafny

codecat walks a project directory and selects files by include and exclude
globs, directory names and a size limit. It reads each selected file and
classifies it as empty text, text (UTF-8 first, then Windows-1252, with line
endings normalised), binary (too many NUL bytes) or unreadable. It then writes
one Markdown report with a title, a summary line and one fenced section per
file. A JSON configuration file and command-line flags adjust the defaults.

This project models the four pieces of logic behind that pipeline, and
proves what each promises:

- `FileScanner.dfy` models the exclude and include predicates, the per-file checks and the
  top-down walk with pruning (`scan_project`).
  - The walk runs over a tree datatype: a file carries an optional size, where `None` means
    `stat` failed.
  - It is a loop over a work stack.
  - Its result is proved equal, as a set, to a recursive specification, and strictly sorted.
- `Glob.dfy` models `fnmatch`: pattern translation to tokens, and a recursive matcher for
  `*`, `?`, `[...]` and `[!...]`.
- `Paths.dfy` holds paths as component lists. Python orders `Path` objects by their parts;
  the ordering is proved strict and total.
- `FileProcessor.dfy` models `ProcessedFileData`, the NUL-byte heuristic, the decode loop, the
  decode-failure record and `process_file`.
  - The OS read is an input `Result`.
  - A raised exception is the `Err` side of the result.
- `TextCodecs.dfy` models strict UTF-8 as in RFC 3629 section 4. It has Python's error
  reasons and positions, and the encode/decode round trips are proved. It also models
  Python's strict `cp1252` codec, with its five undefined bytes.
- `LineEndings.dfy` models `"\n".join(s.splitlines())` with Python's full set of line
  boundaries. It is proved equal to "replace every boundary by `\n`, then drop one final
  `\n`".
- `MarkdownGenerator.dfy` models the language hint, the dynamic fence (proved the shortest
  backtick run of length at least 3 absent from the content) and `generate_markdown`.
- `Config.dfy` models the default table, comment-key filtering, the user-file merge and the
  command-line overrides.
  - The parsed JSON file is an input `Option<map>`.
  - The dictionary that `load_config` updates in place is a class.
- `Common.dfy` holds shared string helpers: ASCII lower-casing, prefix/suffix/substring,
  Python's `str.strip` whitespace, and `str.join`.

`scan_project` sorts `Path` objects, and Python compares them part by part, so
`a/b` sorts before `a-b`. The model uses that order.

## Model

| member | source | states |
|---|---|---|
| Common.Lower | src/codecat/file_scanner.py:27-29 | ASCII lower-casing, character by character; lower-casing twice changes nothing (`LowerIdempotent`) |
| Common.Strip | src/codecat/markdown_generator.py:72 | `str.strip()`: empty exactly when every character is Python whitespace, and otherwise begins and ends with a non-space character |
| Common.TrimLeftRemovesOnlyWhitespace | src/codecat/markdown_generator.py:72 | every character the left trim drops is Python whitespace |
| Common.TrimRightRemovesOnlyWhitespace | src/codecat/markdown_generator.py:72 | every character the right trim drops is Python whitespace |
| Common.StripRemovesOnlyWhitespace | src/codecat/markdown_generator.py:94 | `str.strip()` returns a contiguous slice of its input, and every character outside that slice is Python whitespace; with `Common.Strip`, the slice is the longest one that does not begin or end with whitespace |
| Glob.PlainPatternMatchesItself | src/codecat/file_scanner.py:30 | a pattern without `*`, `?` or `[` matches exactly the string equal to it |
| Glob.StarMatchesEverything | src/codecat/file_scanner.py:30 | `*` matches every string, `/` included |
| Glob.SuffixPattern | src/codecat/file_scanner.py:30 | `*.ext` (plain suffix) matches exactly the names ending with that suffix |
| Glob.PrefixPattern | src/codecat/file_scanner.py:30 | `venv*` (plain prefix) matches exactly the names starting with that prefix |
| Glob.MatchesLiterals | src/codecat/file_scanner.py:30 | a run of literal tokens matches a prefix of the name and the rest matches the remaining tokens |
| Paths.PathLtTotal | src/codecat/file_scanner.py:184 | the part-wise path order is total on distinct paths (with `PathLtIrreflexive` and `PathLtTransitive`, a strict total order) |
| Paths.PathLtTransitive | src/codecat/file_scanner.py:184 | the part-wise path order is transitive |
| Paths.InsertSorted | src/codecat/file_scanner.py:184 | inserting a new path into a strictly ascending list keeps it strictly ascending and adds exactly that path |
| Paths.StrictlySortedHasNoDuplicates | src/codecat/file_scanner.py:184 | a strictly ascending list has no duplicates |
| FileScanner.RStripSlashStar | src/codecat/file_scanner.py:34 | `rstrip("/*")`: a prefix of the input that ends in neither `/` nor `*`, with only `/` and `*` removed |
| FileScanner.IsPathExcludedByPattern | src/codecat/file_scanner.py:23-40 | excluded iff some pattern, case-folded with the path, glob-matches it, or (pattern ending `/` or `/*`) prefixes it once stripped and given a `/`, or (other patterns) prefixes it followed by `/` |
| FileScanner.IsPathIncludedByPattern | src/codecat/file_scanner.py:43-55 | included iff the pattern list is empty or some case-folded pattern glob-matches the case-folded path |
| FileScanner.MatchingIgnoresCase | src/codecat/file_scanner.py:27-29 | with case-insensitive matching, neither predicate changes when path or patterns change only in letter case |
| FileScanner.DirectoryPatternExcludesNested | src/codecat/file_scanner.py:33-36 | a pattern ending `/` or `/*` excludes every path under its stripped prefix |
| FileScanner.BarePatternExcludesNested | src/codecat/file_scanner.py:37-39 | any other pattern excludes every path under `pattern/` |
| FileScanner.PassesFileSpecificChecks | src/codecat/file_scanner.py:58-93 | fails for an explicitly excluded file or a failed `stat`; otherwise passes iff size is at most the byte limit |
| FileScanner.SelectedSound | src/codecat/file_scanner.py:120-176 | every selected path is the project path plus a file of the tree that lies under no pruned directory and passed all four file checks |
| FileScanner.SelectedComplete | src/codecat/file_scanner.py:120-176 | every file of the tree under no pruned directory that passes all four checks is selected |
| FileScanner.ExcludeWins | src/codecat/file_scanner.py:157-165 | a file matching an exclude pattern is never selected, whatever the include patterns say |
| FileScanner.ExcludedDirectoryIsPruned | src/codecat/file_scanner.py:136-142 | no file below a directory whose name or relative path is in `exclude_dirs` is selected |
| FileScanner.SizeBoundary | src/codecat/file_scanner.py:117 | a file otherwise selected is selected iff its size is at most `max_file_size_kb * 1024` |
| FileScanner.SelectedSplits | src/codecat/file_scanner.py:130-176 | one directory's selection is its own accepted files plus the selections of its kept subdirectories |
| FileScanner.PruneDirs | src/codecat/file_scanner.py:130-145 | the kept child directories are exactly those not pruned, in order |
| FileScanner.KeepFiles | src/codecat/file_scanner.py:147-176 | the accepted files of one directory are exactly those passing the exclude, include and per-file checks |
| FileScanner.SortPaths | src/codecat/file_scanner.py:184 | the returned list is strictly ascending, holds exactly the found paths, and has their number |
| FileScanner.ScanProject | src/codecat/file_scanner.py:99-184 | the result is strictly ascending and contains exactly the paths of the recursive specification of the walk |
| TextCodecs.DecodeErrorText | src/codecat/file_processor.py:94 | the text of a `UnicodeDecodeError` begins `'<codec>' codec can't decode ` |
| TextCodecs.DecodeUtf8 | src/codecat/file_processor.py:68 | strict UTF-8 decoding; an error lies within the input and names `utf-8` |
| TextCodecs.DecodeEncodeUtf8 | src/codecat/file_processor.py:68 | decoding the UTF-8 encoding of any string gives the string back |
| TextCodecs.EncodeDecodedUtf8 | src/codecat/file_processor.py:68 | bytes that decode are the encoding of what they decode to, so strict decoding accepts only canonical UTF-8 |
| TextCodecs.AsciiDecodes | src/codecat/file_processor.py:68 | ASCII bytes decode one character per byte |
| TextCodecs.InvalidStartByte | src/codecat/file_processor.py:68 | a leading byte 0x80-0xC1 or above 0xF4 fails with `invalid start byte` at position 0 |
| TextCodecs.Cp1252Char | src/codecat/file_processor.py:33 | a byte has no cp1252 character iff it is one of the five undefined bytes; bytes outside 0x80-0x9F map to themselves |
| TextCodecs.DecodeCp1252 | src/codecat/file_processor.py:68 | strict cp1252 decoding; a failure lies within the input and names the `charmap` codec |
| TextCodecs.DecodeCp1252Ok | src/codecat/file_processor.py:68 | succeeds iff no byte is one of the five undefined ones, and then decodes byte by byte through the table |
| TextCodecs.DecodeCp1252Err | src/codecat/file_processor.py:68 | a failure is at the first undefined byte, spans one byte and reads `character maps to <undefined>` |
| LineEndings.SplitLines | src/codecat/file_processor.py:71 | `splitlines()`: empty iff the text is, each line free of boundaries |
| LineEndings.NormalizeReplacesBreaks | src/codecat/file_processor.py:71 | joining the lines with `\n` equals replacing every boundary (`\r\n` as one) by `\n` and dropping one final `\n` |
| LineEndings.OnlyNewlinesRemain | src/codecat/file_processor.py:71 | after normalisation `\n` is the only line boundary left, so no `\r` remains |
| LineEndings.BreakFreeUnchanged | src/codecat/file_processor.py:71 | text without boundaries is left unchanged |
| LineEndings.FinalBreakDropped | src/codecat/file_processor.py:71 | a single trailing boundary of any kind is dropped |
| FileProcessor.CountNulls | src/codecat/file_processor.py:48 | the NUL count is at most the chunk length |
| FileProcessor.IsLikelyBinaryByNulls | src/codecat/file_processor.py:41-51 | an empty chunk is not binary; otherwise binary iff NUL bytes are more than 10 percent of it |
| FileProcessor.NullExtremes | src/codecat/file_processor.py:41-51 | a chunk without NUL bytes is never binary, a non-empty all-NUL chunk always is |
| FileProcessor.ThresholdIsStrict | src/codecat/file_processor.py:50 | for every chunk: NUL bytes making up at most 10 percent (exactly 10 included) is not binary, more than 10 percent is |
| FileProcessor.OneNulInTenOrNine | src/codecat/file_processor.py:50 | an example of that boundary: one NUL among ten bytes is not binary, one among nine is |
| FileProcessor.TryDecodeBytes | src/codecat/file_processor.py:54-75 | UTF-8 is tried first and cp1252 second; the first success gives normalised content and its encoding name; when both fail the last (cp1252) error is returned |
| FileProcessor.UndecodableMeansUndefinedByte | src/codecat/file_processor.py:66-75 | bytes that neither encoding accepts contain one of cp1252's undefined bytes |
| FileProcessor.Utf8TextDecodes | src/codecat/file_processor.py:66-72 | the UTF-8 bytes of any text decode, and to that text up to line endings |
| FileProcessor.EncodingsTried | src/codecat/file_processor.py:90 | the list of encodings joined by `, ` is `utf-8, cp1252` |
| FileProcessor.DecodeFailureMessage | src/codecat/file_processor.py:90-95 | the message begins `Failed to decode as text using [utf-8, cp1252].`, followed by the last error's type and text when there is one |
| FileProcessor.HandleDecodeFailure | src/codecat/file_processor.py:78-102 | with `stop_on_error` and an error the error is raised; otherwise a `read_error` record carrying that message |
| FileProcessor.RelativeTo | src/codecat/file_processor.py:121-124 | the path relative to the project path, or the bare file name when the file is not under it |
| FileProcessor.ProcessFile | src/codecat/file_processor.py:108-169 | in order: OS error (raise or `skipped_access_error`), empty (`""`, `utf-8`), binary by the first 4096 bytes, UTF-8, cp1252, then raise or `read_error`; every record is well formed |
| MarkdownGenerator.Suffix | src/codecat/markdown_generator.py:27 | `PurePath.suffix`: empty, or a dot-led ending of the name with no other dot, shorter than the name |
| MarkdownGenerator.HintFromName | src/codecat/markdown_generator.py:24-25 | a file name whose lower-cased form is mapped takes that entry, whatever its extension |
| MarkdownGenerator.HintFromExtension | src/codecat/markdown_generator.py:24-27 | a `stem.ext` name not itself mapped takes the hint of its lower-cased extension, or `text` |
| MarkdownGenerator.HintIgnoresCase | src/codecat/markdown_generator.py:24-27 | two names equal up to letter case get the same hint |
| MarkdownGenerator.FenceLenFrom | src/codecat/markdown_generator.py:30-41 | the fence length is at least three, its backtick run is absent from the content, and every shorter run of three or more occurs in it |
| MarkdownGenerator.DynamicFence | src/codecat/markdown_generator.py:30-41 | the loop returns the shortest absent backtick run of length three or more, which is the fence the section uses |
| MarkdownGenerator.FenceLenBound | src/codecat/markdown_generator.py:38-41 | the fence is at most three backticks long, or at most one longer than the content |
| MarkdownGenerator.ClosingFenceIsFirst | src/codecat/markdown_generator.py:77 | after the content the first occurrence of the fence is the closing one |
| MarkdownGenerator.ErrorText | src/codecat/markdown_generator.py:83 | a present non-empty message is kept, otherwise a non-empty fallback |
| MarkdownGenerator.BlockStartsWithHeader | src/codecat/markdown_generator.py:67-88 | every section starts with its `## File:` header line |
| MarkdownGenerator.Blocks | src/codecat/markdown_generator.py:65-88 | one section per file, in input order |
| MarkdownGenerator.Document | src/codecat/markdown_generator.py:94 | the report ends in exactly one newline, preceded by a non-space character |
| MarkdownGenerator.RenderFileBlock | src/codecat/markdown_generator.py:67-88 | the loop body builds exactly that file's section |
| MarkdownGenerator.RenderBlocks | src/codecat/markdown_generator.py:65-88 | the loop builds the sections of all files in order |
| MarkdownGenerator.GenerateMarkdown | src/codecat/markdown_generator.py:44-94 | the method returns the report specified by `Document` |
| MarkdownGenerator.HeaderLinesComeFirst | src/codecat/markdown_generator.py:58-63 | with the header on, the report begins with the title line, a newline and the summary line ``Generated from `N` files found in `path`.`` with N the number of files |
| MarkdownGenerator.HeaderOnlyReport | src/codecat/markdown_generator.py:58-63 | with the header on and no files, the report is exactly the title line, a newline and the summary line |
| MarkdownGenerator.NoHeaderStartsWithFirstSection | src/codecat/markdown_generator.py:58-63 | with the header off and at least one file, the report begins with the first file's `## File:` line, and so not with the title line |
| MarkdownGenerator.EmptyReport | src/codecat/markdown_generator.py:90-94 | no header and no files give a lone newline |
| MarkdownGenerator.EverySectionPresent | src/codecat/markdown_generator.py:66-91 | the report contains every file's section header |
| MarkdownGenerator.BlankFileShownEmpty | src/codecat/markdown_generator.py:72-73 | whitespace-only text renders as `_(File is empty)_` |
| MarkdownGenerator.MissingMessageReplaced | src/codecat/markdown_generator.py:82-86 | an error with no or an empty message reads `An unknown error occurred.` |
| Config.DropComments | src/codecat/config.py:242 | keeps exactly the keys not starting with `_`, with their values |
| Config.LoadUserConfig | src/codecat/config.py:148-173 | loaded iff parsed; the loaded map holds exactly the non-comment keys of the file |
| Config.ConfigPathToLoad | src/codecat/config.py:214-216 | the override path when given, else the project path with `.codecat_config.json` appended |
| Config.WithCliOverrides | src/codecat/config.py:176-195 | each override that is set (lists only when non-empty, header only when exactly true) replaces its entry; no other key changes and no other key is added |
| Config.ApplyCliOverrides | src/codecat/config.py:176-195 | updates the dictionary in place to exactly those overrides |
| Config.EffectiveConfig | src/codecat/config.py:198-244 | no comment key; keys are the defaults' plus the overridden ones; set overrides win over the user file |
| Config.LoadConfig | src/codecat/config.py:198-244 | returns the effective configuration, whether the file loaded, and the path used |
| Config.UserValueReplacesDefault | src/codecat/config.py:228-230 | a known user key's value replaces the default wholesale unless an override writes it |
| Config.UnknownUserKeyIgnored | src/codecat/config.py:228-230 | a user key absent from the defaults is dropped |
| Config.DefaultKept | src/codecat/config.py:228-230 | a default the user file and the overrides leave alone is kept |
| Config.HintsMerged | src/codecat/config.py:223-226 | user language hints are merged entry by entry into the defaults |
| Config.NonDictHintsDiscarded | src/codecat/config.py:224-226 | a user `language_hints` that is not a dictionary leaves the default table |
| Config.NoUserFile | src/codecat/config.py:211-244 | without a loadable file the result is the defaults plus overrides, comment keys dropped |
| Config.DefaultConfigFacts | src/codecat/config.py:24-145 | the default table has a hint dictionary, header on, `stop_on_error` off, 1024 KB limit and `codecat_output.md` output |

Some definitions carry no contract of their own. The lemmas and methods in the
rows above state their properties:

- `Glob.Translate` and `Glob.Fnmatch` (src/codecat/file_scanner.py:30) turn a
  pattern into tokens and match them. The `Glob` lemmas state what common
  pattern shapes match.
- `FileScanner.DirPruned` (src/codecat/file_scanner.py:136-142) and
  `FileScanner.FileSelected` (src/codecat/file_scanner.py:157-165) are the walk's
  tests. `PruneDirs`, `KeepFiles`, `SelectedSound`, `SelectedComplete`,
  `ExcludeWins` and `ExcludedDirectoryIsPruned` state what they keep.
- `LineEndings.Normalize` (src/codecat/file_processor.py:71) is
  `"\n".join(s.splitlines())`. `NormalizeReplacesBreaks` and the lemmas after it
  state what it does.
- `FileProcessor.OsErrorMessage` (src/codecat/file_processor.py:130) is the
  message of an `OSError` record. `ProcessFile` states where it is used.
- `MarkdownGenerator.LanguageHint` (src/codecat/markdown_generator.py:18-27) is
  described by `HintFromName`, `HintFromExtension` and `HintIgnoresCase`.
- `MarkdownGenerator.SectionBody` and `MarkdownGenerator.RenderBlock`
  (src/codecat/markdown_generator.py:67-88) are one file's section. They are
  described by `BlockStartsWithHeader`, `BlankFileShownEmpty`,
  `MissingMessageReplaced` and `RenderFileBlock`.
- `Config.MergeHints` and `Config.AssignKnown` (src/codecat/config.py:223-230) are
  the two steps of the user-file merge. `HintsMerged`, `NonDictHintsDiscarded`,
  `UserValueReplacesDefault`, `UnknownUserKeyIgnored` and `DefaultKept` state
  their effect.

## Left out

- The command-line application is not part of this model. That covers Typer wiring, Rich
  output, the thread pool, the sorting of results for display, status counts and the
  statistics with their float percentage.
- Logging is not modelled: the verbose `typer.secho` messages, the status indicator and the
  notice printed for an unparsable configuration file.
- The real filesystem is not modelled. The model takes `os.walk` as a tree value, `stat` as
  an optional size, `read_bytes` as a `Result` input, and JSON parsing plus file existence
  as an optional parsed map.
- `Path.resolve()` and symlinks are not modelled.
  - The set of resolved `exclude_files` paths is an input.
  - A file's absolute path is the project path plus its relative path.
  - A resolved path outside the project path, which makes `relative_to` raise, is not
    modelled.
- The extraction of the scan settings from the configuration dictionary is not modelled
  (src/codecat/file_scanner.py:111-118). That covers `.get` with its defaults and the
  resolution of `exclude_files`. `FileScanner.ScanProject` takes the resulting
  `ScanConfig` as an input.
- `FileScanner.ScanProject`: the model visits directories from a work stack, not in
  `os.walk` order. The collected set is the same, and the result is sorted, so order is
  not observable.
- `Common.Lower`: only ASCII letters are lower-cased. Unicode `str.lower()` and
  `os.path.normcase` inside `fnmatch` are not modelled.
- `Glob.Fnmatch`: the model matches the tokens of the translated pattern. It does not
  model Python's regular-expression engine or the `fnmatch` cache.
- `FileProcessor.IsLikelyBinaryByNulls`: the source compares the float
  `nulls / len * 100 > 10.0`, and the model compares the integers `10 * nulls > len`.
  With at most 4096 bytes the float rounding cannot change the outcome.
- Only the `UnicodeDecodeError` and `OSError` that `process_file` handles are raised
  values. Other exceptions are not modelled. That includes the `AttributeError` a
  configuration file whose JSON is not an object would cause.
- `Config.LoadUserConfig`: `load_user_config` catches only `json.JSONDecodeError` and
  `IOError` (src/codecat/config.py:158-166). A configuration file that is not valid UTF-8
  makes it raise `UnicodeDecodeError` out of `load_config`. The model's input
  `Option<map>` cannot express that; such a file can only appear as "not loaded".
- `Config.Value` has no floating-point variant. A user file holding a JSON number with a
  fraction or exponent, such as `"max_file_size_kb": 1.5`, cannot be expressed.
- `Config.LoadConfig`: `copy.deepcopy` is modelled by value semantics. The defaults are an
  immutable map, so they cannot be changed by the merge.
- `Config.DefaultConfig` holds the default table. `Config.LoadConfig` takes the defaults as
  a parameter, and requires only that they hold a `language_hints` dictionary, as the
  default table does.
