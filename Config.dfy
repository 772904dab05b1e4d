/** Codecat's configuration: a default table, an optional user file whose
    keys may replace the defaults, and command-line overrides applied last.
    Keys starting with `_` are comments and never reach the application. */
module Config {
  import opened Common
  import opened Paths

  /** A parsed JSON value. */
  datatype Value =
    | Null
    | Bool(b: bool)
    | Int(i: int)
    | Str(s: string)
    | List(items: seq<Value>)
    | Dict(entries: map<string, Value>)

  type ConfigMap = map<string, Value>

  const DefaultConfigFilename: string := ".codecat_config.json"
  const DefaultOutputFilename: string := "codecat_output.md"

  const OutputFileKey: string := "output_file"
  const IncludePatternsKey: string := "include_patterns"
  const ExcludePatternsKey: string := "exclude_patterns"
  const GenerateHeaderKey: string := "generate_header"
  const LanguageHintsKey: string := "language_hints"

  /** A JSON list of strings. */
  function StrList(ps: seq<string>): (v: Value)
    ensures v.List? && |v.items| == |ps|
    ensures forall i :: 0 <= i < |ps| ==> v.items[i] == Str(ps[i])
  {
    List(seq(|ps|, i requires 0 <= i < |ps| => Str(ps[i])))
  }

  function StrMap(m: map<string, string>): (v: Value)
    ensures v.Dict? && v.entries.Keys == m.Keys
    ensures forall k :: k in m ==> v.entries[k] == Str(m[k])
  {
    Dict(map k | k in m :: Str(m[k]))
  }

  /** `DEFAULT_CONFIG`, comment entries included. */
  const DefaultConfig: ConfigMap := map[
    "_comment_main" := Str("This is the default configuration for Codecat. You can customize it for your project."),
    "output_file" := Str(DefaultOutputFilename),
    "_comment_patterns" := Str("Use glob patterns (like *.py, src/*) to control which files are included or excluded."),
    "include_patterns" := StrList([
      "*.py", "*.pyw", "*.java", "*.js", "*.ts", "*.html", "*.css", "*.scss", "*.go", "*.rs",
      "*.c", "*.cpp", "*.h", "*.hpp", "*.cs", "*.sh", "*.ps1", "*.rb", "*.php", "*.sql",
      "*.json", "*.xml", "*.yml", "*.yaml", "*.toml", "*.ini", "*.cfg", "*.md", "*.txt",
      "Dockerfile", ".dockerignore", ".gitignore", ".flake8"]),
    "exclude_patterns" := StrList([
      "__pycache__", "*.pyc", "*.pyo", "*.pyd", "*.so", "*.egg-info", "*.dist-info", "*.log",
      "*.tmp", "*.bak", "*.swp", "*.lock", ".DS_Store", "Thumbs.db", "venv", "venv*", ".venv",
      ".*env*"]),
    "_comment_dirs" := Str("List specific directory names to exclude entirely from the scan."),
    "exclude_dirs" := StrList([
      ".git", ".hg", ".svn", ".vscode", ".idea", ".pytest_cache", "node_modules", "vendor",
      "target", "build", "dist", "docs", "site", "__pycache__", "tests", "test"]),
    "_comment_files" := Str("List specific, exact file names to exclude."),
    "exclude_files" := StrList(["codecat_config.json", "codecat_output.md"]),
    "_comment_settings" := Str("General application settings."),
    "max_file_size_kb" := Int(1024),
    "stop_on_error" := Bool(false),
    "generate_header" := Bool(true),
    "_comment_languages" := Str("Map file extensions to language hints for Markdown code blocks."),
    "language_hints" := StrMap(map[
      ".py" := "python", ".pyw" := "python", ".java" := "java", ".js" := "javascript",
      ".ts" := "typescript", ".html" := "html", ".css" := "css", ".scss" := "scss",
      ".go" := "go", ".rs" := "rust", ".c" := "c", ".cpp" := "cpp", ".h" := "c",
      ".hpp" := "cpp", ".cs" := "csharp", ".sh" := "bash", ".ps1" := "powershell",
      ".rb" := "ruby", ".php" := "php", ".sql" := "sql", ".json" := "json", ".xml" := "xml",
      ".yml" := "yaml", ".yaml" := "yaml", ".toml" := "toml", ".ini" := "ini", ".cfg" := "ini",
      ".md" := "markdown", ".txt" := "text", ".dockerfile" := "dockerfile",
      "dockerfile" := "dockerfile", ".gitignore" := "text", ".dockerignore" := "text",
      ".flake8" := "ini"])
  ]

  /** The default table holds a `language_hints` dictionary, which the
      merge of a user file updates in place. */
  predicate HasHintsTable(c: ConfigMap)
  {
    LanguageHintsKey in c && c[LanguageHintsKey].Dict?
  }

  // ---------------------------------------------------------------------
  // Comment keys
  // ---------------------------------------------------------------------

  predicate IsCommentKey(k: string)
  {
    StartsWith(k, "_")
  }

  /** `{k: v for k, v in d.items() if not k.startswith("_")}`. */
  function DropComments(m: ConfigMap): (r: ConfigMap)
    ensures forall k :: k in r <==> k in m && !IsCommentKey(k)
    ensures forall k :: k in r ==> r[k] == m[k]
  {
    map k | k in m && !IsCommentKey(k) :: m[k]
  }

  /** `_load_user_config_from_file`, given the outcome of reading and
      parsing the file (`None` when it is missing, unreadable or not valid
      JSON): the parsed object without its comment keys, and whether it
      was loaded. */
  function LoadUserConfig(parsed: Option<ConfigMap>): (r: (Option<ConfigMap>, bool))
    ensures r.1 <==> parsed.Some?
    ensures r.0.Some? <==> parsed.Some?
    ensures r.0.Some? ==> forall k :: k in r.0.value <==> k in parsed.value && !IsCommentKey(k)
    ensures r.0.Some? ==> forall k :: k in r.0.value ==> r.0.value[k] == parsed.value[k]
  {
    match parsed
    case None => (None, false)
    case Some(data) => (Some(DropComments(data)), true)
  }

  /** `config_file_path_override or project_path / DEFAULT_CONFIG_FILENAME`
      (a `Path` is never falsy, so any override is used). */
  function ConfigPathToLoad(projectPath: Path, configPathOverride: Option<Path>): (p: Path)
    ensures configPathOverride.Some? ==> p == configPathOverride.value
    ensures configPathOverride.None? ==> |p| == |projectPath| + 1 && p[..|projectPath|] == projectPath
                                         && Name(p) == DefaultConfigFilename
  {
    if configPathOverride.Some? then configPathOverride.value
    else
      var p := projectPath + [DefaultConfigFilename];
      assert p[..|projectPath|] == projectPath;
      p
  }

  // ---------------------------------------------------------------------
  // Command-line overrides
  // ---------------------------------------------------------------------

  datatype CliOverrides = CliOverrides(
    outputFile: Option<string>,
    includePatterns: Option<seq<string>>,
    excludePatterns: Option<seq<string>>,
    noHeader: Option<bool>)

  /** Python truthiness of an optional list. */
  predicate NonEmptyList(o: Option<seq<string>>)
  {
    o.Some? && o.value != []
  }

  /** The keys the overrides write. */
  function CliKeys(cli: CliOverrides): (ks: set<string>)
  {
    (if cli.outputFile.Some? then {OutputFileKey} else {})
    + (if NonEmptyList(cli.includePatterns) then {IncludePatternsKey} else {})
    + (if NonEmptyList(cli.excludePatterns) then {ExcludePatternsKey} else {})
    + (if cli.noHeader == Some(true) then {GenerateHeaderKey} else {})
  }

  /** The table after `_apply_cli_overrides`: each override that is set
      (the lists only when non-empty, the header flag only when exactly
      true) replaces its entry, and nothing else changes. */
  function WithCliOverrides(c: ConfigMap, cli: CliOverrides): (r: ConfigMap)
    ensures r.Keys == c.Keys + CliKeys(cli)
    ensures forall k :: k in c && k !in CliKeys(cli) ==> r[k] == c[k]
    ensures cli.outputFile.Some? ==> r[OutputFileKey] == Str(cli.outputFile.value)
    ensures NonEmptyList(cli.includePatterns) ==> r[IncludePatternsKey] == StrList(cli.includePatterns.value)
    ensures NonEmptyList(cli.excludePatterns) ==> r[ExcludePatternsKey] == StrList(cli.excludePatterns.value)
    ensures cli.noHeader == Some(true) ==> r[GenerateHeaderKey] == Bool(false)
  {
    var c1 := if cli.outputFile.Some? then c[OutputFileKey := Str(cli.outputFile.value)] else c;
    var c2 := if NonEmptyList(cli.includePatterns) then c1[IncludePatternsKey := StrList(cli.includePatterns.value)] else c1;
    var c3 := if NonEmptyList(cli.excludePatterns) then c2[ExcludePatternsKey := StrList(cli.excludePatterns.value)] else c2;
    if cli.noHeader == Some(true) then c3[GenerateHeaderKey := Bool(false)] else c3
  }

  /** The dictionary `load_config` builds and updates in place. */
  class ConfigDict {
    var entries: ConfigMap

    constructor (m: ConfigMap)
      ensures entries == m
    {
      entries := m;
    }
  }

  /** `_apply_cli_overrides`: updates the dictionary in place. */
  method ApplyCliOverrides(config: ConfigDict, cli: CliOverrides)
    modifies config
    ensures config.entries == WithCliOverrides(old(config.entries), cli)
  {
    if cli.outputFile.Some? {
      config.entries := config.entries[OutputFileKey := Str(cli.outputFile.value)];
    }
    if cli.includePatterns.Some? && cli.includePatterns.value != [] {
      config.entries := config.entries[IncludePatternsKey := StrList(cli.includePatterns.value)];
    }
    if cli.excludePatterns.Some? && cli.excludePatterns.value != [] {
      config.entries := config.entries[ExcludePatternsKey := StrList(cli.excludePatterns.value)];
    }
    if cli.noHeader == Some(true) {
      config.entries := config.entries[GenerateHeaderKey := Bool(false)];
    }
  }

  // ---------------------------------------------------------------------
  // Merging a user file
  // ---------------------------------------------------------------------

  /** `language_hints` updated with a user dictionary; any other user value
      is discarded. */
  function MergeHints(c: ConfigMap, userHints: Option<Value>): ConfigMap
    requires HasHintsTable(c)
  {
    if userHints.Some? && userHints.value.Dict? then
      c[LanguageHintsKey := Dict(c[LanguageHintsKey].entries + userHints.value.entries)]
    else c
  }

  /** The user's value for every key the table already has. */
  function AssignKnown(c: ConfigMap, user: ConfigMap): ConfigMap
  {
    map k | k in c :: if k in user then user[k] else c[k]
  }

  /** The table after the user file has been applied. An empty user object
      is falsy and applies nothing. */
  function MergeUser(defaults: ConfigMap, userData: Option<ConfigMap>): ConfigMap
    requires HasHintsTable(defaults)
  {
    if userData.Some? && userData.value != map[] then
      var user := userData.value;
      var hints := if LanguageHintsKey in user then Some(user[LanguageHintsKey]) else None;
      AssignKnown(MergeHints(defaults, hints), user - {LanguageHintsKey})
    else defaults
  }

  /** The configuration `load_config` returns for a parse outcome of the
      user file and a set of command-line overrides. */
  function EffectiveConfig(defaults: ConfigMap, parsed: Option<ConfigMap>, cli: CliOverrides): (r: ConfigMap)
    requires HasHintsTable(defaults)
    ensures forall k :: k in r ==> !IsCommentKey(k)
    ensures forall k :: k in r <==> (k in defaults || k in CliKeys(cli)) && !IsCommentKey(k)
    ensures cli.outputFile.Some? ==> OutputFileKey in r && r[OutputFileKey] == Str(cli.outputFile.value)
    ensures NonEmptyList(cli.includePatterns) ==>
              IncludePatternsKey in r && r[IncludePatternsKey] == StrList(cli.includePatterns.value)
    ensures NonEmptyList(cli.excludePatterns) ==>
              ExcludePatternsKey in r && r[ExcludePatternsKey] == StrList(cli.excludePatterns.value)
    ensures cli.noHeader == Some(true) ==> GenerateHeaderKey in r && r[GenerateHeaderKey] == Bool(false)
  {
    var merged := MergeUser(defaults, LoadUserConfig(parsed).0);
    assert merged.Keys == defaults.Keys;
    assert OutputFileKey[0] != '_' && IncludePatternsKey[0] != '_';
    assert ExcludePatternsKey[0] != '_' && GenerateHeaderKey[0] != '_';
    DropComments(WithCliOverrides(merged, cli))
  }

  /** `load_config`: deep-copies the defaults, applies the user file (hint
      dictionary merged, known keys replaced, unknown keys ignored), then
      the command-line overrides, and drops comment keys. The parse outcome
      of the file at the returned path is an input. */
  method LoadConfig(defaults: ConfigMap, projectPath: Path, configPathOverride: Option<Path>,
                    parsed: Option<ConfigMap>, cli: CliOverrides)
    returns (finalConfig: ConfigMap, userConfigLoaded: bool, configPathUsed: Path)
    requires HasHintsTable(defaults)
    ensures finalConfig == EffectiveConfig(defaults, parsed, cli)
    ensures userConfigLoaded <==> parsed.Some?
    ensures configPathUsed == ConfigPathToLoad(projectPath, configPathOverride)
  {
    var effective := new ConfigDict(defaults);
    configPathUsed := if configPathOverride.Some? then configPathOverride.value
                      else projectPath + [DefaultConfigFilename];
    var loadResult := LoadUserConfig(parsed);
    var userConfigData := loadResult.0;
    userConfigLoaded := loadResult.1;

    if userConfigLoaded && userConfigData.Some? && userConfigData.value != map[] {
      var user := userConfigData.value;
      var userHints := if LanguageHintsKey in user then Some(user[LanguageHintsKey]) else None;
      user := user - {LanguageHintsKey};
      if userHints.Some? && userHints.value.Dict? {
        var hints := effective.entries[LanguageHintsKey].entries;
        effective.entries := effective.entries[LanguageHintsKey := Dict(hints + userHints.value.entries)];
      }
      ghost var base := effective.entries;
      assert base == MergeHints(defaults, userHints);

      var keys := user.Keys;
      while keys != {}
        invariant keys <= user.Keys
        invariant effective.entries.Keys == base.Keys
        invariant forall k :: k in base ==>
          effective.entries[k] == (if k in user && k !in keys then user[k] else base[k])
        decreases keys
      {
        var key :| key in keys;
        if key in effective.entries {
          effective.entries := effective.entries[key := user[key]];
        }
        keys := keys - {key};
      }
      assert effective.entries == AssignKnown(base, user);
    }

    ApplyCliOverrides(effective, cli);
    finalConfig := DropComments(effective.entries);
  }

  // ---------------------------------------------------------------------
  // Precedence
  // ---------------------------------------------------------------------

  /** A user value replaces the default wholesale when the key is known and
      no command-line override writes it. */
  lemma UserValueReplacesDefault(defaults: ConfigMap, user: ConfigMap, cli: CliOverrides, k: string)
    requires HasHintsTable(defaults)
    requires k in user && k in defaults && k != LanguageHintsKey
    requires !IsCommentKey(k) && k !in CliKeys(cli)
    ensures k in EffectiveConfig(defaults, Some(user), cli)
    ensures EffectiveConfig(defaults, Some(user), cli)[k] == user[k]
  {
    var data := LoadUserConfig(Some(user)).0.value;
    assert k in data;
    var hints := if LanguageHintsKey in data then Some(data[LanguageHintsKey]) else None;
    assert MergeUser(defaults, Some(data)) == AssignKnown(MergeHints(defaults, hints), data - {LanguageHintsKey});
  }

  /** A user key the defaults do not have never appears, unless a
      command-line override writes it. */
  lemma UnknownUserKeyIgnored(defaults: ConfigMap, user: ConfigMap, cli: CliOverrides, k: string)
    requires HasHintsTable(defaults)
    requires k !in defaults && k !in CliKeys(cli)
    ensures k !in EffectiveConfig(defaults, Some(user), cli)
  {
  }

  /** Without a user value or an override, a known key keeps its default. */
  lemma DefaultKept(defaults: ConfigMap, parsed: Option<ConfigMap>, cli: CliOverrides, k: string)
    requires HasHintsTable(defaults)
    requires k in defaults && k != LanguageHintsKey && !IsCommentKey(k) && k !in CliKeys(cli)
    requires parsed.Some? ==> k !in parsed.value
    ensures k in EffectiveConfig(defaults, parsed, cli)
    ensures EffectiveConfig(defaults, parsed, cli)[k] == defaults[k]
  {
    var userData := LoadUserConfig(parsed).0;
    if userData.Some? && userData.value != map[] {
      var user := userData.value;
      var hints := if LanguageHintsKey in user then Some(user[LanguageHintsKey]) else None;
      assert MergeUser(defaults, userData) == AssignKnown(MergeHints(defaults, hints), user - {LanguageHintsKey});
    }
  }

  /** User language hints are merged entry by entry: a user entry wins, and
      every default entry the user does not mention stays. */
  lemma HintsMerged(defaults: ConfigMap, user: ConfigMap, cli: CliOverrides, d: map<string, Value>)
    requires HasHintsTable(defaults)
    requires LanguageHintsKey in user && user[LanguageHintsKey] == Dict(d)
    ensures LanguageHintsKey in EffectiveConfig(defaults, Some(user), cli)
    ensures EffectiveConfig(defaults, Some(user), cli)[LanguageHintsKey]
         == Dict(defaults[LanguageHintsKey].entries + d)
  {
    var data := LoadUserConfig(Some(user)).0.value;
    assert LanguageHintsKey[0] != '_';
    assert LanguageHintsKey in data;
    assert LanguageHintsKey !in CliKeys(cli);
    var hints := Some(data[LanguageHintsKey]);
    assert MergeUser(defaults, Some(data)) == AssignKnown(MergeHints(defaults, hints), data - {LanguageHintsKey});
  }

  /** A user `language_hints` value that is not a dictionary is discarded:
      the default table stays. */
  lemma NonDictHintsDiscarded(defaults: ConfigMap, user: ConfigMap, cli: CliOverrides)
    requires HasHintsTable(defaults)
    requires LanguageHintsKey in user && !user[LanguageHintsKey].Dict?
    ensures LanguageHintsKey in EffectiveConfig(defaults, Some(user), cli)
    ensures EffectiveConfig(defaults, Some(user), cli)[LanguageHintsKey] == defaults[LanguageHintsKey]
  {
    var data := LoadUserConfig(Some(user)).0.value;
    assert LanguageHintsKey[0] != '_';
    assert LanguageHintsKey in data;
    assert LanguageHintsKey !in CliKeys(cli);
    var hints := Some(data[LanguageHintsKey]);
    assert MergeUser(defaults, Some(data)) == AssignKnown(MergeHints(defaults, hints), data - {LanguageHintsKey});
  }

  /** Without a loadable user file the result is the defaults with the
      overrides applied and comment keys dropped. */
  lemma NoUserFile(defaults: ConfigMap, cli: CliOverrides)
    requires HasHintsTable(defaults)
    ensures EffectiveConfig(defaults, None, cli) == DropComments(WithCliOverrides(defaults, cli))
  {
  }

  /** The default table: a hint dictionary, header on, errors not fatal,
      a 1024 KB size limit and `codecat_output.md` as output. */
  lemma DefaultConfigFacts()
    ensures HasHintsTable(DefaultConfig)
    ensures DefaultConfig[GenerateHeaderKey] == Bool(true)
    ensures DefaultConfig["stop_on_error"] == Bool(false)
    ensures DefaultConfig["max_file_size_kb"] == Int(1024)
    ensures DefaultConfig[OutputFileKey] == Str(DefaultOutputFilename)
  {
  }
}
