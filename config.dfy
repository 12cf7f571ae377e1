/**
 * The configuration file of the extension and the decisions taken around it: loading with
 * a fallback to the defaults, the write through a temporary file, the merge with the
 * defaults at start-up, detecting the language of the active file, and writing the
 * Dockerfile template next to it. JSON text is read and written by a `parse` and a
 * `stringify` function the caller supplies.
 */
module Config {
  import opened Wrappers
  import opened Text
  import opened Constants
  import opened JsonValues
  import opened ConfigMerge
  import opened Files

  /** A table of strings as the JSON object that holds it. */
  function StringTable(m: map<string, string>): (r: map<string, Json>)
    ensures r.Keys == m.Keys
    ensures forall k :: k in m ==> r[k] == JStr(m[k])
  {
    map k | k in m :: JStr(m[k])
  }

  /** The properties of `DEFAULT_CONFIG`. */
  const DefaultFields: map<string, Json> := map[
    "languageMap" := JObj(StringTable(LanguageMap)),
    "dockerTemplates" := JObj(StringTable(DockerTemplates))
  ]

  const DefaultConfig: Json := JObj(DefaultFields)

  // ---------------------------------------------------------------------------
  // loading

  /** The `Result` that `loadConfig` resolves to. */
  datatype Loaded = Loaded(success: bool, data: Json, error: Option<string>)

  const NotFoundMessage: string := "Config file not found. Returning default config."
  const ReadFailurePrefix: string := "Failed to read or parse config file. \n"

  /**
   * `loadConfig(path)` over the files present: a missing file or text that does not parse
   * gives the defaults with an error, never an exception; otherwise the parsed value.
   */
  function LoadConfig(files: map<string, string>, path: string, parse: string -> Result<Json, string>): (r: Loaded)
    ensures r.success <==> path in files && parse(files[path]).Ok?
    ensures r.success ==> r.data == parse(files[path]).value && r.error == None
    ensures !r.success ==> r.data == DefaultConfig && r.error.Some?
    ensures path !in files ==> r.error == Some(NotFoundMessage)
    ensures path in files && parse(files[path]).Err? ==> r.error == Some(ReadFailurePrefix + parse(files[path]).error)
  {
    if path !in files then Loaded(false, DefaultConfig, Some(NotFoundMessage))
    else
      match parse(files[path])
      case Ok(parsed) => Loaded(true, parsed, None)
      case Err(e) => Loaded(false, DefaultConfig, Some(ReadFailurePrefix + e))
  }

  // ---------------------------------------------------------------------------
  // writing

  /** `atomicWriteConfig`: write `<path>.tmp`, then rename it over `path`. */
  method AtomicWriteConfig(fs: FileSystem, path: string, content: string)
    modifies fs
    ensures fs.files == (old(fs.files) - {path + ".tmp"})[path := content]
  {
    var tmp := path + ".tmp";
    fs.WriteFile(tmp, content);
    var ok := fs.Rename(tmp, path);
    assert fs.files == (old(fs.files) - {tmp})[path := content];
  }

  /** `saveConfig`: the printed configuration written atomically. */
  method SaveConfig(fs: FileSystem, config: Json, path: string, stringify: Json -> string)
    modifies fs
    ensures fs.files == (old(fs.files) - {path + ".tmp"})[path := stringify(config)]
  {
    AtomicWriteConfig(fs, path, stringify(config));
  }

  /**
   * The configuration `ensureConfigFile` writes: the loaded one merged over the defaults,
   * or the defaults themselves when loading fails. Either way it is an object that has
   * both default tables.
   */
  function EnsuredConfig(files: map<string, string>, path: string, parse: string -> Result<Json, string>): (c: Json)
    ensures c.JObj? && DefaultFields.Keys <= c.fields.Keys
    ensures !LoadConfig(files, path, parse).success ==> c == DefaultConfig
    ensures LoadConfig(files, path, parse).success ==>
      c == JObj(MergeFields(ForInEntries(LoadConfig(files, path, parse).data), DefaultFields))
  {
    var loaded := LoadConfig(files, path, parse);
    if loaded.success then JObj(MergeFields(ForInEntries(loaded.data), DefaultFields)) else DefaultConfig
  }

  /** `ensureConfigFile`: load, merge with the defaults, save; the defaults alone when loading fails. */
  method EnsureConfigFile(fs: FileSystem, path: string, parse: string -> Result<Json, string>, stringify: Json -> string)
    modifies fs
    ensures fs.files == (old(fs.files) - {path + ".tmp"})[path := stringify(EnsuredConfig(old(fs.files), path, parse))]
  {
    var loaded := LoadConfig(fs.files, path, parse);
    if !loaded.success {
      SaveConfig(fs, DefaultConfig, path, stringify);
    } else {
      var merged := MergeConfigsIterative(loaded.data, DefaultFields);
      SaveConfig(fs, merged, path, stringify);
    }
  }

  /**
   * Start-up is idempotent: when the printer and the parser agree on the written
   * configuration, loading what one start-up wrote and merging it again gives the same
   * configuration back.
   */
  lemma EnsureConfigIdempotent(files: map<string, string>, path: string,
                               parse: string -> Result<Json, string>, stringify: Json -> string)
    requires parse(stringify(EnsuredConfig(files, path, parse))) == Ok(EnsuredConfig(files, path, parse))
    ensures EnsuredConfig((files - {path + ".tmp"})[path := stringify(EnsuredConfig(files, path, parse))], path, parse)
         == EnsuredConfig(files, path, parse)
  {
    var c := EnsuredConfig(files, path, parse);
    var loaded := LoadConfig(files, path, parse);
    if loaded.success {
      MergeStable(ForInEntries(loaded.data), DefaultFields);
    } else {
      MergeSelf(DefaultFields);
    }
  }

  /** A default entry the user's configuration does not reach is still in the written configuration. */
  lemma DefaultEntrySurvives(files: map<string, string>, path: string, parse: string -> Result<Json, string>,
                             q: Path, x: Json)
    requires GetAt(DefaultConfig, q) == Some(x)
    requires LoadConfig(files, path, parse).success ==> Untouched(ForInEntries(LoadConfig(files, path, parse).data), q)
    ensures GetAt(EnsuredConfig(files, path, parse), q) == Some(x)
  {
    if LoadConfig(files, path, parse).success {
      DefaultsSurvive(ForInEntries(LoadConfig(files, path, parse).data), DefaultFields, q, x);
    }
  }

  // ---------------------------------------------------------------------------
  // language detection

  const NoActiveFileMessage: string := "No active file selected."
  const NoExtensionMessage: string := "Failed to detect file extension."

  /**
   * `fileName.split(".").pop()`: the text after the last "." of the whole path, or the
   * whole path when it has no ".".
   */
  function Extension(fileName: string): (ext: string)
    ensures '.' !in ext && EndsWith(fileName, ext)
    ensures |ext| < |fileName| ==> fileName[|fileName| - |ext| - 1] == '.'
  {
    var pieces := SplitOn(fileName, '.');
    if |pieces| == 1 then pieces[0]
    else
      JoinLast(pieces, ".");
      pieces[|pieces| - 1]
  }

  lemma {:induction false} JoinLast(xs: seq<string>, sep: string)
    requires |xs| >= 2
    ensures Join(xs, sep) == Join(xs[..|xs| - 1], sep) + sep + xs[|xs| - 1]
    decreases |xs|
  {
    if |xs| > 2 {
      JoinLast(xs[1..], sep);
      assert xs[1..][..|xs[1..]| - 1] == xs[..|xs| - 1][1..];
    } else {
      assert xs[..|xs| - 1] == [xs[0]];
    }
  }

  /** The extension of `base + "." + ext` is `ext` whenever `ext` has no ".". */
  lemma ExtensionAfterLastDot(base: string, ext: string)
    requires '.' !in ext
    ensures Extension(base + "." + ext) == ext
  {
    var name := base + "." + ext;
    var e := Extension(name);
    assert name[|base|] == '.';
    assert forall i :: 0 <= i < |ext| ==> name[|base| + 1 + i] == ext[i];
    assert name[|name| - |e|..] == e;
    assert |e| == |ext|;
    assert name[|name| - |e|..] == ext;
  }

  /**
   * `detectLanguage`: the language the extension of the active file selects in
   * `DEFAULT_CONFIG.languageMap`, with the three failure messages.
   */
  function DetectLanguage(fileName: Option<string>): (r: Result<string, string>)
    ensures fileName.None? ==> r == Err(NoActiveFileMessage)
    ensures fileName.Some? && Extension(fileName.value) == "" ==> r == Err(NoExtensionMessage)
    ensures r.Ok? <==> fileName.Some? && Extension(fileName.value) in LanguageMap
    ensures r.Ok? ==> r.value == LanguageMap[Extension(fileName.value)]
    ensures fileName.Some? && Extension(fileName.value) != "" && Extension(fileName.value) !in LanguageMap ==>
      r == Err("Unsupported file type: ." + Extension(fileName.value))
  {
    match fileName
    case None => Err(NoActiveFileMessage)
    case Some(name) =>
      var ext := Extension(name);
      if ext == "" then Err(NoExtensionMessage)
      else if ext in LanguageMap then Ok(LanguageMap[ext])
      else Err("Unsupported file type: ." + ext)
  }

  /** Every supported extension after the last "." selects its language, whatever the path before it. */
  lemma DetectsMappedExtension(base: string, ext: string)
    requires ext in LanguageMap
    ensures DetectLanguage(Some(base + "." + ext)) == Ok(LanguageMap[ext])
  {
    ExtensionAfterLastDot(base, ext);
  }

  /** A "." in a directory name decides the extension when the file name has none. */
  lemma DottedDirectoryDecides(dir: string, ext: string, file: string)
    requires '.' !in ext && '.' !in file && ext + "/" + file !in LanguageMap
    ensures DetectLanguage(Some(dir + "." + ext + "/" + file)) == Err("Unsupported file type: ." + ext + "/" + file)
  {
    var tail := ext + "/" + file;
    assert '.' !in tail;
    assert dir + "." + ext + "/" + file == dir + "." + tail;
    assert "Unsupported file type: ." + ext + "/" + file == "Unsupported file type: ." + tail;
    ExtensionAfterLastDot(dir, tail);
  }

  /** A successful detection always finds a template for the language. */
  lemma DetectedLanguageHasTemplate(fileName: Option<string>)
    requires DetectLanguage(fileName).Ok?
    ensures DetectLanguage(fileName).value in DockerTemplates
  {
    EveryLanguageHasTemplate();
  }

  /** The property names every plain JavaScript object inherits from `Object.prototype`. */
  const ObjectPrototypeMembers: set<string> := {
    "constructor", "__proto__", "toString", "toLocaleString", "valueOf", "hasOwnProperty",
    "isPrototypeOf", "propertyIsEnumerable", "__defineGetter__", "__defineSetter__",
    "__lookupGetter__", "__lookupSetter__"
  }

  /** What `languageMap[ext]` reads: an own property, or a member inherited from `Object.prototype`. */
  datatype Lookup = Own(language: string) | Inherited(member: string)

  /**
   * `detectLanguage` as written: the truthiness test `languageMap[fileExtension]` also
   * holds for the inherited members of `Object.prototype`, which are functions or objects.
   */
  function DetectLanguageAsWritten(fileName: Option<string>): (r: Result<Lookup, string>)
  {
    match fileName
    case None => Err(NoActiveFileMessage)
    case Some(name) =>
      var ext := Extension(name);
      if ext == "" then Err(NoExtensionMessage)
      else if ext in LanguageMap then Ok(Own(LanguageMap[ext]))
      else if ext in ObjectPrototypeMembers then Ok(Inherited(ext))
      else Err("Unsupported file type: ." + ext)
  }

  /** A file whose extension is an inherited name is "detected" as written, and rejected by `DetectLanguage`. */
  lemma AsWrittenAcceptsInheritedName(base: string, member: string)
    requires member in ObjectPrototypeMembers && '.' !in member && member !in LanguageMap
    ensures DetectLanguageAsWritten(Some(base + "." + member)) == Ok(Inherited(member))
    ensures DetectLanguage(Some(base + "." + member)) == Err("Unsupported file type: ." + member)
  {
    ExtensionAfterLastDot(base, member);
  }

  /** The instance `x.constructor`. */
  lemma AsWrittenAcceptsConstructor(base: string)
    ensures DetectLanguageAsWritten(Some(base + "." + "constructor")) == Ok(Inherited("constructor"))
    ensures DetectLanguage(Some(base + "." + "constructor")) == Err("Unsupported file type: ." + "constructor")
  {
    ConstructorIsInherited();
    AsWrittenAcceptsInheritedName(base, "constructor");
  }

  lemma ConstructorIsInherited()
    ensures "constructor" in ObjectPrototypeMembers && '.' !in "constructor" && "constructor" !in LanguageMap
  {
    assert "constructor"[0] == 'c';
  }

  /** Apart from the inherited names, the code as written and `DetectLanguage` agree. */
  lemma AsWrittenAgreesElsewhere(fileName: Option<string>)
    requires fileName.Some? ==> Extension(fileName.value) !in ObjectPrototypeMembers
    ensures DetectLanguage(fileName).Ok? <==> DetectLanguageAsWritten(fileName).Ok?
    ensures DetectLanguage(fileName).Ok? ==> DetectLanguageAsWritten(fileName).value == Own(DetectLanguage(fileName).value)
    ensures DetectLanguage(fileName).Err? ==> DetectLanguageAsWritten(fileName) == Err(DetectLanguage(fileName).error)
  {
  }

  // ---------------------------------------------------------------------------
  // the Dockerfile template

  /** `${directoryPath}/${language}.Dockerfile`, where a missing directory prints as "null". */
  function DockerfilePath(dir: Option<string>, language: string): (path: string)
    ensures EndsWith(path, "/" + language + ".Dockerfile")
    ensures dir.Some? ==> StartsWith(path, dir.value + "/")
    ensures dir.None? ==> StartsWith(path, "null/")
    // nothing lies between the directory and the file name: the language reads back
    ensures dir.Some? ==> Unwrap(path, dir.value + "/", ".Dockerfile") == Some(language)
    ensures dir.None? ==> Unwrap(path, "null/", ".Dockerfile") == Some(language)
  {
    var d := if dir.Some? then dir.value else "null";
    assert (d + "/" + language + ".Dockerfile")[..|d + "/"|] == d + "/";
    assert (d + "/" + language + ".Dockerfile")[|d|..] == "/" + language + ".Dockerfile";
    UnwrapWrapped(d + "/", language, ".Dockerfile");
    d + "/" + language + ".Dockerfile"
  }

  datatype DockerfileOutcome = NoTemplate | Cancelled | Written(path: string)

  /**
   * `makeDockerfile(language)`: the language's template written to `<dir>/<lang>.Dockerfile`
   * in the active file's directory; an existing file is replaced only when the answer to
   * the question is "Yes".
   */
  method MakeDockerfile(fs: FileSystem, language: string, dir: Option<string>, answer: Option<string>)
    returns (outcome: DockerfileOutcome)
    modifies fs
    ensures outcome == NoTemplate <==> language !in DockerTemplates
    ensures outcome == Cancelled <==>
      language in DockerTemplates && DockerfilePath(dir, language) in old(fs.files) && answer != Some("Yes")
    ensures outcome.Written? ==> outcome.path == DockerfilePath(dir, language)
    ensures outcome.Written? ==> fs.files == old(fs.files)[outcome.path := DockerTemplates[language]]
    ensures !outcome.Written? ==> fs.files == old(fs.files)
  {
    if language !in DockerTemplates {
      return NoTemplate;
    }
    var template := DockerTemplates[language];
    var path := DockerfilePath(dir, language);
    if fs.Exists(path) && answer != Some("Yes") {
      return Cancelled;
    }
    fs.WriteFile(path, template);
    outcome := Written(path);
  }
}
