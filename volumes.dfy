/**
 * `mapDockerVolumes`: the `-v host:container` option for the volumes a Dockerfile
 * declares. The host side of each volume comes from the sidecar file
 * `<dockerfile>.mount.json`, which the first call creates with `"./" + volume` for every
 * volume; an entry that is missing or empty falls back to `"/app" + volume`. JSON text is
 * read and written by a `parse` and a `stringify` function the caller supplies.
 */
module Volumes {
  import opened Wrappers
  import opened Text
  import opened JsonValues
  import ConfigMerge
  import opened DockerfileParser
  import opened Files

  /** `${dockerFilePath}.mount.json`. */
  function SidecarPath(dockerFilePath: string): (p: string)
    ensures |p| > |dockerFilePath| && p[..|dockerFilePath|] == dockerFilePath
  {
    dockerFilePath + ".mount.json"
  }

  /** `Object.fromEntries(volumes.map(v => [v, "./" + v]))`. */
  function DefaultMounts(volumes: seq<string>): map<string, Json> {
    map v | v in volumes :: JStr("./" + v)
  }

  /** The document written to a new sidecar: `{ volumes: hostMounts }`. */
  function SidecarDocument(volumes: seq<string>): Json {
    JObj(map["volumes" := JObj(DefaultMounts(volumes))])
  }

  /** The failures that make `mapDockerVolumes` reject. */
  datatype MountError =
    | SidecarUnreadable(reason: string)  // `JSON.parse` throws on the sidecar's text
    | NoVolumeTable                      // `hostMounts` is `undefined` or `null` when it is indexed

  /**
   * `JSON.parse(text).volumes`, read from an existing sidecar. Indexing the result throws
   * when the document is `null`, or when it has no `volumes` property or a `null` one.
   */
  function ReadMounts(text: string, parse: string -> Result<Json, string>): Result<Json, MountError> {
    match parse(text)
    case Err(e) => Err(SidecarUnreadable(e))
    case Ok(doc) =>
      if doc.JObj? && "volumes" in doc.fields && !doc.fields["volumes"].JNull? then Ok(doc.fields["volumes"])
      else Err(NoVolumeTable)
  }

  /** `value[key]` on a parsed value: an own property, an index of an array or string, or its `length`. */
  function Property(value: Json, key: string): Option<Json> {
    match value
    case JObj(f) => if key in f then Some(f[key]) else None
    case JArr(items) => if key == "length" then Some(JNum(|items|)) else Element(value, key)
    case JStr(s) => if key == "length" then Some(JNum(|s|)) else Element(value, key)
    case _ => None
  }

  function Element(value: Json, key: string): Option<Json> {
    var entries := ConfigMerge.ForInEntries(value);
    if key in entries then Some(entries[key]) else None
  }

  /** The values `||` rejects: `null`, `false`, `0` and `""`. */
  predicate Truthy(value: Json) {
    match value
    case JNull => false
    case JBool(b) => b
    case JNum(n) => n != 0
    case JStr(s) => s != []
    case _ => true
  }

  /** The text a value becomes inside a template literal. */
  function TemplateString(value: Json): string
    decreases value
  {
    match value
    case JNull => "null"
    case JBool(b) => if b then "true" else "false"
    case JNum(n) => IntToString(n)
    case JStr(s) => s
    case JArr(items) =>
      Join(seq(|items|, i requires 0 <= i < |items| => if items[i].JNull? then "" else TemplateString(items[i])), ",")
    case JObj(_) => "[object Object]"
  }

  /** `hostMounts[containerVolume] || `/app${containerVolume}``. */
  function HostFor(hostMounts: Json, volume: string): string {
    match Property(hostMounts, volume)
    case Some(x) => if Truthy(x) then TemplateString(x) else "/app" + volume
    case None => "/app" + volume
  }

  function MountPair(host: string, volume: string): string {
    host + ":" + volume
  }

  /** `-v ${hostVolume}:${containerVolume}`. */
  function Mapping(host: string, volume: string): string {
    "-v" + " " + MountPair(host, volume)
  }

  /** `volumes.map(...)`: one mapping per volume, in order. */
  function Mappings(hostMounts: Json, volumes: seq<string>): (ms: seq<string>)
    ensures |ms| == |volumes|
    ensures forall k :: 0 <= k < |volumes| ==> ms[k] == Mapping(HostFor(hostMounts, volumes[k]), volumes[k])
  {
    if volumes == [] then []
    else [Mapping(HostFor(hostMounts, volumes[0]), volumes[0])] + Mappings(hostMounts, volumes[1..])
  }

  function DockerfileText(files: map<string, string>, path: string): Option<string> {
    if path in files then Some(files[path]) else None
  }

  /** What `mapDockerVolumes(dockerFilePath)` resolves to, or the reason it rejects. */
  function VolumeOption(files: map<string, string>, dockerFilePath: string,
                        parseJsonArray: string -> Option<seq<string>>,
                        parse: string -> Result<Json, string>): Result<string, MountError>
  {
    var volumes := DockerfileVolumes(DockerfileText(files, dockerFilePath), parseJsonArray);
    var configPath := SidecarPath(dockerFilePath);
    if volumes == [] then Ok("")
    else if configPath !in files then Ok(Join(Mappings(JObj(DefaultMounts(volumes)), volumes), " "))
    else
      match ReadMounts(files[configPath], parse)
      case Err(e) => Err(e)
      case Ok(hostMounts) => Ok(Join(Mappings(hostMounts, volumes), " "))
  }

  /** The files after `mapDockerVolumes(dockerFilePath)`: a missing sidecar is created when there are volumes. */
  function FilesAfter(files: map<string, string>, dockerFilePath: string,
                      parseJsonArray: string -> Option<seq<string>>,
                      stringify: Json -> string): map<string, string>
  {
    var volumes := DockerfileVolumes(DockerfileText(files, dockerFilePath), parseJsonArray);
    var configPath := SidecarPath(dockerFilePath);
    if volumes == [] || configPath in files then files
    else files[configPath := stringify(SidecarDocument(volumes))]
  }

  /**
   * `mapDockerVolumes(dockerFilePath)`: parse the Dockerfile, then create the sidecar with
   * the default mounts or read the existing one, and map every volume.
   */
  method MapDockerVolumes(fs: FileSystem, dockerFilePath: string,
                          parseJsonArray: string -> Option<seq<string>>,
                          parse: string -> Result<Json, string>, stringify: Json -> string)
    returns (r: Result<string, MountError>)
    modifies fs
    ensures r == VolumeOption(old(fs.files), dockerFilePath, parseJsonArray, parse)
    ensures fs.files == FilesAfter(old(fs.files), dockerFilePath, parseJsonArray, stringify)
  {
    var content := if fs.Exists(dockerFilePath) then Some(fs.files[dockerFilePath]) else None;
    var _, volumes := ParseDockerfile(content, parseJsonArray);
    if |volumes| == 0 {
      return Ok("");
    }
    var configPath := SidecarPath(dockerFilePath);
    var hostMounts: Json;
    if !fs.Exists(configPath) {
      hostMounts := JObj(DefaultMounts(volumes));
      fs.WriteFile(configPath, stringify(JObj(map["volumes" := hostMounts])));
    } else {
      var read := ReadMounts(fs.files[configPath], parse);
      if read.Err? {
        return Err(read.error);
      }
      hostMounts := read.value;
    }
    r := Ok(Join(Mappings(hostMounts, volumes), " "));
  }

  // ---------------------------------------------------------------------------
  // properties

  /** Writing the sidecar does not change the Dockerfile's text. */
  lemma SidecarIsNotDockerfile(files: map<string, string>, dockerFilePath: string, t: string)
    ensures DockerfileText(files[SidecarPath(dockerFilePath) := t], dockerFilePath) == DockerfileText(files, dockerFilePath)
    ensures DockerfileText(files - {SidecarPath(dockerFilePath)}, dockerFilePath) == DockerfileText(files, dockerFilePath)
  {
    assert SidecarPath(dockerFilePath) != dockerFilePath;
  }

  /** Without volumes the option is "", whatever the sidecar holds, and no file changes. */
  lemma NoVolumesNoSidecar(files: map<string, string>, dockerFilePath: string,
                           parseJsonArray: string -> Option<seq<string>>,
                           parse: string -> Result<Json, string>, stringify: Json -> string, t: string)
    requires DockerfileVolumes(DockerfileText(files, dockerFilePath), parseJsonArray) == []
    ensures VolumeOption(files, dockerFilePath, parseJsonArray, parse) == Ok("")
    ensures FilesAfter(files, dockerFilePath, parseJsonArray, stringify) == files
    ensures VolumeOption(files[SidecarPath(dockerFilePath) := t], dockerFilePath, parseJsonArray, parse) == Ok("")
    ensures VolumeOption(files - {SidecarPath(dockerFilePath)}, dockerFilePath, parseJsonArray, parse) == Ok("")
  {
    SidecarIsNotDockerfile(files, dockerFilePath, t);
  }

  /** A default mount is its volume behind "./", so `/data` is mounted from `.//data`. */
  lemma {:induction false} DefaultMappings(volumes: seq<string>, all: seq<string>)
    requires forall k :: 0 <= k < |volumes| ==> volumes[k] in all
    ensures forall k :: 0 <= k < |volumes| ==>
      Mappings(JObj(DefaultMounts(all)), volumes)[k] == Mapping("./" + volumes[k], volumes[k])
    decreases |volumes|
  {
    if volumes != [] {
      var v := volumes[0];
      assert DefaultMounts(all)[v] == JStr("./" + v);
      assert Truthy(JStr("./" + v));
      DefaultMappings(volumes[1..], all);
    }
  }

  /**
   * With volumes and no sidecar, the sidecar is written with `"./" + v` for every volume
   * and the option maps every volume from there.
   */
  lemma FirstCallWritesDefaults(files: map<string, string>, dockerFilePath: string,
                                parseJsonArray: string -> Option<seq<string>>,
                                parse: string -> Result<Json, string>, stringify: Json -> string)
    requires SidecarPath(dockerFilePath) !in files
    ensures var volumes := DockerfileVolumes(DockerfileText(files, dockerFilePath), parseJsonArray);
      volumes != [] ==>
        && FilesAfter(files, dockerFilePath, parseJsonArray, stringify)
           == files[SidecarPath(dockerFilePath) := stringify(SidecarDocument(volumes))]
        && VolumeOption(files, dockerFilePath, parseJsonArray, parse).Ok?
        && var ms := Mappings(JObj(DefaultMounts(volumes)), volumes);
           VolumeOption(files, dockerFilePath, parseJsonArray, parse).value == Join(ms, " ")
           && forall k :: 0 <= k < |volumes| ==> ms[k] == Mapping("./" + volumes[k], volumes[k])
  {
    var volumes := DockerfileVolumes(DockerfileText(files, dockerFilePath), parseJsonArray);
    DefaultMappings(volumes, volumes);
  }

  /**
   * Once the sidecar exists it is never rewritten: a second call leaves the files as the
   * first left them and, when the written document reads back, resolves to the same option.
   */
  lemma SecondCallLeavesSidecar(files: map<string, string>, dockerFilePath: string,
                                parseJsonArray: string -> Option<seq<string>>,
                                parse: string -> Result<Json, string>, stringify: Json -> string)
    requires forall d :: parse(stringify(d)) == Ok(d)
    ensures var after := FilesAfter(files, dockerFilePath, parseJsonArray, stringify);
      && FilesAfter(after, dockerFilePath, parseJsonArray, stringify) == after
      && VolumeOption(after, dockerFilePath, parseJsonArray, parse) == VolumeOption(files, dockerFilePath, parseJsonArray, parse)
  {
    var volumes := DockerfileVolumes(DockerfileText(files, dockerFilePath), parseJsonArray);
    var configPath := SidecarPath(dockerFilePath);
    if volumes != [] && configPath !in files {
      var text := stringify(SidecarDocument(volumes));
      SidecarIsNotDockerfile(files, dockerFilePath, text);
      assert parse(text) == Ok(SidecarDocument(volumes));
      assert ReadMounts(text, parse) == Ok(JObj(DefaultMounts(volumes)));
    }
  }

  /** A non-empty string entry of the sidecar is the host side of its volume. */
  lemma EntryIsHost(hostMounts: map<string, Json>, volume: string, host: string)
    requires volume in hostMounts && hostMounts[volume] == JStr(host) && host != ""
    ensures HostFor(JObj(hostMounts), volume) == host
  {
  }

  /** A missing or empty entry falls back to "/app" + volume. */
  lemma MissingOrEmptyFallsBack(hostMounts: map<string, Json>, volume: string)
    requires volume !in hostMounts || hostMounts[volume] in {JNull, JStr(""), JBool(false), JNum(0)}
    ensures HostFor(JObj(hostMounts), volume) == "/app" + volume
  {
  }

  /** A sidecar whose document has no `volumes` table makes the call reject once there is a volume. */
  lemma MissingTableRejects(files: map<string, string>, dockerFilePath: string,
                            parseJsonArray: string -> Option<seq<string>>,
                            parse: string -> Result<Json, string>, doc: Json)
    requires DockerfileVolumes(DockerfileText(files, dockerFilePath), parseJsonArray) != []
    requires SidecarPath(dockerFilePath) in files && parse(files[SidecarPath(dockerFilePath)]) == Ok(doc)
    requires !doc.JObj? || "volumes" !in doc.fields || doc.fields["volumes"] == JNull
    ensures VolumeOption(files, dockerFilePath, parseJsonArray, parse) == Err(NoVolumeTable)
  {
  }

  // ---------------------------------------------------------------------------
  // reading the option back

  /** "-v" and "host:container", split at the last ":". */
  function DecodeMount(words: seq<string>): Option<(string, string)>
    requires |words| == 2
  {
    if words[0] != "-v" then None
    else
      match LastIndexOf(words[1], ':')
      case None => None
      case Some(i) => Some((words[1][..i], words[1][i + 1..]))
  }

  function DecodeMountWords(words: seq<string>): Option<seq<(string, string)>>
    decreases |words|
  {
    if words == [] then Some([])
    else if |words| < 2 then None
    else
      match (DecodeMount(words[..2]), DecodeMountWords(words[2..]))
      case (Some(m), Some(rest)) => Some([m] + rest)
      case _ => None
  }

  /** The option read back as (host, container) pairs; "" has none. */
  function DecodeVolumeOption(option: string): Option<seq<(string, string)>> {
    if option == "" then Some([]) else DecodeMountWords(SplitOn(option, ' '))
  }

  /** The words of the mappings: "-v" and "host:container" for each volume. */
  function MountWords(hostMounts: Json, volumes: seq<string>): (ws: seq<string>)
    ensures |ws| == 2 * |volumes|
  {
    if volumes == [] then []
    else ["-v", MountPair(HostFor(hostMounts, volumes[0]), volumes[0])] + MountWords(hostMounts, volumes[1..])
  }

  function MountPairs(hostMounts: Json, volumes: seq<string>): (ps: seq<(string, string)>)
    ensures |ps| == |volumes|
    ensures forall k :: 0 <= k < |ps| ==> ps[k] == (HostFor(hostMounts, volumes[k]), volumes[k])
  {
    if volumes == [] then [] else [(HostFor(hostMounts, volumes[0]), volumes[0])] + MountPairs(hostMounts, volumes[1..])
  }

  /** Host and container sides a mapping can be read back from. */
  predicate Separable(hostMounts: Json, volumes: seq<string>) {
    forall k :: 0 <= k < |volumes| ==>
      ' ' !in HostFor(hostMounts, volumes[k]) && ' ' !in volumes[k] && ':' !in volumes[k]
  }

  lemma {:induction false} JoinMounts(hostMounts: Json, volumes: seq<string>)
    ensures Join(Mappings(hostMounts, volumes), " ") == Join(MountWords(hostMounts, volumes), " ")
    decreases |volumes|
  {
    if |volumes| == 1 {
      assert Mappings(hostMounts, volumes) == [Mapping(HostFor(hostMounts, volumes[0]), volumes[0])];
      assert MountWords(hostMounts, volumes) == ["-v", MountPair(HostFor(hostMounts, volumes[0]), volumes[0])];
    } else if |volumes| > 1 {
      JoinMounts(hostMounts, volumes[1..]);
      JoinMountsCons(hostMounts, volumes);
    }
  }

  lemma JoinMountsCons(hostMounts: Json, volumes: seq<string>)
    requires |volumes| > 1
    requires Join(Mappings(hostMounts, volumes[1..]), " ") == Join(MountWords(hostMounts, volumes[1..]), " ")
    ensures Join(Mappings(hostMounts, volumes), " ") == Join(MountWords(hostMounts, volumes), " ")
  {
    var b := MountPair(HostFor(hostMounts, volumes[0]), volumes[0]);
    var tail := Mappings(hostMounts, volumes[1..]);
    var rest := MountWords(hostMounts, volumes[1..]);
    assert Mappings(hostMounts, volumes) == [Mapping(HostFor(hostMounts, volumes[0]), volumes[0])] + tail;
    assert MountWords(hostMounts, volumes) == ["-v", b] + rest;
    PairCons("-v", b, rest);
    JoinPairStep(Mapping(HostFor(hostMounts, volumes[0]), volumes[0]), "-v", b, tail, rest);
  }

  lemma {:induction false} MountWordsHaveNoSpace(hostMounts: Json, volumes: seq<string>)
    requires Separable(hostMounts, volumes)
    ensures forall k :: 0 <= k < |MountWords(hostMounts, volumes)| ==> ' ' !in MountWords(hostMounts, volumes)[k]
    decreases |volumes|
  {
    if volumes != [] {
      MountWordsHaveNoSpace(hostMounts, volumes[1..]);
      var ws := MountWords(hostMounts, volumes);
      assert forall k :: 2 <= k < |ws| ==> ws[k] == MountWords(hostMounts, volumes[1..])[k - 2];
    }
  }

  lemma DecodeOneMount(host: string, volume: string)
    requires ':' !in volume
    ensures DecodeMount(["-v", MountPair(host, volume)]) == Some((host, volume))
  {
    LastIndexOfSplit(host, volume, ':');
    var w := host + ":" + volume;
    assert w[..|host|] == host && w[|host| + 1..] == volume;
  }

  lemma {:induction false} DecodeMountWordsOf(hostMounts: Json, volumes: seq<string>)
    requires Separable(hostMounts, volumes)
    ensures DecodeMountWords(MountWords(hostMounts, volumes)) == Some(MountPairs(hostMounts, volumes))
    decreases |volumes|
  {
    if volumes != [] {
      var ws := MountWords(hostMounts, volumes);
      DecodeMountWordsOf(hostMounts, volumes[1..]);
      DecodeOneMount(HostFor(hostMounts, volumes[0]), volumes[0]);
      assert ws[..2] == ["-v", MountPair(HostFor(hostMounts, volumes[0]), volumes[0])];
      assert ws[2..] == MountWords(hostMounts, volumes[1..]);
    }
  }

  /**
   * The option reads back as exactly one (host, container) pair per volume, in order, when
   * no host or volume holds a space and no volume holds a ":".
   */
  lemma VolumeOptionRoundTrip(hostMounts: Json, volumes: seq<string>)
    requires Separable(hostMounts, volumes)
    ensures DecodeVolumeOption(Join(Mappings(hostMounts, volumes), " ")) == Some(MountPairs(hostMounts, volumes))
  {
    if volumes != [] {
      var ws := MountWords(hostMounts, volumes);
      JoinMounts(hostMounts, volumes);
      MountWordsHaveNoSpace(hostMounts, volumes);
      SplitOnJoin(ws, ' ');
      DecodeMountWordsOf(hostMounts, volumes);
      var s := Join(ws, " ");
      assert s == Join(ws, [' ']);
      assert s != "" by {
        assert |ws[0]| == 2 && |s| >= |ws[0]|;
      }
    }
  }
}
