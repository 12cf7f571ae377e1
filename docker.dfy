/**
 * The docker orchestration of the extension: the image, container and Dockerfile names of
 * a language, the `DockerCommands` string builders, the sweeps that turn a docker listing
 * into removal commands, the per-image build guard and the three-command plan of `run`.
 * Commands run with `execSync` are collected in order as `issued`; what a listing command
 * prints is an input.
 */
module Docker {
  import opened Wrappers
  import opened Text
  import opened JsonValues
  import opened Files
  import opened Terminals
  import Constants
  import Config
  import DockerfileParser
  import Ports
  import Volumes

  // ---------------------------------------------------------------------------
  // names and command builders

  /** `${language}-dev-image:latest`; the language can be read back from it. */
  function ImageName(language: string): (image: string)
    ensures Unwrap(image, "", "-dev-image:latest") == Some(language)
  {
    UnwrapWrapped("", language, "-dev-image:latest");
    "" + language + "-dev-image:latest"
  }

  /** `${language}-dev-container`; the language can be read back from it. */
  function ContainerName(language: string): (container: string)
    ensures Unwrap(container, "", "-dev-container") == Some(language)
  {
    UnwrapWrapped("", language, "-dev-container");
    "" + language + "-dev-container"
  }

  /** `DockerCommands.checkImage`. */
  function CheckImage(imageName: string): (c: string)
    ensures Unwrap(c, "docker images -q ", "") == Some(imageName)
  {
    UnwrapWrapped("docker images -q ", imageName, "");
    "docker images -q " + imageName + ""
  }

  /** `DockerCommands.checkContainer`. */
  function CheckContainer(containerName: string): (c: string)
    ensures Unwrap(c, "docker ps -a -q -f name=", "") == Some(containerName)
  {
    UnwrapWrapped("docker ps -a -q -f name=", containerName, "");
    "docker ps -a -q -f name=" + containerName + ""
  }

  /** `DockerCommands.getLatestContainer`. */
  function LatestContainer(containerName: string): (c: string)
    ensures Unwrap(c, "docker ps --latest -q -a -f name=", "") == Some(containerName)
  {
    UnwrapWrapped("docker ps --latest -q -a -f name=", containerName, "");
    "docker ps --latest -q -a -f name=" + containerName + ""
  }

  /** `DockerCommands.removeContainers`: lists the ids of the containers with that name. */
  function ListContainers(containerName: string): (c: string)
    ensures Unwrap(c, "docker ps -a --filter \"name=", "\" --format \"{{.ID}}\"") == Some(containerName)
  {
    UnwrapWrapped("docker ps -a --filter \"name=", containerName, "\" --format \"{{.ID}}\"");
    "docker ps -a --filter \"name=" + containerName + "\" --format \"{{.ID}}\""
  }

  /** `DockerCommands.getDanglingContainers`. */
  const DanglingContainers: string :=
    "docker images -q --filter \"dangling=true\" | xargs -I {} docker ps -a --filter \"ancestor={}\" -q"

  /** `DockerCommands.getDanglingImages`. */
  const DanglingImages: string := "docker images -q --filter \"dangling=true\""

  /** `DockerCommands.getImagesByName`. */
  function ImagesByName(imageNameFilter: string): (c: string)
    ensures Unwrap(c, "docker images --filter \"reference=", "\" --format \"{{.ID}}\"") == Some(imageNameFilter)
  {
    UnwrapWrapped("docker images --filter \"reference=", imageNameFilter, "\" --format \"{{.ID}}\"");
    "docker images --filter \"reference=" + imageNameFilter + "\" --format \"{{.ID}}\""
  }

  /** `DockerCommands.removeImageById`. */
  function RemoveImageById(imageId: string): (c: string)
    ensures Unwrap(c, "docker rmi -f ", "") == Some(imageId)
  {
    UnwrapWrapped("docker rmi -f ", imageId, "");
    "docker rmi -f " + imageId + ""
  }

  /** `DockerCommands.removeContainerById`. */
  function RemoveContainerById(containerId: string): (c: string)
    ensures Unwrap(c, "docker rm -f ", "") == Some(containerId)
  {
    UnwrapWrapped("docker rm -f ", containerId, "");
    "docker rm -f " + containerId + ""
  }

  // ---------------------------------------------------------------------------
  // removal sweeps

  datatype Target = Containers | Images

  function RemoveById(target: Target, id: string): string {
    match target
    case Containers => RemoveContainerById(id)
    case Images => RemoveImageById(id)
  }

  /** The lines of a listing: `.toString().trim().split("\n")`. */
  function ListingIds(output: string): seq<string> {
    SplitOn(Trim(output), '\n')
  }

  /** The ids the `if (id)` test lets through, in order. */
  function NonBlank(ids: seq<string>): (r: seq<string>)
    ensures |r| <= |ids|
    ensures forall x :: x in r <==> x in ids && x != ""
  {
    if ids == [] then []
    else (if ids[0] != "" then [ids[0]] else []) + NonBlank(ids[1..])
  }

  /** One removal per non-blank id, in listing order. */
  function Removals(target: Target, ids: seq<string>): seq<string> {
    if ids == [] then []
    else (if ids[0] != "" then [RemoveById(target, ids[0])] else []) + Removals(target, ids[1..])
  }

  lemma {:induction false} RemovalsSnoc(target: Target, ids: seq<string>, id: string)
    ensures Removals(target, ids + [id]) == Removals(target, ids) + (if id != "" then [RemoveById(target, id)] else [])
    decreases |ids|
  {
    if ids != [] {
      RemovalsSnoc(target, ids[1..], id);
      assert (ids + [id])[1..] == ids[1..] + [id];
    }
  }

  /** The removals are those of the non-blank ids, position by position. */
  lemma {:induction false} RemovalsOfNonBlank(target: Target, ids: seq<string>)
    ensures |Removals(target, ids)| == |NonBlank(ids)|
    ensures forall k :: 0 <= k < |NonBlank(ids)| ==> Removals(target, ids)[k] == RemoveById(target, NonBlank(ids)[k])
    decreases |ids|
  {
    if ids != [] {
      RemovalsOfNonBlank(target, ids[1..]);
      var rest, keep := Removals(target, ids[1..]), NonBlank(ids[1..]);
      if ids[0] != "" {
        assert Removals(target, ids) == [RemoveById(target, ids[0])] + rest;
        assert NonBlank(ids) == [ids[0]] + keep;
      } else {
        assert Removals(target, ids) == rest && NonBlank(ids) == keep;
      }
    }
  }

  /** The listing's lines, each non-blank one removed. */
  method Sweep(target: Target, output: string) returns (cmds: seq<string>)
    ensures cmds == Removals(target, ListingIds(output))
  {
    cmds := RemoveEach(target, ListingIds(output));
  }

  /** The `forEach` over the ids, issuing a removal for each non-blank one. */
  method RemoveEach(target: Target, ids: seq<string>) returns (cmds: seq<string>)
    ensures cmds == Removals(target, ids)
  {
    cmds := [];
    var i := 0;
    while i < |ids|
      invariant 0 <= i <= |ids|
      invariant cmds == Removals(target, ids[..i])
    {
      RemovalsSnoc(target, ids[..i], ids[i]);
      assert ids[..i + 1] == ids[..i] + [ids[i]];
      if ids[i] != "" {
        cmds := cmds + [RemoveById(target, ids[i])];
      }
      i := i + 1;
    }
    assert ids[..i] == ids;
  }

  /**
   * A sweep removes exactly the non-blank ids of the listing, each by its id; a listing of
   * only white space removes nothing.
   */
  lemma SweepRemovesListedIds(target: Target, output: string)
    ensures forall id :: RemoveById(target, id) in Removals(target, ListingIds(output)) <==>
      id in ListingIds(output) && id != ""
    ensures (forall i :: 0 <= i < |output| ==> IsSpace(output[i])) ==> Removals(target, ListingIds(output)) == []
  {
    var ids := ListingIds(output);
    var keep := NonBlank(ids);
    var cmds := Removals(target, ids);
    RemovalsOfNonBlank(target, ids);
    forall id
      ensures RemoveById(target, id) in cmds <==> id in ids && id != ""
    {
      if RemoveById(target, id) in cmds {
        var k :| 0 <= k < |cmds| && cmds[k] == RemoveById(target, id);
        RemoveByIdInjective(target, id, keep[k]);
      }
      if id in ids && id != "" {
        var k :| 0 <= k < |keep| && keep[k] == id;
        assert cmds[k] == RemoveById(target, id);
      }
    }
    if forall i :: 0 <= i < |output| ==> IsSpace(output[i]) {
      BlankTrimsToEmpty(output);
      assert ids == [""];
    }
  }

  lemma RemoveByIdInjective(target: Target, a: string, b: string)
    requires RemoveById(target, a) == RemoveById(target, b)
    ensures a == b
  {
    match target
    case Containers =>
      assert Unwrap(RemoveContainerById(a), "docker rm -f ", "") == Some(b);
    case Images =>
      assert Unwrap(RemoveImageById(a), "docker rmi -f ", "") == Some(b);
  }

  lemma BlankTrimsToEmpty(s: string)
    requires forall i :: 0 <= i < |s| ==> IsSpace(s[i])
    ensures Trim(s) == ""
  {
    if TrimStart(s) != [] {
      assert false;
    }
  }

  /** `removeContainer(language)`: list the language's containers and remove every one listed. */
  method RemoveContainer(language: string, listing: string) returns (issued: seq<string>)
    ensures issued == [ListContainers(ContainerName(language))] + Removals(Containers, ListingIds(listing))
  {
    issued := [ListContainers(ContainerName(language))];
    var removals := Sweep(Containers, listing);
    issued := issued + removals;
  }

  /**
   * `removeImage(language)`: list the dangling images and the images named after the
   * language, then remove the named ones before the dangling ones.
   */
  method RemoveImage(language: string, danglingListing: string, namedListing: string) returns (issued: seq<string>)
    ensures issued == [DanglingImages, ImagesByName(ImageName(language))]
      + Removals(Images, ListingIds(namedListing)) + Removals(Images, ListingIds(danglingListing))
  {
    issued := [DanglingImages, ImagesByName(ImageName(language))];
    var named := Sweep(Images, namedListing);
    var dangling := Sweep(Images, danglingListing);
    issued := issued + named + dangling;
  }

  // ---------------------------------------------------------------------------
  // the build guard

  /** Whether `buildStatus.get(image)` is true. */
  predicate Busy(building: map<string, bool>, image: string) {
    image in building && building[image]
  }

  /** The guard after a `run` checks it: `None` when the image is already being built. */
  function Acquire(building: map<string, bool>, image: string): Option<map<string, bool>> {
    if Busy(building, image) then None else Some(building[image := true])
  }

  /** Taking an entry that is already taken changes nothing. */
  lemma SetWhenBusy(building: map<string, bool>, image: string)
    requires Busy(building, image)
    ensures building[image := true] == building
  {
  }

  /** A build in progress shuts out a second one for the same image, and for no other image. */
  lemma GuardExcludes(building: map<string, bool>, image: string, other: string)
    requires Acquire(building, image).Some? && other != image
    ensures Acquire(Acquire(building, image).value, image).None?
    ensures Acquire(Acquire(building, image).value, other).Some? <==> Acquire(building, other).Some?
    ensures Acquire(Acquire(building, image).value[image := false], image).Some?
  {
  }

  /** The module-level `buildStatus` map. */
  class BuildGuard {
    var building: map<string, bool>

    constructor ()
      ensures building == map[]
    {
      building := map[];
    }

    /**
     * The start of `run`: the sweep of the language's containers, issued whether or not
     * the build goes ahead, then the check of the image's entry and, when it is clear,
     * setting it.
     */
    method Begin(language: string, listing: string) returns (issued: seq<string>, acquired: bool)
      modifies this
      ensures issued == [ListContainers(ContainerName(language))] + Removals(Containers, ListingIds(listing))
      ensures acquired <==> Acquire(old(building), ImageName(language)).Some?
      ensures acquired ==> building == Acquire(old(building), ImageName(language)).value
      ensures !acquired ==> building == old(building)
    {
      issued := RemoveContainer(language, listing);
      var image := ImageName(language);
      if image in building && building[image] {
        return issued, false;
      }
      building := building[image := true];
      acquired := true;
    }

    /**
     * Two `run`s of one language whose first is still awaiting its build: both sweep the
     * container, and the second finds the guard taken and stops.
     */
    method BeginTwice(language: string, listing: string, laterListing: string)
      returns (issued: seq<string>, first: bool, second: bool)
      modifies this
      ensures first <==> !Busy(old(building), ImageName(language))
      ensures !second
      ensures building == old(building)[ImageName(language) := true]
      ensures issued == [ListContainers(ContainerName(language))] + Removals(Containers, ListingIds(listing))
                      + [ListContainers(ContainerName(language))] + Removals(Containers, ListingIds(laterListing))
    {
      ghost var before := building;
      var more;
      issued, first := Begin(language, listing);
      if !first {
        SetWhenBusy(before, ImageName(language));
      }
      assert Busy(building, ImageName(language));
      more, second := Begin(language, laterListing);
      issued := issued + more;
    }

    /** The `finally` of `run`: the image's entry is cleared on every way out. */
    method End(language: string)
      modifies this
      ensures building == old(building)[ImageName(language) := false]
    {
      building := building[ImageName(language) := false];
    }
  }

  // ---------------------------------------------------------------------------
  // the run plan

  function BuildCommand(dockerFilePath: string, image: string): string {
    "docker build --no-cache -f " + dockerFilePath + " -t " + image + " ."
  }

  function RunCommand(portOption: string, volumeOption: string, container: string, image: string): string {
    "docker run " + portOption + " " + volumeOption + " --name " + container + " -d " + image
  }

  /** The three commands `run` pushes, in order. */
  function Plan(language: string, dockerFilePath: string, portOption: string, volumeOption: string): (plan: seq<string>)
    ensures |plan| == 3
  {
    [ BuildCommand(dockerFilePath, ImageName(language)),
      RunCommand(portOption, volumeOption, ContainerName(language), ImageName(language)),
      "docker logs " + ContainerName(language) ]
  }

  /**
   * The plan builds from the given Dockerfile into the language's image, runs that image
   * under the language's container name with both options, and shows that container's log.
   */
  lemma PlanNamesLanguage(language: string, dockerFilePath: string, portOption: string, volumeOption: string)
    ensures var plan := Plan(language, dockerFilePath, portOption, volumeOption);
      && Unwrap(plan[0], "docker build --no-cache -f " + dockerFilePath + " -t ", " .") == Some(ImageName(language))
      && Unwrap(plan[1], "docker run " + portOption + " " + volumeOption + " --name ", " -d " + ImageName(language))
         == Some(ContainerName(language))
      && Unwrap(plan[2], "docker logs ", "") == Some(ContainerName(language))
  {
    var image := ImageName(language);
    var container := ContainerName(language);
    UnwrapWrapped("docker build --no-cache -f " + dockerFilePath + " -t ", image, " .");
    UnwrapWrapped("docker run " + portOption + " " + volumeOption + " --name ", container, " -d " + image);
    UnwrapWrapped("docker logs ", container, "");
    assert BuildCommand(dockerFilePath, image) == "docker build --no-cache -f " + dockerFilePath + " -t " + image + " .";
    assert RunCommand(portOption, volumeOption, container, image)
      == ("docker run " + portOption + " " + volumeOption + " --name ") + container + (" -d " + image);
    assert "docker logs " + container == "docker logs " + container + "";
  }

  /** The text `logs(language)` sends: the follow command for the container, ended by ";". */
  function LogsText(language: string): (text: string)
    ensures text == Join(["docker logs -f " + ContainerName(language)] + [""], ";")
  {
    "docker logs -f " + ContainerName(language) + ";"
  }

  /** `logs(language)`: only `docker logs -f <container>`, sent to the container's terminal. */
  method Logs(registry: TerminalRegistry, language: string) returns (t: Terminal)
    requires registry.Valid()
    modifies registry, registry.terminals.Values
    ensures registry.Valid()
    ensures Delivered(registry, old(registry.terminals), old(SentTexts(registry.terminals)),
                      ContainerName(language), LogsText(language))
  {
    t := registry.RunMultilineCommands(ContainerName(language), ["docker logs -f " + ContainerName(language)]);
  }

  /** The services `run` calls into: the JSON reader and printer, the draws of `Math.random` and the bind probe. */
  datatype Host = Host(
    parseJsonArray: string -> Option<seq<string>>,
    parse: string -> Result<Json, string>,
    stringify: Json -> string,
    random: nat -> real,
    isFree: int -> bool)

  ghost predicate ValidHost(h: Host) {
    forall i: nat :: 0.0 <= h.random(i) < 1.0
  }

  datatype RunError = NoActiveFile | NoFreePort | MountFailed(error: Volumes.MountError)

  datatype RunOutcome = Rejected | Dispatched(plan: seq<string>) | Failed(error: RunError)

  /** The files once a missing Dockerfile has been written from the language's template. */
  function Prepared(files: map<string, string>, path: string, language: string): map<string, string> {
    if path !in files && language in Constants.DockerTemplates then files[path := Constants.DockerTemplates[language]]
    else files
  }

  /** The port and volume options of the Dockerfile at `path`, or why `run` throws while working them out. */
  function Options(files: map<string, string>, path: string, h: Host): Result<(string, string), RunError>
    requires ValidHost(h)
  {
    match Ports.PortOption(DockerfileParser.DockerfilePorts(Volumes.DockerfileText(files, path)), h.random, h.isFree)
    case None => Err(NoFreePort)
    case Some(portOption) =>
      match Volumes.VolumeOption(files, path, h.parseJsonArray, h.parse)
      case Err(e) => Err(MountFailed(e))
      case Ok(volumeOption) => Ok((portOption, volumeOption))
  }

  /** The files after the options are worked out: the volume step runs only once the ports were found. */
  function OptionFiles(files: map<string, string>, path: string, h: Host): map<string, string>
    requires ValidHost(h)
  {
    if Ports.PortOption(DockerfileParser.DockerfilePorts(Volumes.DockerfileText(files, path)), h.random, h.isFree).None?
    then files
    else Volumes.FilesAfter(files, path, h.parseJsonArray, h.stringify)
  }

  /** How the `try` block of `run(language)` ends once the guard is taken. */
  function BuildResult(files: map<string, string>, language: string, dir: string, h: Host): RunOutcome
    requires ValidHost(h)
  {
    var path := Config.DockerfilePath(Some(dir), language);
    match Options(Prepared(files, path, language), path, h)
    case Err(e) => Failed(e)
    case Ok(options) => Dispatched(Plan(language, path, options.0, options.1))
  }

  /** The files after the `try` block of `run(language)`: the written Dockerfile and a new sidecar. */
  function BuildFiles(files: map<string, string>, language: string, dir: string, h: Host): map<string, string>
    requires ValidHost(h)
  {
    var path := Config.DockerfilePath(Some(dir), language);
    OptionFiles(Prepared(files, path, language), path, h)
  }

  /** How `run(language)` ends, from the guard, the files and the active file's directory. */
  function RunResult(building: map<string, bool>, files: map<string, string>, language: string,
                     dir: Option<string>, h: Host): RunOutcome
    requires ValidHost(h)
  {
    if dir.None? then Failed(NoActiveFile)
    else if Busy(building, ImageName(language)) then Rejected
    else BuildResult(files, language, dir.value, h)
  }

  /** The files after `run(language)`. */
  function RunFiles(building: map<string, bool>, files: map<string, string>, language: string,
                    dir: Option<string>, h: Host): map<string, string>
    requires ValidHost(h)
  {
    if dir.None? || Busy(building, ImageName(language)) then files
    else BuildFiles(files, language, dir.value, h)
  }

  /**
   * `run(language)`: sweep the container, take the guard, write a missing Dockerfile, work
   * out the port and volume options and send the plan to the container's terminal; the
   * guard is released on every way out once it was taken.
   */
  method Run(guard: BuildGuard, fs: FileSystem, registry: TerminalRegistry, language: string,
             dir: Option<string>, listing: string, h: Host)
    returns (issued: seq<string>, outcome: RunOutcome)
    requires ValidHost(h) && registry.Valid()
    modifies guard, fs, registry, registry.terminals.Values
    ensures registry.Valid()
    ensures outcome == RunResult(old(guard.building), old(fs.files), language, dir, h)
    ensures fs.files == RunFiles(old(guard.building), old(fs.files), language, dir, h)
    ensures dir.None? ==> issued == [] && guard.building == old(guard.building)
    ensures dir.Some? ==> issued == [ListContainers(ContainerName(language))] + Removals(Containers, ListingIds(listing))
    ensures outcome == Rejected ==> guard.building == old(guard.building)
    ensures outcome != Rejected && dir.Some? ==> guard.building == old(guard.building)[ImageName(language) := false]
    ensures outcome.Dispatched? ==> Delivered(registry, old(registry.terminals), old(SentTexts(registry.terminals)),
                                              ContainerName(language), Join(outcome.plan + [""], ";"))
    ensures !outcome.Dispatched? ==> Unchanged(registry, old(registry.terminals), old(SentTexts(registry.terminals)))
  {
    issued, outcome := Attempt(guard, fs, language, dir, listing, h);
    SentTextsUnchanged(registry);
    Finish(guard, registry, language, dir, outcome, old(guard.building), old(registry.terminals),
           old(SentTexts(registry.terminals)));
  }

  /**
   * The part of `run` after the build: a plan goes to the container's terminal, and the
   * image's entry is cleared when the build went ahead.
   */
  method Finish(guard: BuildGuard, registry: TerminalRegistry, language: string, dir: Option<string>,
                outcome: RunOutcome, ghost building: map<string, bool>, ghost before: map<string, Terminal>,
                ghost sentBefore: map<string, seq<string>>)
    requires registry.Valid()
    requires registry.terminals == before && SentTexts(registry.terminals) == sentBefore
    requires dir.Some? && outcome != Rejected ==> guard.building == building[ImageName(language) := true]
    requires outcome.Dispatched? ==> dir.Some?
    modifies guard, registry, registry.terminals.Values
    ensures registry.Valid()
    ensures dir.Some? && outcome != Rejected ==> guard.building == building[ImageName(language) := false]
    ensures !(dir.Some? && outcome != Rejected) ==> guard.building == old(guard.building)
    ensures outcome.Dispatched? ==> Delivered(registry, before, sentBefore, ContainerName(language),
                                              Join(outcome.plan + [""], ";"))
    ensures !outcome.Dispatched? ==> Unchanged(registry, before, sentBefore)
  {
    if dir.Some? && outcome != Rejected {
      Dispatch(registry, language, outcome);
      guard.End(language);
      UpdateTwice(building, ImageName(language));
    }
  }

  /**
   * The part of `run` before anything reaches a terminal: the sweep, the guard and the
   * build, leaving the image's entry set when the build went ahead.
   */
  method Attempt(guard: BuildGuard, fs: FileSystem, language: string, dir: Option<string>, listing: string, h: Host)
    returns (issued: seq<string>, outcome: RunOutcome)
    requires ValidHost(h)
    modifies guard, fs
    ensures outcome == RunResult(old(guard.building), old(fs.files), language, dir, h)
    ensures fs.files == RunFiles(old(guard.building), old(fs.files), language, dir, h)
    ensures dir.None? ==> issued == [] && guard.building == old(guard.building)
    ensures dir.Some? ==> issued == [ListContainers(ContainerName(language))] + Removals(Containers, ListingIds(listing))
    ensures outcome == Rejected ==> guard.building == old(guard.building)
    ensures outcome != Rejected && dir.Some? ==> guard.building == old(guard.building)[ImageName(language) := true]
  {
    if dir.None? {
      return [], Failed(NoActiveFile);
    }
    var acquired;
    issued, acquired := guard.Begin(language, listing);
    if !acquired {
      return issued, Rejected;
    }
    outcome := Build(fs, language, dir.value, h);
  }

  lemma UpdateTwice(m: map<string, bool>, k: string)
    ensures m[k := true][k := false] == m[k := false]
  {
  }

  /** The `try` block of `run` up to the dispatch: the Dockerfile and both options. */
  method Build(fs: FileSystem, language: string, dir: string, h: Host) returns (outcome: RunOutcome)
    requires ValidHost(h)
    modifies fs
    ensures outcome == BuildResult(old(fs.files), language, dir, h)
    ensures fs.files == BuildFiles(old(fs.files), language, dir, h)
  {
    var path := Config.DockerfilePath(Some(dir), language);
    Prepare(fs, language, dir);
    var options := ResolveOptions(fs, path, h);
    if options.Err? {
      return Failed(options.error);
    }
    outcome := Dispatched(Plan(language, path, options.value.0, options.value.1));
  }

  /** `runMultilineCommandsOnTerminal(containerName, Commands)` once the plan is complete. */
  method Dispatch(registry: TerminalRegistry, language: string, outcome: RunOutcome)
    requires registry.Valid()
    modifies registry, registry.terminals.Values
    ensures registry.Valid()
    ensures outcome.Dispatched? ==> Delivered(registry, old(registry.terminals), old(SentTexts(registry.terminals)),
                                              ContainerName(language), Join(outcome.plan + [""], ";"))
    ensures !outcome.Dispatched? ==> Unchanged(registry, old(registry.terminals), old(SentTexts(registry.terminals)))
  {
    if outcome.Dispatched? {
      var _ := registry.RunMultilineCommands(ContainerName(language), outcome.plan);
    }
  }

  /** `if (!dockerFileExist) makeDockerfile(language)`: a missing Dockerfile is written from the template. */
  method Prepare(fs: FileSystem, language: string, dir: string)
    modifies fs
    ensures fs.files == Prepared(old(fs.files), Config.DockerfilePath(Some(dir), language), language)
  {
    var path := Config.DockerfilePath(Some(dir), language);
    if !fs.Exists(path) {
      var _ := Config.MakeDockerfile(fs, language, Some(dir), None);
    }
  }

  /** `mapDockerPorts(dockerFilePath)`, then `mapDockerVolumes(dockerFilePath)`. */
  method ResolveOptions(fs: FileSystem, path: string, h: Host) returns (r: Result<(string, string), RunError>)
    requires ValidHost(h)
    modifies fs
    ensures r == Options(old(fs.files), path, h)
    ensures fs.files == OptionFiles(old(fs.files), path, h)
  {
    var content := if fs.Exists(path) then Some(fs.files[path]) else None;
    var ports, _ := DockerfileParser.ParseDockerfile(content, h.parseJsonArray);
    var portOption := Ports.MapDockerPorts(ports, h.random, h.isFree);
    if portOption.None? {
      return Err(NoFreePort);
    }
    var volumeOption := Volumes.MapDockerVolumes(fs, path, h.parseJsonArray, h.parse, h.stringify);
    if volumeOption.Err? {
      return Err(MountFailed(volumeOption.error));
    }
    r := Ok((portOption.value, volumeOption.value));
  }

  // ---------------------------------------------------------------------------
  // a freshly written Dockerfile

  /**
   * A Dockerfile written from a template declares no port and no volume, and neither does
   * a missing one, so whether the un-awaited `makeDockerfile` finishes before the parse or
   * after it, the parse finds nothing.
   */
  lemma FreshDockerfileDeclaresNothing(language: string, h: Host)
    requires language in Constants.DockerTemplates
    ensures DockerfileParser.DockerfilePorts(Some(Constants.DockerTemplates[language])) == []
    ensures DockerfileParser.DockerfileVolumes(Some(Constants.DockerTemplates[language]), h.parseJsonArray) == []
    ensures DockerfileParser.DockerfilePorts(None) == []
    ensures DockerfileParser.DockerfileVolumes(None, h.parseJsonArray) == []
  {
    var t := Constants.DockerTemplates[language];
    Constants.TemplatesWellFormed();
    assert Constants.FreeOfDirectives(t);
    DockerfileParser.NoKeywordNoCaptures(t, "EXPOSE", 0);
    DockerfileParser.NoKeywordNoCaptures(t, "VOLUME", 0);
  }

  /**
   * When the language has a template and its Dockerfile is missing, `run` writes the
   * template and dispatches the plan with empty port and volume options.
   */
  lemma FreshRunDispatchesBarePlan(building: map<string, bool>, files: map<string, string>, language: string,
                                   dir: string, h: Host)
    requires ValidHost(h) && !Busy(building, ImageName(language))
    requires language in Constants.DockerTemplates && Config.DockerfilePath(Some(dir), language) !in files
    ensures RunResult(building, files, language, Some(dir), h)
      == Dispatched(Plan(language, Config.DockerfilePath(Some(dir), language), "", ""))
    ensures RunFiles(building, files, language, Some(dir), h)
      == files[Config.DockerfilePath(Some(dir), language) := Constants.DockerTemplates[language]]
  {
    var path := Config.DockerfilePath(Some(dir), language);
    var prepared := Prepared(files, path, language);
    assert Volumes.DockerfileText(prepared, path) == Some(Constants.DockerTemplates[language]);
    FreshDockerfileDeclaresNothing(language, h);
  }
}
