/**
 * The simulation-folder helpers: resolving the folder layout, the path of an
 * input file, the paths of result files per step, and the printed steps.
 * The file system is an oracle passed in; nothing is read or written.
 */
module FepxHelpers {
  import opened Wrappers
  import opened Errors
  import opened PyText
  import opened OsPath
  import opened SimMetadata
  import opened StepSort

  /** The sub-folder the newer layout puts the simulation in. */
  const SimSubfolder := "simulation.sim"

  /** The metadata file that records the step count and the skipped steps. */
  const DotSim := ".sim"

  // ---------------------------------------------------------------------------
  // get_sim_fdr

  /** The folder to work in: `simulation.sim` inside `simFdr` if that exists, else `simFdr`. */
  function GetSimFdr(fs: FileSystem, simFdr: string): (r: string)
    ensures r == simFdr <==> !fs.Exists(Join(simFdr, SimSubfolder))
    ensures r != simFdr ==> r == Join(simFdr, SimSubfolder)
  {
    if fs.Exists(Join(simFdr, SimSubfolder)) then Join(simFdr, SimSubfolder) else simFdr
  }

  /** A resolved folder keeps a plain folder plain: non-empty, no trailing '/'. */
  lemma GetSimFdrPlain(fs: FileSystem, simFdr: string)
    requires |simFdr| > 0 && !EndsWithSep(simFdr)
    ensures |GetSimFdr(fs, simFdr)| > 0 && !EndsWithSep(GetSimFdr(fs, simFdr))
  {
  }

  // ---------------------------------------------------------------------------
  // get_input_filepath

  /** The four recognised input types and the file each one names. */
  const InputFiles: map<string, string> :=
    map["config" := "simulation.cfg", "mesh" := "simulation.mesh",
        "tess" := "simulation.tess", "opt" := "simulation.opt"]

  /** `<fdr>/inputs/<file>` as `os.path.join` builds it. */
  function InputPath(fdr: string, file: string): string {
    Join(Join(fdr, "inputs"), file)
  }

  /**
   * The path of an input file: the type is lowered first; an unknown type is a
   * ValueError; a known one gives `inputs/<file>` in the resolved folder, or
   * `None` when that file does not exist.
   */
  function GetInputFilepath(fs: FileSystem, simFdr: string, inputType: string): (r: Result<Option<string>, Error>)
    ensures r.Failure? <==> Lower(inputType) !in {"config", "mesh", "tess", "opt"}
    ensures r.Failure? ==> r.error == InvalidInputType
    ensures r.Success? ==>
      var path := InputPath(GetSimFdr(fs, simFdr), InputFiles[Lower(inputType)]);
      && (r.value.Some? <==> fs.Exists(path))
      && (r.value.Some? ==> r.value.value == path)
  {
    var fdr := GetSimFdr(fs, simFdr);
    var kind := Lower(inputType);
    if kind !in InputFiles then Failure(InvalidInputType)
    else
      var path := InputPath(fdr, InputFiles[kind]);
      if fs.Exists(path) then Success(Some(path)) else Success(None)
  }

  /** A relative file name inside `<fdr>/inputs` ends the path after `inputs/`. */
  lemma InputPathSuffix(fdr: string, file: string)
    requires !IsAbsolute(file)
    ensures EndsWith(InputPath(fdr, file), "inputs/" + file)
  {
    var dir := Join(fdr, "inputs");
    assert EndsWith(dir, "inputs") && |dir| > 0 && !EndsWithSep(dir);
    JoinedSuffix(dir, "inputs", file);
    assert "inputs" + "/" == "inputs/";
  }

  /** Every path returned ends in `inputs/` and the fixed file name of its type. */
  lemma InputFilepathSuffix(fs: FileSystem, simFdr: string, inputType: string)
    requires GetInputFilepath(fs, simFdr, inputType).Success?
    requires GetInputFilepath(fs, simFdr, inputType).value.Some?
    ensures EndsWith(GetInputFilepath(fs, simFdr, inputType).value.value,
                     "inputs/" + InputFiles[Lower(inputType)])
  {
    var kind := Lower(inputType);
    var file := InputFiles[kind];
    assert file[0] == 's';
    InputPathSuffix(GetSimFdr(fs, simFdr), file);
  }

  /** For a plain folder the path is literally `<folder>/inputs/<file>`. */
  lemma InputFilepathLiteral(fs: FileSystem, simFdr: string, inputType: string)
    requires |simFdr| > 0 && !EndsWithSep(simFdr)
    requires Lower(inputType) in InputFiles
    ensures var fdr := GetSimFdr(fs, simFdr);
      var path := fdr + "/inputs/" + InputFiles[Lower(inputType)];
      GetInputFilepath(fs, simFdr, inputType)
        == if fs.Exists(path) then Success(Some(path)) else Success(None)
  {
    var fdr := GetSimFdr(fs, simFdr);
    GetSimFdrPlain(fs, simFdr);
    var file := InputFiles[Lower(inputType)];
    JoinPlain(fdr, "inputs");
    JoinPlain(fdr + "/" + "inputs", file);
    assert fdr + "/" + "inputs" + "/" + file == fdr + "/inputs/" + file;
  }

  /** Upper and lower case name the same input type. */
  lemma InputTypeCaseInsensitive(fs: FileSystem, simFdr: string, inputType: string)
    ensures GetInputFilepath(fs, simFdr, inputType) == GetInputFilepath(fs, simFdr, Lower(inputType))
  {
    assert Lower(Lower(inputType)) == Lower(inputType);
  }

  // ---------------------------------------------------------------------------
  // get_number_of_steps

  /**
   * The printed steps of a simulation folder: `[0]` when the folder has no
   * `.sim` file, whatever `includeZero` says; otherwise the computation over
   * the file's lines.
   */
  function GetNumberOfSteps(fs: FileSystem, simFdr: string, includeZero: bool): (r: Result<seq<int>, Error>)
    ensures !fs.Exists(Join(GetSimFdr(fs, simFdr), DotSim)) ==> r == Success([0])
    ensures fs.Exists(Join(GetSimFdr(fs, simFdr), DotSim)) ==>
      r == (if Join(GetSimFdr(fs, simFdr), DotSim) in fs.files
            then PrintedSteps(fs.files[Join(GetSimFdr(fs, simFdr), DotSim)], includeZero)
            else Failure(NotAFile))
    ensures r.Success? ==> StrictlyIncreasing(r.value) && forall x :: x in r.value ==> x >= 0
  {
    var fdr := GetSimFdr(fs, simFdr);
    var dotSim := Join(fdr, DotSim);
    if !fs.Exists(dotSim) then Success([0])
    else if dotSim !in fs.files then Failure(NotAFile)
    else
      var r := PrintedSteps(fs.files[dotSim], includeZero);
      assert r.Success? ==> forall x :: x in r.value ==> x >= 0 by {
        if r.Success? {
          PrintedStepsMembers(fs.files[dotSim], includeZero, r.value);
        }
      }
      r
  }

  // ---------------------------------------------------------------------------
  // get_result_filepath

  /** The `steps` argument: one integer (0 meaning every printed step) or a list. */
  datatype StepRequest = Step(n: int) | Steps(list: seq<int>)

  /** The value returned: one path on its own, or a list of any other length. */
  datatype PathOrPaths = OnePath(path: string) | PathList(paths: seq<string>)

  const Entities := ["elts", "elsets", "mesh"]

  /** `<fdr>/results/<entity>/<result>` as `os.path.join` builds it. */
  function ResultFolder(fdr: string, entity: string, result: string): string {
    JoinAll(fdr, ["results", entity, result])
  }

  /** `<resFdr>/<result>.step<step>` as `os.path.join` builds it. */
  function StepFile(resFdr: string, result: string, step: int): string {
    Join(resFdr, result + ".step" + IntToString(step))
  }

  function StepFiles(resFdr: string, result: string, steps: seq<int>): seq<string> {
    seq(|steps|, k requires 0 <= k < |steps| => StepFile(resFdr, result, steps[k]))
  }

  /** `res_fp[0] if len(res_fp) == 1 else res_fp`. */
  function Collapse(paths: seq<string>): PathOrPaths {
    if |paths| == 1 then OnePath(paths[0]) else PathList(paths)
  }

  /** The list a returned value stands for. */
  function Expand(v: PathOrPaths): seq<string> {
    match v
    case OnePath(p) => [p]
    case PathList(ps) => ps
  }

  /** Only a list of length one is collapsed to a bare path, and nothing is lost doing so. */
  lemma CollapseRoundTrip(paths: seq<string>, v: PathOrPaths)
    ensures Expand(Collapse(paths)) == paths
    ensures Collapse(paths).OnePath? <==> |paths| == 1
    ensures (v.PathList? ==> |v.paths| != 1) ==> Collapse(Expand(v)) == v
  {
  }

  /** The step list a request stands for: 0 asks for every printed step, step zero included. */
  function ResolveSteps(fs: FileSystem, fdr: string, steps: StepRequest): Result<seq<int>, Error> {
    match steps
    case Step(n) => if n != 0 then Success([n]) else GetNumberOfSteps(fs, fdr, true)
    case Steps(list) => Success(list)
  }

  /**
   * The path or paths of a result inside an already resolved folder: an
   * unknown entity is a ValueError whatever the other arguments; otherwise one
   * `<result>.step<s>` file per requested step, in order, collapsed to a bare
   * path when there is exactly one. The call for step 0 is the one line 85
   * evidently intends.
   */
  function ResultPathsIn(fs: FileSystem, fdr: string, result: string, entity: string, steps: StepRequest)
    : (r: Result<PathOrPaths, Error>)
    ensures entity !in Entities ==> r == Failure(InvalidEntity)
    ensures entity in Entities && steps.Step? && steps.n != 0 ==>
      r == Success(OnePath(StepFile(ResultFolder(fdr, entity, result), result, steps.n)))
    ensures entity in Entities && steps.Steps? ==>
      && r.Success?
      && (r.value.OnePath? <==> |steps.list| == 1)
      && Expand(r.value) == StepFiles(ResultFolder(fdr, entity, result), result, steps.list)
    ensures entity in Entities && steps == Step(0) ==>
      var printed := GetNumberOfSteps(fs, fdr, true);
      r == (if printed.Success?
            then Success(Collapse(StepFiles(ResultFolder(fdr, entity, result), result, printed.value)))
            else Failure(printed.error))
  {
    if entity !in Entities then Failure(InvalidEntity)
    else
      var resFdr := ResultFolder(fdr, entity, result);
      var list :- ResolveSteps(fs, fdr, steps);
      Success(Collapse(StepFiles(resFdr, result, list)))
  }

  /** `get_result_filepath`: resolve the folder layout first, then build the paths in it. */
  function GetResultFilepath(fs: FileSystem, simFdr: string, result: string, entity: string, steps: StepRequest)
    : (r: Result<PathOrPaths, Error>)
    ensures entity !in Entities ==> r == Failure(InvalidEntity)
  {
    ResultPathsIn(fs, GetSimFdr(fs, simFdr), result, entity, steps)
  }

  /**
   * `get_result_filepath` as line 85 is written: the name `_get_number_of_steps`
   * is not defined, so the default request `steps == 0` raises NameError for
   * every valid entity; an unknown entity is still refused first, and other
   * requests behave as in `GetResultFilepath`.
   */
  function GetResultFilepathAsWritten(fs: FileSystem, simFdr: string, result: string, entity: string, steps: StepRequest)
    : (r: Result<PathOrPaths, Error>)
    ensures entity !in Entities ==> r == Failure(InvalidEntity)
    ensures entity in Entities && steps == Step(0) ==> r == Failure(UndefinedName("_get_number_of_steps"))
    ensures steps != Step(0) ==> r == GetResultFilepath(fs, simFdr, result, entity, steps)
  {
    if entity !in Entities then Failure(InvalidEntity)
    else if steps == Step(0) then Failure(UndefinedName("_get_number_of_steps"))
    else GetResultFilepath(fs, simFdr, result, entity, steps)
  }

  /**
   * The default request on a folder without `.sim`: the corrected function
   * gives the single step-0 path, the code as written raises NameError.
   */
  lemma DefaultStepsWithoutMetadata(fs: FileSystem, simFdr: string, result: string, entity: string)
    requires entity in Entities
    requires !fs.Exists(Join(GetSimFdr(fs, GetSimFdr(fs, simFdr)), DotSim))
    ensures GetResultFilepath(fs, simFdr, result, entity, Step(0))
         == Success(OnePath(StepFile(ResultFolder(GetSimFdr(fs, simFdr), entity, result), result, 0)))
    ensures GetResultFilepathAsWritten(fs, simFdr, result, entity, Step(0)).Failure?
  {
    var fdr := GetSimFdr(fs, simFdr);
    assert GetNumberOfSteps(fs, fdr, true) == Success([0]);
  }

  /**
   * The default request resolves the folder twice: the paths are built in
   * `GetSimFdr(simFdr)`, while `get_number_of_steps` resolves that folder
   * again and reads the `.sim` it finds there. The two folders differ exactly
   * when a second `simulation.sim` lies inside the first.
   */
  lemma DefaultRequestFolders(fs: FileSystem, simFdr: string, result: string, entity: string)
    requires entity in Entities
    ensures var once := GetSimFdr(fs, simFdr);
      var twice := GetSimFdr(fs, once);
      && (twice != once <==> fs.Exists(Join(once, SimSubfolder)))
      && (Join(twice, DotSim) in fs.files ==>
            var printed := PrintedSteps(fs.files[Join(twice, DotSim)], true);
            GetResultFilepath(fs, simFdr, result, entity, Step(0))
              == if printed.Success?
                 then Success(Collapse(StepFiles(ResultFolder(once, entity, result), result, printed.value)))
                 else Failure(printed.error))
  {
    var once := GetSimFdr(fs, simFdr);
    assert GetResultFilepath(fs, simFdr, result, entity, Step(0)) == ResultPathsIn(fs, once, result, entity, Step(0));
  }

  /** For a plain folder and result name the result folder is literally `<folder>/results/<entity>/<result>`. */
  lemma ResultFolderPlain(fdr: string, entity: string, result: string)
    requires |fdr| > 0 && !EndsWithSep(fdr)
    requires |result| > 0 && !IsAbsolute(result) && !EndsWithSep(result)
    requires entity in Entities
    ensures ResultFolder(fdr, entity, result) == fdr + "/results/" + entity + "/" + result
    ensures !EndsWithSep(ResultFolder(fdr, entity, result))
  {
    var parts := ["results", entity, result];
    var a := fdr + "/" + "results";
    var b := a + "/" + entity;
    JoinPlain(fdr, "results");
    JoinPlain(a, entity);
    JoinPlain(b, result);
    assert parts[1..] == [entity, result];
    assert [entity, result][1..] == [result];
    assert [result][1..] == [];
    assert ResultFolder(fdr, entity, result) == JoinAll(a, [entity, result]);
    assert JoinAll(a, [entity, result]) == JoinAll(b, [result]);
    assert JoinAll(b, [result]) == b + "/" + result;
    assert "/" + "results" + "/" == "/results/";
    assert b + "/" + result == fdr + "/results/" + entity + "/" + result;
  }

  /**
   * For a plain folder and result name a single non-zero step gives literally
   * `<folder>/results/<entity>/<result>/<result>.step<s>`.
   */
  lemma ResultFilepathLiteral(fs: FileSystem, simFdr: string, result: string, entity: string, s: int)
    requires |simFdr| > 0 && !EndsWithSep(simFdr)
    requires |result| > 0 && !IsAbsolute(result) && !EndsWithSep(result)
    requires entity in Entities && s != 0
    ensures GetResultFilepath(fs, simFdr, result, entity, Step(s))
         == Success(OnePath(GetSimFdr(fs, simFdr) + "/results/" + entity + "/" + result + "/"
                            + result + ".step" + IntToString(s)))
  {
    var fdr := GetSimFdr(fs, simFdr);
    GetSimFdrPlain(fs, simFdr);
    ResultFolderPlain(fdr, entity, result);
    var c := ResultFolder(fdr, entity, result);
    var digits := IntToString(s);
    JoinPlain(c, result + ".step" + digits);
    var folder := fdr + "/results/" + entity + "/" + result;
    assert folder + "/" + (result + ".step" + digits) == folder + "/" + result + ".step" + digits;
  }

  /** Different steps give different file paths. */
  lemma StepFileInjective(resFdr: string, result: string, s: int, t: int)
    requires StepFile(resFdr, result, s) == StepFile(resFdr, result, t)
    ensures s == t
  {
    var b := result + ".step" + IntToString(s);
    var c := result + ".step" + IntToString(t);
    assert IsAbsolute(b) <==> IsAbsolute(c);
    assert b == c;
    assert IntToString(s) == b[|result + ".step"|..];
    assert IntToString(t) == c[|result + ".step"|..];
    IntToStringInjective(s, t);
  }

  /** A step file sorts by its step number. */
  lemma StepFileKey(resFdr: string, result: string, s: nat)
    ensures KeyOf(StepFile(resFdr, result, s)) == Number(s)
  {
    var digits := NatToString(s);
    var head := result + ".step";
    var b := head + digits;
    var p := StepFile(resFdr, result, s);
    assert EndsWith(p, b);
    var prefix := p[..|p| - |digits|];
    assert p == prefix + digits;
    assert prefix[|prefix| - 1] == b[|head| - 1] == head[|head| - 1] == 'p';
    KeyOfNumberedName(prefix, s);
  }

  /**
   * The files of ascending non-negative steps, such as the printed steps, are
   * already in the order `sort_sim_steps` puts them in.
   */
  lemma StepFilesAlreadySorted(resFdr: string, result: string, steps: seq<int>)
    requires StrictlyIncreasing(steps) && forall k :: 0 <= k < |steps| ==> steps[k] >= 0
    ensures SortSimSteps(StepFiles(resFdr, result, steps)) == Success(StepFiles(resFdr, result, steps))
  {
    var files := StepFiles(resFdr, result, steps);
    forall k | 0 <= k < |files|
      ensures KeyOf(files[k]) == Number(steps[k])
    {
      StepFileKey(resFdr, result, steps[k]);
    }
    assert !MixedKeys(files);
    assert Sorted(files, KeyOf);
    SortByKeyOfSorted(files, KeyOf);
  }
}
