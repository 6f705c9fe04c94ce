/**
 * The crate root: find the supported files under the input path, then load,
 * prepare, render and save each one in turn, stopping at the first failure.
 */
module Scatters {
  import opened Wrappers
  import opened Text
  import opened Values
  import opened Foreign
  import opened Paths
  import opened AppErrors
  import opened CommandLine
  import opened DataLoader
  import opened Processing
  import opened Plotter

  /** The extensions the discovery step keeps, compared after lower-casing. */
  const SUPPORTED_EXTENSIONS: seq<string> :=
    ["csv", "parquet", "json", "jsonl", "ndjson", "xlsx", "xls", "wav", "mp3", "flac"]

  /** What the file system says the input path is (`is_file`, `is_dir`, neither). */
  datatype PathKind = RegularFile | Directory | Neither

  /** One entry of the recursive directory walk, with its own file type. */
  datatype WalkEntry = WalkEntry(path: Path, isFile: bool)

  /**
   * The outside world of one run: what the input path is, the entries the
   * recursive walk yields in order (`None` for one the walk could not read),
   * the loaders' foreign pieces, the float routines and the writer that
   * creates the output's directory and stores the rendered page.
   */
  datatype Environment = Environment(
    kind: PathKind,
    walk: seq<Option<WalkEntry>>,
    src: Sources,
    parsers: Parsers,
    num: Numerics,
    write: (Path, Page) -> Result<Unit, AppError>)

  /** A run fails either while discovering files or on one file, named in the error's context. */
  datatype RunError = Discovery(cause: AppError) | Failed(file: Path, cause: AppError)

  /** The path has an extension whose lower-cased form is in the supported list. */
  predicate IsSupported(p: Path) {
    Extension(p).Some? && Lower(Extension(p).value) in SUPPORTED_EXTENSIONS
  }

  /** A walk entry the discovery keeps: readable, a regular file, with a supported extension. */
  predicate Kept(e: Option<WalkEntry>) {
    e.Some? && e.value.isFile && IsSupported(e.value.path)
  }

  /** The paths the directory walk collects, in walk order. */
  function WalkFiles(walk: seq<Option<WalkEntry>>): (files: seq<Path>)
    ensures |files| <= |walk|
    ensures forall k :: 0 <= k < |files| ==> IsSupported(files[k])
  {
    if walk == [] then []
    else
      var rest := WalkFiles(walk[..|walk| - 1]);
      if Kept(walk[|walk| - 1]) then rest + [walk[|walk| - 1].value.path] else rest
  }

  /** `find_supported_files` as a function of what the file system holds at `path`. */
  function Discovered(path: Path, kind: PathKind, walk: seq<Option<WalkEntry>>): Result<seq<Path>, AppError> {
    match kind
    case RegularFile => Ok(if IsSupported(path) then [path] else [])
    case Directory => Ok(WalkFiles(walk))
    case Neither => Err(InvalidInputPath(path))
  }

  /** Every kept entry of the walk is collected. */
  lemma {:induction false} WalkFilesComplete(walk: seq<Option<WalkEntry>>)
    ensures forall j :: 0 <= j < |walk| && Kept(walk[j]) ==> walk[j].value.path in WalkFiles(walk)
  {
    if walk != [] {
      var init := walk[..|walk| - 1];
      WalkFilesComplete(init);
      forall j | 0 <= j < |walk| - 1 && Kept(walk[j])
        ensures walk[j].value.path in WalkFiles(walk)
      {
        assert walk[j] == init[j];
      }
    }
  }

  /** Everything collected is the path of a kept entry of the walk. */
  lemma {:induction false} WalkFilesSound(walk: seq<Option<WalkEntry>>)
    ensures forall q :: q in WalkFiles(walk) ==> exists j :: 0 <= j < |walk| && Kept(walk[j]) && walk[j].value.path == q
  {
    if walk != [] {
      var init := walk[..|walk| - 1];
      WalkFilesSound(init);
      forall q | q in WalkFiles(walk)
        ensures exists j :: 0 <= j < |walk| && Kept(walk[j]) && walk[j].value.path == q
      {
        if q in WalkFiles(init) {
          var j :| 0 <= j < |init| && Kept(init[j]) && init[j].value.path == q;
          assert walk[j] == init[j];
        } else {
          assert Kept(walk[|walk| - 1]) && walk[|walk| - 1].value.path == q;
        }
      }
    }
  }

  /** The walk is read in order: collecting over two stretches of it concatenates their results. */
  lemma {:induction false} WalkFilesAppend(a: seq<Option<WalkEntry>>, b: seq<Option<WalkEntry>>)
    ensures WalkFiles(a + b) == WalkFiles(a) + WalkFiles(b)
  {
    if b == [] {
      assert a + b == a;
    } else {
      var init := b[..|b| - 1];
      WalkFilesAppend(a, init);
      assert (a + b)[..|a + b| - 1] == a + init;
      assert (a + b)[|a + b| - 1] == b[|b| - 1];
    }
  }

  /**
   * What discovery hands on: a path that is neither a file nor a directory is
   * `InvalidInputPath`; a single file is kept exactly when its extension is
   * supported, and an unsupported one gives an empty list rather than an error;
   * every collected path is supported.
   */
  lemma DiscoveredShape(path: Path, kind: PathKind, walk: seq<Option<WalkEntry>>)
    ensures Discovered(path, kind, walk).Err? <==> kind == Neither
    ensures kind == RegularFile ==> (Discovered(path, kind, walk).value == [path] <==> IsSupported(path))
    ensures kind == RegularFile ==> (Discovered(path, kind, walk).value == [] <==> !IsSupported(path))
    ensures Discovered(path, kind, walk).Ok? ==>
      forall k :: 0 <= k < |Discovered(path, kind, walk).value| ==> IsSupported(Discovered(path, kind, walk).value[k])
  {
  }

  /** Every file discovery keeps has a loader: the loader's dispatch never calls it unsupported. */
  lemma SupportedIsLoadable(p: Path)
    requires IsSupported(p)
    ensures FormatOf(DispatchExtension(p)) != Unsupported
  {
  }

  /**
   * The two extension lists disagree: a `.ogg`, `.m4a` or `.aac` file would
   * be decoded by the loader, but discovery never hands it over.
   */
  lemma ExtraAudioNotDiscovered(dir: Path, stem: string, ext: string)
    requires stem != [] && ext in ["ogg", "m4a", "aac"]
    ensures FormatOf(DispatchExtension(dir + [stem + "." + ext])) == Audio
    ensures !IsSupported(dir + [stem + "." + ext])
  {
    StemAndExtensionOfName(dir, stem, ext);
    ExtraAudioExtensions(ext);
  }

  /** The three extra audio extensions are lower case, loadable as audio and absent from the discovery list. */
  lemma ExtraAudioExtensions(ext: string)
    requires ext in ["ogg", "m4a", "aac"]
    ensures Lower(ext) == ext && FormatOf(ext) == Audio && ext !in SUPPORTED_EXTENSIONS
  {
    if ext == "ogg" {
      assert Lower("ogg") == "ogg";
    } else if ext == "m4a" {
      assert Lower("m4a") == "m4a";
    } else {
      assert Lower("aac") == "aac";
    }
  }

  /** `find_supported_files`. */
  method FindSupportedFiles(path: Path, kind: PathKind, walk: seq<Option<WalkEntry>>) returns (r: Result<seq<Path>, AppError>)
    ensures r == Discovered(path, kind, walk)
  {
    var files: seq<Path> := [];
    if kind == RegularFile {
      var ext := Extension(path);
      if ext.Some? && Lower(ext.value) in SUPPORTED_EXTENSIONS {
        files := files + [path];
        assert files == [path];
      }
      assert IsSupported(path) <==> ext.Some? && Lower(ext.value) in SUPPORTED_EXTENSIONS;
      assert Ok(files) == Discovered(path, kind, walk);
    } else if kind == Directory {
      for i := 0 to |walk|
        invariant files == WalkFiles(walk[..i])
      {
        assert walk[..i + 1][..i] == walk[..i] && walk[..i + 1][i] == walk[i];
        var entry := walk[i];
        if entry.Some? && entry.value.isFile {
          var ext := Extension(entry.value.path);
          if ext.Some? && Lower(ext.value) in SUPPORTED_EXTENSIONS {
            files := files + [entry.value.path];
          }
        }
      }
      assert walk[..|walk|] == walk;
      assert Ok(files) == Discovered(path, kind, walk);
    } else {
      return Err(InvalidInputPath(path));
    }
    r := Ok(files);
  }

  /** The name of the page written for an input: its stem (empty when it has none) and `.html`. */
  function OutputName(input: Path): string {
    FileStem(input).GetOr("") + ".html"
  }

  /**
   * `generate_output_path`: the page goes into the output directory when one
   * is given and next to the input otherwise, named after the input's stem.
   */
  function OutputPath(input: Path, cli: Cli): (r: Path)
    ensures |r| >= 1 && r[|r| - 1] == OutputName(input)
    ensures cli.output.Some? ==> r[..|r| - 1] == cli.output.value
    ensures cli.output.None? && FileName(input).Some? ==> r[..|r| - 1] == input[..|input| - 1]
    ensures cli.output.None? && FileName(input).None? ==> r[..|r| - 1] == input
  {
    var name := OutputName(input);
    if cli.output.Some? then Join(cli.output.value, name) else WithFileName(input, name)
  }

  /** A page is never written over the input it was made from. */
  lemma OutputNeverOverwritesInput(input: Path, cli: Cli)
    requires IsSupported(input)
    ensures OutputPath(input, cli) != input
  {
    StemDotExtension(input);
    var stem := FileStem(input).value;
    var ext := Extension(input).value;
  }

  /** `process_single_file` as a function: load, prepare, render, then write the page. */
  function ProcessOutcome(file: Path, cli: Cli, env: Environment): Result<Unit, AppError> {
    match LoadTable(file, cli.verticalMarker, env.src, env.parsers)
    case Err(e) => Err(e)
    case Ok(cols) =>
      match PlotDataOf(cols, cli, file, env.num)
      case Err(e) => Err(e)
      case Ok(pd) => env.write(OutputPath(file, cli), PageOf(pd))
  }

  /**
   * A file's failure is the first failing step's error: a load error is
   * returned as is, a selection error likewise, and only a file that loads
   * and prepares reaches the writer, with its page and output path.
   */
  lemma ProcessOutcomeSteps(file: Path, cli: Cli, env: Environment)
    ensures LoadTable(file, cli.verticalMarker, env.src, env.parsers).Err? ==>
      ProcessOutcome(file, cli, env) == Err(LoadTable(file, cli.verticalMarker, env.src, env.parsers).error)
    ensures var loaded := LoadTable(file, cli.verticalMarker, env.src, env.parsers);
      loaded.Ok? && SelectX(loaded.value, cli).Err? ==>
        ProcessOutcome(file, cli, env) == Err(SelectX(loaded.value, cli).error)
    ensures var loaded := LoadTable(file, cli.verticalMarker, env.src, env.parsers);
      loaded.Ok? && PlotDataOf(loaded.value, cli, file, env.num).Ok? ==>
        ProcessOutcome(file, cli, env) == env.write(OutputPath(file, cli), PageOf(PlotDataOf(loaded.value, cli, file, env.num).value))
  {
  }

  /** `process_single_file`'s outcome as a function of the file, for one configuration and environment. */
  function ProcessStep(cli: Cli, env: Environment): Path -> Result<Unit, AppError> {
    f => ProcessOutcome(f, cli, env)
  }

  /**
   * `step` gives each file's processing outcome. The quantifier fires only on
   * an explicit `ProcessOutcome` term, which keeps the loop's proof from
   * unfolding the whole pipeline for every file.
   */
  ghost predicate Processes(step: Path -> Result<Unit, AppError>, cli: Cli, env: Environment) {
    forall f {:trigger ProcessOutcome(f, cli, env)} :: step(f) == ProcessOutcome(f, cli, env)
  }

  /** Index of the first file whose step fails. */
  function FirstFailure(files: seq<Path>, step: Path -> Result<Unit, AppError>): (k: Option<nat>)
    ensures k.Some? ==> k.value < |files| && step(files[k.value]).Err?
    ensures k.Some? ==> forall j :: 0 <= j < k.value ==> step(files[j]).Ok?
    ensures k.None? <==> forall j :: 0 <= j < |files| ==> step(files[j]).Ok?
  {
    if files == [] then None
    else if step(files[0]).Err? then Some(0)
    else
      match FirstFailure(files[1..], step)
      case None => None
      case Some(k) => Some(k + 1)
  }

  /** A batch's verdict: the first failing file with its error, or success. */
  function BatchOutcome(files: seq<Path>, step: Path -> Result<Unit, AppError>): Result<Unit, RunError> {
    match FirstFailure(files, step)
    case None => Ok(Unit)
    case Some(k) => Err(Failed(files[k], step(files[k]).error))
  }

  /** How many files a batch attempts: all of them, or those up to and including the first failure. */
  function BatchAttempted(files: seq<Path>, step: Path -> Result<Unit, AppError>): (n: nat)
    ensures n <= |files|
  {
    match FirstFailure(files, step)
    case None => |files|
    case Some(k) => k + 1
  }

  /**
   * The batch stops at the first failure: the files are attempted in order,
   * every attempted file but the last succeeded, and the batch fails exactly
   * when some file fails, naming the last attempted one; an empty batch is a
   * success that attempts nothing.
   */
  lemma BatchStopsAtFirstFailure(files: seq<Path>, step: Path -> Result<Unit, AppError>)
    ensures var n := BatchAttempted(files, step);
      && (files == [] ==> BatchOutcome(files, step) == Ok(Unit) && n == 0)
      && (BatchOutcome(files, step).Ok? <==> forall j :: 0 <= j < |files| ==> step(files[j]).Ok?)
      && (BatchOutcome(files, step).Ok? ==> n == |files|)
      && (BatchOutcome(files, step).Err? ==>
            && 0 < n
            && BatchOutcome(files, step).error == Failed(files[n - 1], step(files[n - 1]).error)
            && forall j :: 0 <= j < n - 1 ==> step(files[j]).Ok?)
  {
  }

  /** `run`'s verdict: the discovery error, or the verdict of the batch over the discovered files. */
  function RunOutcome(cli: Cli, env: Environment): Result<Unit, RunError> {
    match Discovered(cli.inputPath, env.kind, env.walk)
    case Err(e) => Err(Discovery(e))
    case Ok(files) => BatchOutcome(files, ProcessStep(cli, env))
  }

  /** How many files `run` hands to `process_single_file`, taken in discovery order. */
  function Attempted(cli: Cli, env: Environment): nat {
    match Discovered(cli.inputPath, env.kind, env.walk)
    case Err(_) => 0
    case Ok(files) => BatchAttempted(files, ProcessStep(cli, env))
  }

  /** `process_single_file`: its outcome is `step(file)` for any `step` that gives the processing outcome. */
  method ProcessSingleFile(file: Path, cli: Cli, env: Environment, ghost step: Path -> Result<Unit, AppError>)
    returns (r: Result<Unit, AppError>)
    requires ReadersGiveFrames(env.src) && Processes(step, cli, env)
    ensures r == step(file)
  {
    var loaded := LoadDataFrame(file, cli.verticalMarker, env.src, env.parsers);
    if loaded.Err? {
      r := Err(loaded.error);
    } else {
      var plotData := PreparePlotData(loaded.value, cli, file, env.num);
      if plotData.Err? {
        r := Err(plotData.error);
      } else {
        var page := GenerateHtmlPlot(plotData.value);
        var outputPath := OutputPath(file, cli);
        r := env.write(outputPath, page);
      }
    }
    assert r == ProcessOutcome(file, cli, env);
  }

  /** The loop of `run` over the discovered files; also returns how many it attempted. */
  method ProcessFiles(files: seq<Path>, cli: Cli, env: Environment, ghost step: Path -> Result<Unit, AppError>)
    returns (r: Result<Unit, RunError>, attempted: nat)
    requires ReadersGiveFrames(env.src) && Processes(step, cli, env)
    ensures r == BatchOutcome(files, step)
    ensures attempted == BatchAttempted(files, step)
  {
    attempted := 0;
    for i := 0 to |files|
      invariant attempted == i
      invariant forall j :: 0 <= j < i ==> step(files[j]).Ok?
    {
      attempted := attempted + 1;
      var outcome := ProcessSingleFile(files[i], cli, env, step);
      if outcome.Err? {
        FirstFailureAt(files, step, i);
        return Err(Failed(files[i], outcome.error)), attempted;
      }
    }
    r := Ok(Unit);
  }

  /** `run`: discovery, then the batch; nothing found is a success. Also returns how many files it attempted. */
  method Run(cli: Cli, env: Environment) returns (r: Result<Unit, RunError>, attempted: nat)
    requires ReadersGiveFrames(env.src)
    ensures r == RunOutcome(cli, env)
    ensures attempted == Attempted(cli, env)
  {
    var found := FindSupportedFiles(cli.inputPath, env.kind, env.walk);
    if found.Err? {
      return Err(Discovery(found.error)), 0;
    }
    var files := found.value;
    if files == [] {
      return Ok(Unit), 0;
    }
    r, attempted := ProcessFiles(files, cli, env, ProcessStep(cli, env));
  }

  /** The first failing file is the one `FirstFailure` names. */
  lemma FirstFailureAt(files: seq<Path>, step: Path -> Result<Unit, AppError>, i: nat)
    requires i < |files| && step(files[i]).Err?
    requires forall j :: 0 <= j < i ==> step(files[j]).Ok?
    ensures FirstFailure(files, step) == Some(i)
  {
  }
}
