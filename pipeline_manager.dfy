/**
 * pipeline_manager.py (the repository root's copy): discovery from the fixed
 * root `./pipelines`, building one Docker image per catalog entry, and the
 * mock launcher that always succeeds.
 */
module RootPipelineManager {
  import opened Wrappers
  import opened Json
  import Paths
  import PM = PipelineManager

  /** The fixed pipelines root, relative to the working directory. */
  const PIPELINES_ROOT := "./pipelines"

  /** `discover_pipelines()`: the same scan, always of `./pipelines`. */
  method DiscoverPipelines(fs: PM.FileSystem) returns (d: PM.Discovery)
    ensures PIPELINES_ROOT !in fs ==> d == PM.Discovered([])
    ensures PIPELINES_ROOT in fs && fs[PIPELINES_ROOT].Unlistable? ==> d == PM.Raised(PIPELINES_ROOT)
    ensures PIPELINES_ROOT in fs && fs[PIPELINES_ROOT].Directory? ==> d == PM.CatalogOf(fs[PIPELINES_ROOT].entries)
  {
    d := PM.DiscoverPipelines(fs, Some(PIPELINES_ROOT), "");
  }

  /** The build context of a pipeline: `os.path.join('./pipelines', id)`. */
  function BuildPath(id: string): (path: string)
    ensures !Paths.IsAbsolute(id) ==> path == "./pipelines/" + id
  {
    Paths.Join(PIPELINES_ROOT, id)
  }

  /** The command line given to `subprocess.run`, when the image name is a string. */
  function BuildCommand(p: PM.Manifest): (cmd: Option<seq<string>>)
    requires PM.IsCatalogEntry(p)
    ensures cmd.Some? <==> PM.ImageName(p).Some?
    ensures cmd.Some? ==> cmd.value == ["sudo", "docker", "build", "-t", PM.ImageName(p).value, BuildPath(PM.PipelineId(p))]
  {
    match PM.ImageName(p)
    case None => None
    case Some(image) => Some(["sudo", "docker", "build", "-t", image, BuildPath(PM.PipelineId(p))])
  }

  /** What `subprocess.run(cmd, check=True, ...)` does with one command. */
  datatype BuildResult =
    | Built
    | ExitedNonZero(stderr: string)   // raises subprocess.CalledProcessError
    | ToolMissing                     // raises FileNotFoundError

  /** The exception that ends `build_pipelines`. */
  datatype BuildError =
    | CalledProcessError(pipelineId: string, stderr: string)
    | FileNotFound
    | InvalidImageName(pipelineId: string)   // a non-string image name: TypeError in subprocess.run

  /**
   * `build_pipelines(pipelines)`: one build command per pipeline, in catalog
   * order, stopping at the first one that raises.  `issued` lists the
   * commands handed to `run`, `error` the exception re-raised, if any.
   */
  method BuildPipelines(pipelines: seq<PM.Manifest>, run: seq<string> -> BuildResult)
    returns (issued: seq<seq<string>>, error: Option<BuildError>)
    requires PM.IsCatalog(pipelines)
    ensures |issued| <= |pipelines|
    ensures forall i :: 0 <= i < |issued| ==> BuildCommand(pipelines[i]) == Some(issued[i])
    ensures forall i :: 0 <= i < |issued| - 1 ==> run(issued[i]).Built?
    ensures error.None? ==> |issued| == |pipelines| && forall i :: 0 <= i < |issued| ==> run(issued[i]).Built?
    ensures error.Some? && error.value.CalledProcessError? ==>
      |issued| > 0 && run(issued[|issued| - 1]) == ExitedNonZero(error.value.stderr) &&
      error.value.pipelineId == PM.PipelineId(pipelines[|issued| - 1])
    ensures error.Some? && error.value.FileNotFound? ==>
      |issued| > 0 && run(issued[|issued| - 1]).ToolMissing?
    ensures error.Some? && error.value.InvalidImageName? ==>
      |issued| < |pipelines| && BuildCommand(pipelines[|issued|]).None? &&
      error.value.pipelineId == PM.PipelineId(pipelines[|issued|]) &&
      forall i :: 0 <= i < |issued| ==> run(issued[i]).Built?
  {
    issued := [];
    var i := 0;
    while i < |pipelines|
      invariant 0 <= i <= |pipelines|
      invariant |issued| == i
      invariant forall k :: 0 <= k < i ==> BuildCommand(pipelines[k]) == Some(issued[k])
      invariant forall k :: 0 <= k < i ==> run(issued[k]).Built?
    {
      var pipeline := pipelines[i];
      var pipelineId := PM.PipelineId(pipeline);
      var cmd := BuildCommand(pipeline);
      if cmd.None? {
        return issued, Some(InvalidImageName(pipelineId));
      }
      issued := issued + [cmd.value];
      var outcome := run(cmd.value);
      match outcome {
        case Built =>
        case ExitedNonZero(stderr) =>
          return issued, Some(CalledProcessError(pipelineId, stderr));
        case ToolMissing =>
          return issued, Some(FileNotFound);
      }
      i := i + 1;
    }
    error := None;
  }

  /** The process object of the mock launcher. */
  datatype MockProcess = MockProcess(pid: int)

  /** `run_pipeline(pipeline, job_id, filenames)`: the mock always starts PID 12345. */
  function MockRunPipeline(p: PM.Manifest, jobId: string, filenames: seq<string>): (process: MockProcess)
    requires "id" in p
    ensures process.pid == 12345
  {
    MockProcess(12345)
  }
}
