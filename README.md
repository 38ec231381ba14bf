# Pipeline orchestrator core, modelled in Dafny

The system is a small Flask web service. A logged-in user uploads data files,
which become a *job*. The user then starts one of the *pipelines* installed on
the host against that job. A pipeline is a directory holding a `manifest.json`
and a Docker build context. Running it starts a detached container, with the
host uploads directory mounted at `/uploads` and the job's files passed as
command arguments. The user can list their own jobs. Registration and login go
through WTForms forms; passwords are hashed with bcrypt.

The model covers:

- **Pipeline discovery** (`PipelineManager`, `RootPipelineManager`). The host
  file system is a map from a directory path to the entries `os.listdir`
  returns, in listing order. Each entry gives its name and what reading its
  `manifest.json` yields: no file, text that is not JSON, an error on
  opening or decoding the file, or a parsed JSON value. Discovery is an
  imperative loop, proved equal to a recursive catalogue function. That
  function is in turn characterised by a reference definition. A manifest
  that parses to a non-object makes the `id` assignment raise `TypeError`.
  Only `json.JSONDecodeError` is caught, so that error, and an `OSError` or
  `UnicodeDecodeError` from reading the file, aborts the whole scan. The
  model returns `Raised(entry)` in those cases. A root that `os.listdir`
  cannot list raises too, as `Raised(root)`.
- **Launching a pipeline** (`PipelineManager.RunPipeline`): the default image
  name, the image check, the volume mapping, the container arguments, and the
  three ways a start can fail. The Docker daemon is an input: the set of
  images it has, and what starting a container returns.
- **Building images** (`RootPipelineManager.BuildPipelines`): the
  `sudo docker build` loop, which stops at the first failure. The process
  runner is an input.
- **The mock launcher** (`RootPipelineManager.MockRunPipeline`).
- **The job record** (`Models.Job`): the JSON-encoded file list, the
  defaults, and `to_dict`.
- **The HTTP handlers** (`Views`, `AuthViews`):
  - `upload_files`, `run_job` and `get_jobs` act on a job table, the class
    `Views.JobTable`. It has a map of rows and their insertion order.
  - `register` and `login` are functions from a user table, a session and a
    submitted form to a reply and the new state.
  - Every reply carries its HTTP status code.
- **Form validation** (`Forms`). This follows the WTForms rules:
  - Each field's validators run in order.
  - `DataRequired` stops the chain on a blank value and clears earlier errors.
  - Other failures are collected and the chain goes on.
  - The inline `validate_username` runs after the field's own validators.
  - The CSRF token is a field of its own.

Python behaviour the model spells out:

- truthiness of JSON values;
- `dict.get` returning `None`;
- `posixpath.join` and `posixpath.basename`;
- the whitespace set of `str.strip`;
- `Length`'s use of `-1` for "no bound".

Inputs taken as parameters: job ids (`uuid4`), the clock, whether saving a file
succeeds, the bcrypt hash and check, the e-mail syntax check, and whether the
CSRF token is valid.

What the code does, and so what the model does, on points where one might
expect otherwise:

- **No compliance check.** Discovery lists every directory whose
  `manifest.json` parses to an object. It does not look for a Dockerfile or
  an entrypoint.
- **Manifests that abort discovery.** A manifest that is not JSON is skipped
  with a warning. One that is valid JSON but not an object, or that cannot
  be opened or decoded, raises out of the loop, and discovery aborts
  (`PipelineManager.CatalogCharacterization`). So does a pipelines path that
  exists but cannot be listed.
- **Re-running a job.** `run_job` does not look at the job's status, so a
  running job can be started again (`Views.RunJobIgnoresStatus`).
- **No progress tracking.** Nothing reads the container's output, and
  nothing records its exit code. A started job stays `running` in the table.
- **The user column.** `backend/models.py` as given declares neither a
  `user_id` column nor the `User` class, yet `backend/views.py` uses both. The
  model gives `Job` an optional owner, and registered users are a map from
  username to password hash.
- **Where uploads go.** Uploads are saved under the relative path `uploads/`,
  but `run_pipeline` mounts `BASE_DIR/uploads`. The container sees them only
  when the server's working directory is `BASE_DIR`. `Views.StoredPath` and
  `PipelineManager.Volumes` state the two paths.
- **The mock's result.** The root-level mock returns an object with a `pid`,
  while `run_job` reads `.id`. The views use the Docker launcher of
  `backend/pipeline_manager.py`.

## Model

| member | source | states |
|---|---|---|
| Json.Get | backend/views.py:90-91 | `dict.get`: the stored value for a present key, `None` (JNull) for a missing one |
| Paths.Join | backend/pipeline_manager.py:71 | `posixpath.join` of two parts: an absolute second part replaces the first; otherwise a `/` is inserted only when the first part is non-empty and does not already end in one |
| Paths.BaseName | backend/views.py:105 | `posixpath.basename`: the result has no `/`, is a suffix of the path, and is either the whole path or preceded by a `/` |
| Paths.BaseNameAfterSlash | backend/views.py:105 | after a prefix that is empty or ends in `/`, the basename of prefix + name is that slash-free name |
| Paths.BaseNameOfJoin | backend/views.py:105 | basename undoes join: `basename(join(a, b)) == b` for any slash-free `b` |
| PipelineManager.PipelinesDir | backend/pipeline_manager.py:13-14 | with no directory given, discovery scans `join(BASE_DIR, "pipelines")`; otherwise the given one |
| PipelineManager.WithId | backend/pipeline_manager.py:25 | `manifest['id'] = name`: keys are the manifest's keys plus `id`, `id` is the directory name, every other key keeps its value |
| PipelineManager.DiscoverPipelines | backend/pipeline_manager.py:7-29 | a missing directory gives `[]`; a path that exists but cannot be listed raises; otherwise the listing loop's result equals the catalogue function of the listing (loop invariant) |
| PipelineManager.RaisedPersists | backend/pipeline_manager.py:19-28 | once an entry has raised, no later entry changes the outcome: the exception leaves the loop |
| PipelineManager.CatalogCharacterization | backend/pipeline_manager.py:19-28 | discovery raises iff some entry's manifest cannot be opened or decoded, or parses to a non-object, and then names the first such entry; otherwise the result is exactly the parsed-object manifests, in listing order, each given its directory's id; entries with no manifest or with text that is not JSON are skipped |
| PipelineManager.CatalogMembership | backend/pipeline_manager.py:19-26 | with no manifest that raises, discovery succeeds; every entry with a parsed-object manifest contributes it with its id, and every discovered pipeline comes from such an entry |
| PipelineManager.CatalogLength | backend/pipeline_manager.py:19-26 | the catalogue never has more pipelines than the directory has entries |
| PipelineManager.CatalogIds | backend/pipeline_manager.py:25 | every discovered pipeline has a string id naming one of the listed entries; distinct entry names give distinct ids |
| PipelineManager.DiscoveryScenarios | backend/test_pipeline_manager.py:19-44 | no manifest gives `[]`; malformed JSON gives `[]`; one valid manifest gives one pipeline with its keys and its directory's id |
| PipelineManager.ImageName | backend/pipeline_manager.py:47 | the manifest's `image_name` when present (a string), otherwise `<id>-image` |
| PipelineManager.Volumes | backend/pipeline_manager.py:59-67 | exactly one mount: host `join(BASE_DIR, "uploads")` bound read-write at `/uploads` |
| PipelineManager.ContainerArgs | backend/pipeline_manager.py:71 | one argument per filename, in order: `/uploads/<f>` for a relative name, the name itself for an absolute one |
| PipelineManager.ContainerArgsRecoverNames | backend/pipeline_manager.py:71 | the container arguments determine the filenames: the basename of each argument is the slash-free filename it came from |
| PipelineManager.RunPipeline | backend/pipeline_manager.py:46-88 | a container is returned iff the image exists and starting it succeeds; it then runs that image detached, with the container arguments and the single volume; a missing image, a container error and any other start exception give `None` |
| RootPipelineManager.DiscoverPipelines | pipeline_manager.py:5-25 | the same scan over the fixed root `./pipelines`: `[]` when it is absent, a raise when it cannot be listed, otherwise the catalogue of its listing |
| RootPipelineManager.BuildPath | pipeline_manager.py:34 | the build context of pipeline `id` is `./pipelines/<id>` |
| RootPipelineManager.BuildCommand | pipeline_manager.py:39-44 | the command is `sudo docker build -t <image> ./pipelines/<id>`, and exists iff the image name does |
| RootPipelineManager.BuildPipelines | pipeline_manager.py:27-52 | commands are issued in catalogue order; each issued command is that pipeline's command; all but the last issued built successfully; no error means every pipeline was built; a non-zero exit re-raises with that pipeline's id and stderr; a missing `sudo`/`docker` stops the loop at the command that hit it |
| RootPipelineManager.MockRunPipeline | pipeline_manager.py:54-67 | the mock always returns a process with pid 12345 |
| Models.Job.SetFiles | backend/models.py:17-19 | the `files` setter: reading `files` back gives the value stored, and no other column changes |
| Models.Job.ToDict | backend/models.py:21-28 | exactly the keys `id`, `files`, `status`, `pipeline`, `created_at`, with the column values; an unset pipeline is `null` |
| Models.NewJob | backend/models.py:5-11 | a new job has the given id, files, owner and creation time, status `uploaded`, and no pipeline or container |
| Models.ToDictHidesContainerId | backend/models.py:21-28 | the serialised job does not depend on the container id |
| Forms.ChainEmptyIff | backend/forms.py:7-12 | a field's validator chain reports no error iff every validator passes on the field's data |
| Forms.ErrorsEmptyIff | backend/forms.py:6-23 | a form has no errors iff the CSRF token is valid and every field's chain passes |
| Forms.RegistrationValidIff | backend/forms.py:6-18 | registration validates iff: CSRF is valid; username non-blank, 2 to 20 characters and not taken; full name at most 120; e-mail non-blank and well-formed; phone at most 20; password non-blank; confirmation non-blank and equal to the password |
| Forms.LoginValidIff | backend/forms.py:20-23 | login validates iff CSRF is valid, the username is non-blank and 2 to 20 characters long, and the password is non-blank |
| Forms.BlankUsernameStops | backend/forms.py:7 | a blank username yields only the `DataRequired` error: the length check and the uniqueness check do not run |
| AuthViews.RegisterOutcome | backend/views.py:13-23 | a valid form adds the username with the hash of the password, logs that user in and replies 201; otherwise 400 carrying exactly the form's `errors`, which are non-empty, and no change |
| AuthViews.RegisterRefusesTakenName | backend/forms.py:15-18 | registering a taken username is refused with 400 and leaves the user table unchanged |
| AuthViews.LoginOutcome | backend/views.py:25-35 | an invalid form gives 400 carrying exactly the form's `errors`, which are non-empty; a valid one logs in (200) iff the user exists and the password checks against the stored hash, and gets the bad-credentials reply (401) iff it does not; the user table never changes and only a successful login changes the session |
| AuthViews.RegisterThenLogin | backend/views.py:17-31 | after a successful registration, logging in with the same username and password succeeds, given that bcrypt accepts a password against its own hash |
| Views.StoredPath | backend/views.py:69-70 | an uploaded file is saved at `uploads/<jobId>_<filename>` |
| Views.SelectedNamesEmptyIff | backend/views.py:61-62 | no file is kept iff every uploaded part has an empty filename (or there is none) |
| Views.StoredRecordsShape | backend/views.py:67-75 | one record per file with a non-empty name, in order, keeping its original name and its stored path |
| Views.RecordsRoundTrip | backend/views.py:81-84 | reading the JSON list of records back yields the original filenames and the file paths in order |
| Views.SaveFiles | backend/views.py:67-75 | the save loop fails iff saving some kept file fails; otherwise it returns exactly the records of the kept files |
| Views.FindPipeline | backend/views.py:101 | the index of the first pipeline whose `id` equals the requested one, and none iff no pipeline has it |
| Views.RunJobFailureChangesNothing | backend/views.py:93-109 | every error reply of `run_job` leaves the job table unchanged and starts no container |
| Views.RunJobSuccessChangesThreeFields | backend/views.py:111-114 | a start sets the job's status to `running`, its pipeline and its container id, and changes nothing else |
| Views.RunJobCheckOrder | backend/views.py:93-103 | 400 iff a falsy job id or pipeline id; else 500 iff the job id is a list or an object, which the query cannot bind; else 404 iff the job is not the caller's; else 404 iff no pipeline has that id |
| Views.RunJobLaunchStage | backend/views.py:105-114 | once the checks pass, the job starts iff its stored file list is readable and the launcher returns a container; that container is `run_pipeline` of the matched catalog entry with the basenames of the files' paths, in order, so its command is `ContainerArgs` of those basenames and its image is the entry's image name |
| Views.RunJobIgnoresStatus | backend/views.py:96-114 | the reply does not depend on a job's status, so a running job can be started again |
| Views.LaunchFilenamesOfRecords | backend/views.py:105 | a job whose `files` are the JSON list of some records gives the launcher the base names of the records' file paths, in order |
| Views.StoredBaseNames | backend/views.py:105 | for a job id and names without `/`, the base name of each stored path `uploads/<jobId>_<name>` is `<jobId>_<name>` |
| Views.StoredNamesArgs | backend/pipeline_manager.py:71 | for a job id without `/`, the container argument of each stored name is `/uploads/<jobId>_<name>` |
| Views.UploadedJobLaunchNames | backend/views.py:64-106 | for a job just uploaded with a job id and file names without `/`, the launcher receives `<jobId>_<name>` per kept file and the container sees `/uploads/<jobId>_<name>` |
| Views.RunUploadedJobArgs | backend/views.py:64-114 | when `run_job` starts a job created by an upload (job id and file names without `/`), the container's arguments are `/uploads/<jobId>_<name>`, one per kept file, in upload order |
| Views.UserJobsDistinct | backend/views.py:123 | when the table lists each id once and each row is keyed by its id, the user's rows are listed without repeats |
| Views.UserJobDictsExact | backend/views.py:123-124 | the projection holds the `to_dict` of every job the caller owns, exactly once, and each entry is the `to_dict` of the caller's row its `id` names |
| Views.JobTable.Upload | backend/views.py:53-84 | 400 iff there is no `files` part; 400 iff no part has a file name; 500 iff saving some named file fails; otherwise, always, it inserts one job owned by the caller, with the saved records and the defaults, and replies with its id and its original filenames; failures change nothing |
| Views.JobTable.RunJob | backend/views.py:86-118 | the reply, the new rows and the started container are those of the `run_job` outcome on the old rows; the table stays well-formed |
| Views.JobTable.GetJobs | backend/views.py:120-124 | the reply holds the `to_dict` of every job the caller owns, each once, and nothing else |

## Left out

- Logging and `print` output: only the returned values are modelled.
- The `TESTING` branch of `run_pipeline` is not modelled. In that mode `run_pipeline` first overwrites each launch file under `BASE_DIR/uploads` with dummy text, so the container reads that text instead of the upload. A failed directory creation or write raises out of it, and `run_job` replies 500 where the model starts the job.
- File contents and their storage. A save is a yes/no input; a failed save stands for the exception that gives a 500 reply.
- JSON text: the model works on parsed values. Key order within an object, the exact `json.dumps` text and float precision (numbers are reals) are not modelled.
- `docker.from_env()` and `images.get` can fail in ways other than `ImageNotFound`. Those exceptions escape `run_pipeline` and are not modelled.
- PipelineManager.ImageName: a manifest whose `image_name` is not a string gives no image (no start, no build command), where docker-py would fail on its own input checks.
- RootPipelineManager.BuildPipelines: requires every pipeline to carry a string `id`, as `discover_pipelines` guarantees. The `KeyError` for a dict without one is not modelled.
- Views.JobTable.Upload: requires a fresh job id. A `uuid4` collision, which would fail at commit, is not modelled.
- Views.RunJobCheckOrder: a number or boolean `jobId` is taken to match no job. SQLite would compare its text form with the ids, and an id that reads as a number is not modelled.
- Views.JobTable.RunJob: the request body is taken to be a JSON object. A non-object body, on which `data.get` would raise, is not modelled.
- Flask, Flask-Login and SQLAlchemy plumbing are not modelled: routing, the `login_required` redirect for anonymous callers, sessions beyond "who is logged in", transactions.
- `logout`, `get_user` and `get_pipelines` are not modelled. `logout` clears the session and replies with a message, `get_user` returns the session user's name, and `get_pipelines` returns the configured catalogue.
- Column length limits (`String(36)`, `String(20)`, …) are left out, because SQLite does not enforce them.
- `created_at` is an opaque timestamp string supplied by the caller.
- Bcrypt, the e-mail syntax check and CSRF token verification are inputs rather than models.
- A job of a user who has been deleted is not modelled.
- The row order of `get_jobs` is insertion order. The database promises no order.
- The application factory, the configuration and the server entry points are not part of this model. So are the dashboard UI and the static JavaScript.
