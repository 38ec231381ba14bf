/**
 * backend/views.py, the job endpoints: `upload_files`, `run_job` and
 * `get_jobs` over the job table.  The current user is a parameter; the uuid,
 * the clock, file writes, the catalog in the app config and the Docker
 * daemon are inputs.
 */
module Views {
  import opened Wrappers
  import opened Json
  import Paths
  import PM = PipelineManager
  import opened Models

  // ----- upload_files -----

  /** A werkzeug `FileStorage` of the `files` part; its content is not modelled. */
  datatype FileUpload = FileUpload(filename: string)

  /** `if file:` — a FileStorage is truthy when it has a file name. */
  predicate Selected(f: FileUpload)
  {
    f.filename != ""
  }

  /** `all(f.filename == '' for f in files)` (true of the empty list too). */
  predicate NoneSelected(files: seq<FileUpload>)
  {
    forall i :: 0 <= i < |files| ==> files[i].filename == ""
  }

  /** `{'original_filename': ..., 'filepath': ...}`. */
  datatype FileRecord = FileRecord(originalFilename: string, filepath: string)

  /** `f"{job_id}_{file.filename}"`. */
  function StoredName(jobId: string, filename: string): string
  {
    jobId + "_" + filename
  }

  /** `os.path.join(UPLOADS_DIR, filename)`. */
  function StoredPath(jobId: string, filename: string): (path: string)
    ensures !Paths.IsAbsolute(jobId) ==> path == PM.UPLOADS_DIR + "/" + jobId + "_" + filename
  {
    var name := StoredName(jobId, filename);
    assert !Paths.IsAbsolute(jobId) ==> !Paths.IsAbsolute(name) by {
      if jobId != "" { assert name[0] == jobId[0]; } else { assert name[0] == '_'; }
    }
    Paths.Join(PM.UPLOADS_DIR, name)
  }

  /** The names of the selected files, in upload order. */
  function SelectedNames(files: seq<FileUpload>): seq<string>
  {
    if files == [] then []
    else
      var last := files[|files| - 1];
      SelectedNames(files[..|files| - 1]) + (if Selected(last) then [last.filename] else [])
  }

  /** The records the upload loop appends to `job_files`. */
  function StoredRecords(jobId: string, files: seq<FileUpload>): seq<FileRecord>
  {
    if files == [] then []
    else
      var last := files[|files| - 1];
      StoredRecords(jobId, files[..|files| - 1]) +
        (if Selected(last) then [FileRecord(last.filename, StoredPath(jobId, last.filename))] else [])
  }

  /** The original names of a list of records. */
  function OriginalNamesOf(recs: seq<FileRecord>): seq<string>
  {
    seq(|recs|, i requires 0 <= i < |recs| => recs[i].originalFilename)
  }

  /** The stored paths of a list of records. */
  function FilePathsOf(recs: seq<FileRecord>): seq<string>
  {
    seq(|recs|, i requires 0 <= i < |recs| => recs[i].filepath)
  }

  /** No file is selected exactly when no name is kept. */
  lemma {:induction false} SelectedNamesEmptyIff(files: seq<FileUpload>)
    ensures SelectedNames(files) == [] <==> NoneSelected(files)
    decreases |files|
  {
    if files != [] {
      var init := files[..|files| - 1];
      SelectedNamesEmptyIff(init);
      if NoneSelected(files) {
        assert NoneSelected(init) by {
          forall i | 0 <= i < |init| ensures init[i].filename == "" { assert init[i] == files[i]; }
        }
      }
      if SelectedNames(files) == [] {
        forall i | 0 <= i < |files| ensures files[i].filename == "" {
          if i < |init| { assert files[i] == init[i]; }
        }
      }
    }
  }

  /**
   * The stored records: one per selected file, in upload order, keeping the
   * original name and stored under `uploads/<jobId>_<name>`.
   */
  lemma {:induction false} StoredRecordsShape(jobId: string, files: seq<FileUpload>)
    ensures |StoredRecords(jobId, files)| == |SelectedNames(files)| <= |files|
    ensures OriginalNamesOf(StoredRecords(jobId, files)) == SelectedNames(files)
    ensures forall i :: 0 <= i < |StoredRecords(jobId, files)| ==>
      StoredRecords(jobId, files)[i].filepath == StoredPath(jobId, StoredRecords(jobId, files)[i].originalFilename)
    ensures forall i :: 0 <= i < |SelectedNames(files)| ==> SelectedNames(files)[i] != ""
    decreases |files|
  {
    if files != [] {
      StoredRecordsShape(jobId, files[..|files| - 1]);
    }
  }

  /** One record as the JSON object stored in `_files`. */
  function RecordJson(r: FileRecord): Json
  {
    JObj(map["original_filename" := JStr(r.originalFilename), "filepath" := JStr(r.filepath)])
  }

  /** `job_files` as a JSON array. */
  function RecordsJson(recs: seq<FileRecord>): Json
  {
    JArr(seq(|recs|, i requires 0 <= i < |recs| => RecordJson(recs[i])))
  }

  /** `[f[key] for f in items]` over objects whose value under `key` is a string. */
  function StringFields(items: seq<Json>, key: string): Option<seq<string>>
  {
    if items == [] then Some([])
    else if items[0].JObj? && key in items[0].fields && items[0].fields[key].JStr? then
      match StringFields(items[1..], key)
      case None => None
      case Some(rest) => Some([items[0].fields[key].s] + rest)
    else None
  }

  /**
   * `[f[key] for f in doc]`: None where Python would raise (a document that
   * is not iterable, an element that is not a dict, a missing key) or where
   * the value is not a string.  An empty dict or string iterates to [].
   */
  function ItemFields(doc: Json, key: string): Option<seq<string>>
  {
    match doc
    case JArr(items) => StringFields(items, key)
    case JObj(m) => if m == map[] then Some([]) else None
    case JStr(s) => if s == "" then Some([]) else None
    case _ => None
  }

  /** Reading the records back out of their JSON form gives their fields. */
  lemma {:induction false} RecordsRoundTrip(recs: seq<FileRecord>)
    ensures ItemFields(RecordsJson(recs), "original_filename") == Some(OriginalNamesOf(recs))
    ensures ItemFields(RecordsJson(recs), "filepath") == Some(FilePathsOf(recs))
    decreases |recs|
  {
    var items := RecordsJson(recs).items;
    if recs == [] {
      assert items == [];
      assert OriginalNamesOf(recs) == [] && FilePathsOf(recs) == [];
    } else {
      RecordsRoundTrip(recs[1..]);
      assert items[1..] == RecordsJson(recs[1..]).items;
      assert items[0] == RecordJson(recs[0]);
      assert items[0].fields["original_filename"] == JStr(recs[0].originalFilename);
      assert items[0].fields["filepath"] == JStr(recs[0].filepath);
      assert OriginalNamesOf(recs) == [recs[0].originalFilename] + OriginalNamesOf(recs[1..]);
      assert FilePathsOf(recs) == [recs[0].filepath] + FilePathsOf(recs[1..]);
    }
  }

  /** Saving every selected file at its stored path succeeds. */
  predicate AllSaved(jobId: string, files: seq<FileUpload>, saveOk: string -> bool)
  {
    forall i :: 0 <= i < |files| && Selected(files[i]) ==> saveOk(StoredPath(jobId, files[i].filename))
  }

  /** `file.save(filepath)` for each selected file; None when a save raises. */
  method SaveFiles(jobId: string, files: seq<FileUpload>, saveOk: string -> bool) returns (recs: Option<seq<FileRecord>>)
    ensures recs.None? <==> !AllSaved(jobId, files, saveOk)
    ensures recs.Some? ==> recs.value == StoredRecords(jobId, files)
  {
    var jobFiles: seq<FileRecord> := [];
    var i := 0;
    while i < |files|
      invariant 0 <= i <= |files|
      invariant jobFiles == StoredRecords(jobId, files[..i])
      invariant forall k :: 0 <= k < i && Selected(files[k]) ==> saveOk(StoredPath(jobId, files[k].filename))
    {
      var file := files[i];
      assert files[..i + 1][..i] == files[..i];
      if Selected(file) {
        var filepath := StoredPath(jobId, file.filename);
        if !saveOk(filepath) {
          return None;
        }
        jobFiles := jobFiles + [FileRecord(file.filename, filepath)];
      }
      i := i + 1;
    }
    assert files[..i] == files;
    return Some(jobFiles);
  }

  /** The responses of `upload_files`. */
  datatype UploadReply =
    | NoFilesPart
    | NoFilesSelected
    | SaveFailed                                       // an exception from file.save
    | Uploaded(jobId: string, filenames: seq<string>)
  {
    function Code(): int
    {
      match this
      case NoFilesPart => 400
      case NoFilesSelected => 400
      case SaveFailed => 500
      case Uploaded(_, _) => 200
    }
  }

  // ----- run_job -----

  /** The responses of `run_job`. */
  datatype RunReply =
    | MissingIds                 // 'Missing jobId or pipelineId'
    | QueryFailed                // the job query raised: sqlite3 cannot bind a list or a dict
    | JobNotFound                // 'Job not found'
    | PipelineNotFound           // 'Pipeline not found'
    | FilesUnreadable            // an exception while reading the job's files
    | LaunchFailed               // 'Failed to start pipeline process'
    | Started(jobId: string, pipelineId: string)
  {
    function Code(): int
    {
      match this
      case MissingIds => 400
      case QueryFailed => 500
      case JobNotFound => 404
      case PipelineNotFound => 404
      case FilesUnreadable => 500
      case LaunchFailed => 500
      case Started(_, _) => 200
    }
  }

  /** A `jobId` the database driver cannot bind as a query parameter. */
  predicate Unbindable(jobId: Json)
  {
    jobId.JArr? || jobId.JObj?
  }

  /** `Job.query.filter_by(id=job_id, user_id=current_user.id).first()` finds a row. */
  predicate OwnedJob(rows: map<string, Job>, jobId: Json, user: UserId)
  {
    jobId.JStr? && jobId.s in rows && rows[jobId.s].userId == Some(user)
  }

  /** `next((p for p in available_pipelines if p['id'] == pipeline_id), None)`, as an index. */
  function FindPipeline(catalog: seq<PM.Manifest>, pipelineId: Json): (r: Option<nat>)
    ensures r.Some? ==> r.value < |catalog| && Get(catalog[r.value], "id") == pipelineId
    ensures r.Some? ==> forall j :: 0 <= j < r.value ==> Get(catalog[j], "id") != pipelineId
    ensures r.None? ==> forall j :: 0 <= j < |catalog| ==> Get(catalog[j], "id") != pipelineId
    decreases |catalog|
  {
    if catalog == [] then None
    else if Get(catalog[0], "id") == pipelineId then Some(0)
    else match FindPipeline(catalog[1..], pipelineId)
      case None => None
      case Some(k) => Some(k + 1)
  }

  /** `[os.path.basename(f['filepath']) for f in job.files]`. */
  function LaunchFilenames(job: Job): Option<seq<string>>
  {
    match ItemFields(job.Files(), "filepath")
    case None => None
    case Some(paths) => Some(seq(|paths|, i requires 0 <= i < |paths| => Paths.BaseName(paths[i])))
  }

  /**
   * The result of a `run_job` call: the response, the job rows after it, and
   * the container `run_pipeline` started, if any.
   */
  datatype RunOutcome = RunOutcome(reply: RunReply, rows: map<string, Job>, launched: Option<PM.Container>)

  /** What `run_job` does, check by check. */
  function RunJobOutcome(rows: map<string, Job>, user: UserId, data: map<string, Json>,
                         catalog: seq<PM.Manifest>, baseDir: string, docker: PM.Docker): RunOutcome
    requires PM.IsCatalog(catalog)
  {
    var jobId := Get(data, "jobId");
    var pipelineId := Get(data, "pipelineId");
    if !Truthy(jobId) || !Truthy(pipelineId) then RunOutcome(MissingIds, rows, None)
    else if Unbindable(jobId) then RunOutcome(QueryFailed, rows, None)
    else if !OwnedJob(rows, jobId, user) then RunOutcome(JobNotFound, rows, None)
    else match FindPipeline(catalog, pipelineId)
      case None => RunOutcome(PipelineNotFound, rows, None)
      case Some(k) =>
        var job := rows[jobId.s];
        match LaunchFilenames(job)
        case None => RunOutcome(FilesUnreadable, rows, None)
        case Some(filenames) =>
          match PM.RunPipeline(catalog[k], job.id, filenames, baseDir, docker)
          case None => RunOutcome(LaunchFailed, rows, None)
          case Some(process) =>
            var pid := PM.PipelineId(catalog[k]);
            RunOutcome(Started(job.id, pid),
                       rows[jobId.s := job.(status := "running", pipeline := Some(pid), containerId := Some(process.id))],
                       Some(process))
  }

  /** A rejected request leaves every row as it was and starts no container. */
  lemma RunJobFailureChangesNothing(rows: map<string, Job>, user: UserId, data: map<string, Json>,
                                    catalog: seq<PM.Manifest>, baseDir: string, docker: PM.Docker)
    requires PM.IsCatalog(catalog)
    ensures !RunJobOutcome(rows, user, data, catalog, baseDir, docker).reply.Started? ==>
      && RunJobOutcome(rows, user, data, catalog, baseDir, docker).rows == rows
      && RunJobOutcome(rows, user, data, catalog, baseDir, docker).launched.None?
  {
  }

  /**
   * A started run changes exactly the job's `status`, `pipeline` and
   * `container_id`, whatever its status was; the pipeline is the catalog
   * entry whose id was asked for, the container id the one Docker returned.
   */
  lemma RunJobSuccessChangesThreeFields(rows: map<string, Job>, user: UserId, data: map<string, Json>,
                                        catalog: seq<PM.Manifest>, baseDir: string, docker: PM.Docker)
    requires PM.IsCatalog(catalog)
    ensures var o := RunJobOutcome(rows, user, data, catalog, baseDir, docker);
      o.reply.Started? ==>
        var key := Get(data, "jobId").s;
        && OwnedJob(rows, Get(data, "jobId"), user)
        && Get(data, "pipelineId") == JStr(o.reply.pipelineId)
        && docker.start.Started?
        && o.rows == rows[key := rows[key].(status := "running",
                                            pipeline := Some(o.reply.pipelineId),
                                            containerId := Some(docker.start.containerId))]
  {
  }

  /** The checks run in a fixed order, and each failure has its own response. */
  lemma RunJobCheckOrder(rows: map<string, Job>, user: UserId, data: map<string, Json>,
                         catalog: seq<PM.Manifest>, baseDir: string, docker: PM.Docker)
    requires PM.IsCatalog(catalog)
    ensures var o := RunJobOutcome(rows, user, data, catalog, baseDir, docker);
      var jobId := Get(data, "jobId");
      var pipelineId := Get(data, "pipelineId");
      var present := Truthy(jobId) && Truthy(pipelineId);
      && (o.reply == MissingIds <==> !present)
      && (o.reply == QueryFailed <==> present && Unbindable(jobId))
      && (o.reply == JobNotFound <==> present && !Unbindable(jobId) && !OwnedJob(rows, jobId, user))
      && (o.reply == PipelineNotFound <==>
            present && OwnedJob(rows, jobId, user) && forall j :: 0 <= j < |catalog| ==> Get(catalog[j], "id") != pipelineId)
  {
    var jobId := Get(data, "jobId");
    var pipelineId := Get(data, "pipelineId");
    if Truthy(jobId) && Truthy(pipelineId) && OwnedJob(rows, jobId, user) {
      var found := FindPipeline(catalog, pipelineId);
      if found.Some? {
        assert Get(catalog[found.value], "id") == pipelineId;
      }
    }
  }

  /**
   * Once the job and the pipeline are found: unreadable stored files give a
   * server error, a launcher that returns None gives 'Failed to start
   * pipeline process', and otherwise the job is started.
   */
  lemma RunJobLaunchStage(rows: map<string, Job>, user: UserId, data: map<string, Json>,
                          catalog: seq<PM.Manifest>, baseDir: string, docker: PM.Docker)
    requires PM.IsCatalog(catalog)
    requires Truthy(Get(data, "jobId")) && Truthy(Get(data, "pipelineId"))
    requires OwnedJob(rows, Get(data, "jobId"), user)
    requires FindPipeline(catalog, Get(data, "pipelineId")).Some?
    ensures var o := RunJobOutcome(rows, user, data, catalog, baseDir, docker);
      var job := rows[Get(data, "jobId").s];
      var p := catalog[FindPipeline(catalog, Get(data, "pipelineId")).value];
      && (o.reply == FilesUnreadable <==> LaunchFilenames(job).None?)
      && (o.reply == LaunchFailed <==>
            LaunchFilenames(job).Some? && PM.RunPipeline(p, job.id, LaunchFilenames(job).value, baseDir, docker).None?)
      && (o.reply.Started? <==>
            LaunchFilenames(job).Some? && PM.RunPipeline(p, job.id, LaunchFilenames(job).value, baseDir, docker).Some?)
      && (o.reply.Started? ==> o.reply == Started(job.id, PM.PipelineId(p)) && o.reply.Code() == 200)
      && (o.reply.Started? ==>
            && o.launched == PM.RunPipeline(p, job.id, LaunchFilenames(job).value, baseDir, docker)
            && o.launched.value.command == PM.ContainerArgs(LaunchFilenames(job).value)
            && o.launched.value.image == PM.ImageName(p).value)
      && (!o.reply.Started? ==> o.launched.None?)
  {
  }

  /** The job's status plays no part: a running job is started again like a new one. */
  lemma RunJobIgnoresStatus(rows: map<string, Job>, user: UserId, data: map<string, Json>,
                            catalog: seq<PM.Manifest>, baseDir: string, docker: PM.Docker, key: string, status: string)
    requires PM.IsCatalog(catalog)
    requires key in rows
    ensures RunJobOutcome(rows[key := rows[key].(status := status)], user, data, catalog, baseDir, docker).reply ==
            RunJobOutcome(rows, user, data, catalog, baseDir, docker).reply
  {
    var rows' := rows[key := rows[key].(status := status)];
    var jobId := Get(data, "jobId");
    if jobId.JStr? && jobId.s in rows {
      assert rows'[jobId.s].Files() == rows[jobId.s].Files();
      assert rows'[jobId.s].id == rows[jobId.s].id;
    }
  }

  /** `f"{job_id}_{name}"` for each name, in order. */
  function StoredNames(jobId: string, names: seq<string>): seq<string>
  {
    seq(|names|, i requires 0 <= i < |names| => StoredName(jobId, names[i]))
  }

  /** The base names of records stored under `uploads/` are their stored names. */
  lemma StoredBaseNames(jobId: string, recs: seq<FileRecord>, names: seq<string>)
    requires '/' !in jobId
    requires |recs| == |names|
    requires forall i :: 0 <= i < |names| ==> '/' !in names[i] && recs[i].filepath == StoredPath(jobId, names[i])
    ensures var paths := FilePathsOf(recs);
      seq(|paths|, i requires 0 <= i < |paths| => Paths.BaseName(paths[i])) == StoredNames(jobId, names)
  {
    var paths := FilePathsOf(recs);
    var got := seq(|paths|, i requires 0 <= i < |paths| => Paths.BaseName(paths[i]));
    var expected := StoredNames(jobId, names);
    forall i | 0 <= i < |got| ensures got[i] == expected[i] {
      assert '/' !in StoredName(jobId, names[i]);
      Paths.BaseNameOfJoin(PM.UPLOADS_DIR, StoredName(jobId, names[i]));
    }
  }

  /** A job whose files are the JSON form of some records is launched with their paths' base names. */
  lemma LaunchFilenamesOfRecords(job: Job, recs: seq<FileRecord>)
    requires job.Files() == RecordsJson(recs)
    ensures var paths := FilePathsOf(recs);
      LaunchFilenames(job) == Some(seq(|paths|, i requires 0 <= i < |paths| => Paths.BaseName(paths[i])))
  {
    RecordsRoundTrip(recs);
  }

  /** A stored name given to the container is found under `/uploads/`. */
  lemma StoredNamesArgs(jobId: string, names: seq<string>)
    requires '/' !in jobId
    ensures forall i :: 0 <= i < |names| ==> PM.ContainerArgs(StoredNames(jobId, names))[i] == "/uploads/" + jobId + "_" + names[i]
  {
    var expected := StoredNames(jobId, names);
    forall i | 0 <= i < |names| ensures PM.ContainerArgs(expected)[i] == "/uploads/" + jobId + "_" + names[i] {
      assert !Paths.IsAbsolute(expected[i]) by {
        if jobId != "" { assert expected[i][0] == jobId[0]; } else { assert expected[i][0] == '_'; }
      }
    }
  }

  /**
   * For a job created by an upload, the launcher is given the stored names
   * `<jobId>_<name>` of the selected files, in upload order, and the
   * container receives them under `/uploads/`.
   */
  lemma UploadedJobLaunchNames(jobId: string, files: seq<FileUpload>, owner: UserId, now: string)
    requires '/' !in jobId
    requires forall i :: 0 <= i < |files| ==> '/' !in files[i].filename
    ensures var names := SelectedNames(files);
      && LaunchFilenames(NewJob(jobId, RecordsJson(StoredRecords(jobId, files)), owner, now)) == Some(StoredNames(jobId, names))
      && forall i :: 0 <= i < |names| ==> PM.ContainerArgs(StoredNames(jobId, names))[i] == "/uploads/" + jobId + "_" + names[i]
  {
    var recs := StoredRecords(jobId, files);
    var names := SelectedNames(files);
    StoredRecordsShape(jobId, files);
    SelectedNamesNoSlash(files);
    assert forall i :: 0 <= i < |names| ==> recs[i].originalFilename == names[i] by {
      forall i | 0 <= i < |names| ensures recs[i].originalFilename == names[i] {
        assert OriginalNamesOf(recs)[i] == recs[i].originalFilename;
      }
    }
    StoredBaseNames(jobId, recs, names);
    LaunchFilenamesOfRecords(NewJob(jobId, RecordsJson(recs), owner, now), recs);
    StoredNamesArgs(jobId, names);
  }

  /**
   * Running a job created by an upload starts a container whose arguments
   * are `/uploads/<jobId>_<name>`, one per kept file, in upload order.
   */
  lemma RunUploadedJobArgs(rows: map<string, Job>, user: UserId, data: map<string, Json>,
                           catalog: seq<PM.Manifest>, baseDir: string, docker: PM.Docker,
                           jobId: string, files: seq<FileUpload>, now: string)
    requires PM.IsCatalog(catalog)
    requires Get(data, "jobId") == JStr(jobId)
    requires jobId in rows && rows[jobId] == NewJob(jobId, RecordsJson(StoredRecords(jobId, files)), user, now)
    requires '/' !in jobId
    requires forall i :: 0 <= i < |files| ==> '/' !in files[i].filename
    ensures var o := RunJobOutcome(rows, user, data, catalog, baseDir, docker);
      var names := SelectedNames(files);
      o.reply.Started? ==>
        && o.launched.Some?
        && |o.launched.value.command| == |names|
        && forall i :: 0 <= i < |names| ==> o.launched.value.command[i] == "/uploads/" + jobId + "_" + names[i]
  {
    var o := RunJobOutcome(rows, user, data, catalog, baseDir, docker);
    if o.reply.Started? {
      RunJobCheckOrder(rows, user, data, catalog, baseDir, docker);
      RunJobLaunchStage(rows, user, data, catalog, baseDir, docker);
      UploadedJobLaunchNames(jobId, files, user, now);
    }
  }

  lemma {:induction false} SelectedNamesNoSlash(files: seq<FileUpload>)
    requires forall i :: 0 <= i < |files| ==> '/' !in files[i].filename
    ensures forall i :: 0 <= i < |SelectedNames(files)| ==> '/' !in SelectedNames(files)[i]
    decreases |files|
  {
    if files != [] {
      SelectedNamesNoSlash(files[..|files| - 1]);
    }
  }

  // ----- get_jobs -----

  /** The rows of the user's jobs, in table order. */
  function UserJobs(rows: map<string, Job>, order: seq<string>, user: UserId): seq<Job>
  {
    if order == [] then []
    else
      var k := order[|order| - 1];
      UserJobs(rows, order[..|order| - 1], user) + (if k in rows && rows[k].userId == Some(user) then [rows[k]] else [])
  }

  /** UserJobs holds exactly the user's rows. */
  lemma {:induction false} UserJobsExact(rows: map<string, Job>, order: seq<string>, user: UserId)
    ensures forall j :: j in UserJobs(rows, order, user) ==>
      j.userId == Some(user) && exists k :: k in order && k in rows && rows[k] == j
    ensures forall k :: k in order && k in rows && rows[k].userId == Some(user) ==> rows[k] in UserJobs(rows, order, user)
    decreases |order|
  {
    if order != [] {
      var init := order[..|order| - 1];
      UserJobsExact(rows, init, user);
      assert order == init + [order[|order| - 1]];
      forall j | j in UserJobs(rows, order, user)
        ensures j.userId == Some(user) && exists k :: k in order && k in rows && rows[k] == j
      {
        if j in UserJobs(rows, init, user) {
          var k :| k in init && k in rows && rows[k] == j;
          assert k in order;
        }
      }
    }
  }

  /**
   * Over an order without repeats, in which each row's key is its id,
   * UserJobs lists no job twice.
   */
  lemma {:induction false} UserJobsDistinct(rows: map<string, Job>, order: seq<string>, user: UserId)
    requires forall i, j :: 0 <= i < j < |order| ==> order[i] != order[j]
    requires forall k :: k in rows ==> rows[k].id == k
    ensures forall i, j :: 0 <= i < j < |UserJobs(rows, order, user)| ==>
      UserJobs(rows, order, user)[i].id != UserJobs(rows, order, user)[j].id
    decreases |order|
  {
    if order != [] {
      var init := order[..|order| - 1];
      var k := order[|order| - 1];
      UserJobsDistinct(rows, init, user);
      UserJobsExact(rows, init, user);
      var before := UserJobs(rows, init, user);
      var all := UserJobs(rows, order, user);
      forall i, j | 0 <= i < j < |all| ensures all[i].id != all[j].id {
        if j >= |before| {
          assert all[i] == before[i] && all[j] == rows[k];
          assert before[i] in before;
          var k' :| k' in init && k' in rows && rows[k'] == before[i];
          var m :| 0 <= m < |init| && init[m] == k';
          assert order[m] == k';
        } else {
          assert all[i] == before[i] && all[j] == before[j];
        }
      }
    }
  }

  /** `[job.to_dict() for job in jobs]` over the user's jobs, in table order. */
  function UserJobDicts(rows: map<string, Job>, order: seq<string>, user: UserId): seq<map<string, Json>>
  {
    var jobs := UserJobs(rows, order, user);
    seq(|jobs|, i requires 0 <= i < |jobs| => jobs[i].ToDict())
  }

  /** The job id a serialised job carries under `id` ("" when it has none). */
  function IdOf(d: map<string, Json>): string
  {
    if "id" in d && d["id"].JStr? then d["id"].s else ""
  }

  /**
   * The projection lists the `to_dict()` of every job the user owns, once
   * each, and nothing else: each listed entry is the `to_dict()` of the
   * user's row its `id` names.
   */
  lemma UserJobDictsExact(rows: map<string, Job>, order: seq<string>, user: UserId)
    requires forall i, j :: 0 <= i < j < |order| ==> order[i] != order[j]
    requires forall k :: k in rows ==> k in order
    requires forall k :: k in rows ==> rows[k].id == k
    ensures forall k :: k in rows && rows[k].userId == Some(user) ==> rows[k].ToDict() in UserJobDicts(rows, order, user)
    ensures forall d :: d in UserJobDicts(rows, order, user) ==>
      IdOf(d) in rows && rows[IdOf(d)].userId == Some(user) && d == rows[IdOf(d)].ToDict()
    ensures forall i, j :: 0 <= i < j < |UserJobDicts(rows, order, user)| ==>
      UserJobDicts(rows, order, user)[i] != UserJobDicts(rows, order, user)[j]
  {
    var jobs := UserJobs(rows, order, user);
    var r := UserJobDicts(rows, order, user);
    UserJobsExact(rows, order, user);
    UserJobsDistinct(rows, order, user);
    forall k | k in rows && rows[k].userId == Some(user) ensures rows[k].ToDict() in r {
      assert rows[k] in jobs;
      var i :| 0 <= i < |jobs| && jobs[i] == rows[k];
      assert r[i] == rows[k].ToDict();
    }
    forall d | d in r ensures IdOf(d) in rows && rows[IdOf(d)].userId == Some(user) && d == rows[IdOf(d)].ToDict() {
      var i :| 0 <= i < |r| && r[i] == d;
      assert jobs[i] in jobs;
      var k :| k in order && k in rows && rows[k] == jobs[i];
      assert d == rows[k].ToDict() && IdOf(d) == k;
    }
    forall i, j | 0 <= i < j < |r| ensures r[i] != r[j] {
      assert r[i]["id"] == JStr(jobs[i].id) && r[j]["id"] == JStr(jobs[j].id);
    }
  }

  // ----- the job table -----

  /** The `job` table: its rows by id, and the order they were inserted in. */
  class JobTable {
    var rows: map<string, Job>
    var order: seq<string>

    ghost predicate Valid()
      reads this
    {
      && (forall i :: 0 <= i < |order| ==> order[i] in rows)
      && (forall k :: k in rows ==> k in order)
      && (forall i, j :: 0 <= i < j < |order| ==> order[i] != order[j])
      && (forall k :: k in rows ==> rows[k].id == k)
    }

    constructor ()
      ensures Valid() && rows == map[] && order == []
    {
      rows := map[];
      order := [];
    }

    /** `upload_files()` by `user` at time `now`, with `jobId` from `uuid.uuid4()`. */
    method Upload(files: Option<seq<FileUpload>>, jobId: string, user: UserId, now: string, saveOk: string -> bool)
      returns (reply: UploadReply)
      requires Valid()
      requires jobId !in rows
      modifies this
      ensures Valid()
      ensures reply == NoFilesPart <==> files.None?
      ensures reply == NoFilesSelected <==> files.Some? && NoneSelected(files.value)
      ensures reply == SaveFailed <==> files.Some? && !NoneSelected(files.value) && !AllSaved(jobId, files.value, saveOk)
      ensures reply.Uploaded? <==> files.Some? && !NoneSelected(files.value) && AllSaved(jobId, files.value, saveOk)
      ensures !reply.Uploaded? ==> rows == old(rows) && order == old(order)
      ensures reply.Uploaded? ==>
        && files.Some?
        && reply == Uploaded(jobId, SelectedNames(files.value))
        && |reply.filenames| > 0
        && rows == old(rows)[jobId := NewJob(jobId, RecordsJson(StoredRecords(jobId, files.value)), user, now)]
        && order == old(order) + [jobId]
    {
      if files.None? {
        return NoFilesPart;
      }
      var uploads := files.value;
      if uploads == [] || NoneSelected(uploads) {
        return NoFilesSelected;
      }
      var jobFiles := SaveFiles(jobId, uploads, saveOk);
      if jobFiles.None? {
        return SaveFailed;
      }
      var newJob := NewJob(jobId, RecordsJson(jobFiles.value), user, now);
      rows := rows[jobId := newJob];
      order := order + [jobId];
      RecordsRoundTrip(jobFiles.value);
      StoredRecordsShape(jobId, uploads);
      SelectedNamesEmptyIff(uploads);
      var filenames := ItemFields(newJob.Files(), "original_filename");
      reply := Uploaded(newJob.id, filenames.value);
    }

    /** `run_job()` by `user` with the request body `data`. */
    method RunJob(user: UserId, data: map<string, Json>, catalog: seq<PM.Manifest>, baseDir: string, docker: PM.Docker)
      returns (reply: RunReply, launched: Option<PM.Container>)
      requires Valid()
      requires PM.IsCatalog(catalog)
      modifies this
      ensures Valid()
      ensures RunOutcome(reply, rows, launched) == RunJobOutcome(old(rows), user, data, catalog, baseDir, docker)
      ensures order == old(order)
    {
      var jobId := Get(data, "jobId");
      var pipelineId := Get(data, "pipelineId");
      if !Truthy(jobId) || !Truthy(pipelineId) {
        return MissingIds, None;
      }
      if Unbindable(jobId) {
        return QueryFailed, None;
      }
      if !OwnedJob(rows, jobId, user) {
        return JobNotFound, None;
      }
      var job := rows[jobId.s];
      var found := FindPipeline(catalog, pipelineId);
      if found.None? {
        return PipelineNotFound, None;
      }
      var pipeline := catalog[found.value];
      var filenames := LaunchFilenames(job);
      if filenames.None? {
        return FilesUnreadable, None;
      }
      var process := PM.RunPipeline(pipeline, job.id, filenames.value, baseDir, docker);
      if process.None? {
        return LaunchFailed, None;
      }
      job := job.(status := "running");
      job := job.(pipeline := Some(PM.PipelineId(pipeline)));
      job := job.(containerId := Some(process.value.id));
      rows := rows[jobId.s := job];
      reply := Started(job.id, PM.PipelineId(pipeline));
      launched := process;
    }

    /** `get_jobs()` for `user`: the `to_dict()` of each of the user's jobs. */
    function GetJobs(user: UserId): (r: seq<map<string, Json>>)
      reads this
      requires Valid()
      ensures forall k :: k in rows && rows[k].userId == Some(user) ==> rows[k].ToDict() in r
      ensures forall d :: d in r ==> IdOf(d) in rows && rows[IdOf(d)].userId == Some(user) && d == rows[IdOf(d)].ToDict()
      ensures forall i, j :: 0 <= i < j < |r| ==> r[i] != r[j]
    {
      UserJobDictsExact(rows, order, user);
      UserJobDicts(rows, order, user)
    }
  }
}
