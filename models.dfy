/**
 * backend/models.py: the `Job` row.  The `_files` column holds the JSON text
 * of the file list; here it holds the JSON document that text encodes.
 */
module Models {
  import opened Wrappers
  import opened Json

  /** `current_user.id`. */
  type UserId = nat

  /** The column default of `status`. */
  const DEFAULT_STATUS := "uploaded"

  datatype Job = Job(
    id: string,                  // primary key, a uuid4 string
    storedFiles: Json,           // `_files`, not nullable
    status: string,              // not nullable, default 'uploaded'
    pipeline: Option<string>,    // nullable
    containerId: Option<string>, // nullable
    createdAt: string,           // ISO text of the creation time (default utcnow)
    userId: Option<UserId>)      // the owner, as views.py uses it
  {
    /** The `files` property: `json.loads(self._files)`. */
    function Files(): Json
    {
      storedFiles
    }

    /** The `files` setter: `self._files = json.dumps(value)`. */
    function SetFiles(value: Json): (j: Job)
      ensures j.Files() == value
      ensures j.(storedFiles := storedFiles) == this
    {
      this.(storedFiles := value)
    }

    /** `to_dict()`: five keys, and never the container id or the owner. */
    function ToDict(): (d: map<string, Json>)
      ensures d.Keys == {"id", "files", "status", "pipeline", "created_at"}
      ensures d["id"] == JStr(id) && d["files"] == Files() && d["status"] == JStr(status)
      ensures d["pipeline"] == (if pipeline.Some? then JStr(pipeline.value) else JNull)
      ensures d["created_at"] == JStr(createdAt)
    {
      map["id" := JStr(id),
          "files" := Files(),
          "status" := JStr(status),
          "pipeline" := match pipeline case Some(p) => JStr(p) case None => JNull,
          "created_at" := JStr(createdAt)]
    }
  }

  /**
   * `Job(id=..., files=..., user_id=...)` once committed: the defaults filled
   * in, no pipeline and no container yet.
   */
  function NewJob(id: string, files: Json, owner: UserId, createdAt: string): (j: Job)
    ensures j.id == id && j.Files() == files && j.userId == Some(owner)
    ensures j.status == "uploaded" && j.pipeline == None && j.containerId == None
    ensures j.createdAt == createdAt
  {
    Job(id, JNull, DEFAULT_STATUS, None, None, createdAt, Some(owner)).SetFiles(files)
  }

  /** Rows that differ only in their container id have the same `to_dict()`. */
  lemma ToDictHidesContainerId(j: Job, c: Option<string>)
    ensures j.(containerId := c).ToDict() == j.ToDict()
  {
  }
}
