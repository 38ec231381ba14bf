/**
 * backend/pipeline_manager.py: turning the pipelines directory into the
 * catalog of available pipelines, and starting one pipeline's container.
 *
 * The file system, the JSON parser and the Docker daemon are inputs: a
 * listing per directory path, a parse outcome per manifest, and the set of
 * images the daemon has together with what `containers.run` does.
 */
module PipelineManager {
  import opened Wrappers
  import opened Json
  import Paths

  /** A catalog entry: the manifest's key/value pairs, with `id` forced. */
  type Manifest = map<string, Json>

  /** What opening `<dir>/<name>/manifest.json` and `json.load` give. */
  datatype ManifestFile =
    | NoManifest          // `os.path.isfile(manifest_path)` is false
    | Unparsable          // `json.load` raised `json.JSONDecodeError`
    | Unreadable          // `open` or `json.load` raised anything else
    | Parsed(doc: Json)   // `json.load` returned this document

  /** One name returned by `os.listdir(pipeline_dir)`, with its manifest. */
  datatype DirEntry = DirEntry(name: string, manifest: ManifestFile)

  /**
   * A path that exists: a directory with its listing in `os.listdir` order,
   * or something `os.listdir` cannot list (a regular file, an unreadable
   * directory).
   */
  datatype Node = Directory(entries: seq<DirEntry>) | Unlistable

  /** The paths that exist. */
  type FileSystem = map<string, Node>

  /**
   * The outcome of a discovery: the catalog, or the exception that escaped
   * it, with the name it escaped at.  A manifest that parses to something
   * other than an object makes `manifest['id'] = pipeline_name` raise a
   * `TypeError`, which the `except json.JSONDecodeError` clause does not
   * catch; so does an `OSError` from `open` or a `UnicodeDecodeError` from
   * `json.load` (named by the entry), and an `OSError` from `os.listdir`
   * on the root (named by the root).
   */
  datatype Discovery = Discovered(pipelines: seq<Manifest>) | Raised(entry: string)

  /** The root scanned when no directory is given: `BASE_DIR/pipelines`. */
  function PipelinesDir(pipelineDir: Option<string>, baseDir: string): (dir: string)
    ensures pipelineDir.Some? ==> dir == pipelineDir.value
    ensures pipelineDir.None? && baseDir != "" && baseDir[|baseDir| - 1] != '/' ==> dir == baseDir + "/pipelines"
  {
    match pipelineDir
    case Some(d) => d
    case None => Paths.Join(baseDir, "pipelines")
  }

  /** `manifest['id'] = pipeline_name`. */
  function WithId(m: Manifest, name: string): (r: Manifest)
    ensures r.Keys == m.Keys + {"id"}
    ensures r["id"] == JStr(name)
    ensures forall k :: k in m && k != "id" ==> r[k] == m[k]
  {
    m["id" := JStr(name)]
  }

  /** One iteration of the discovery loop. */
  function Scan(d: Discovery, e: DirEntry): Discovery
  {
    match d
    case Raised(_) => d
    case Discovered(ps) =>
      match e.manifest
      case NoManifest => d
      case Unparsable => d   // a warning is printed and the entry is skipped
      case Unreadable => Raised(e.name)
      case Parsed(doc) =>
        if doc.JObj? then Discovered(ps + [WithId(doc.fields, e.name)]) else Raised(e.name)
  }

  /** What the discovery loop produces from a listing, entry by entry. */
  function CatalogOf(entries: seq<DirEntry>): Discovery
    decreases |entries|
  {
    if entries == [] then Discovered([])
    else Scan(CatalogOf(entries[..|entries| - 1]), entries[|entries| - 1])
  }

  /** `discover_pipelines(pipeline_dir)`. */
  method DiscoverPipelines(fs: FileSystem, pipelineDir: Option<string>, baseDir: string) returns (d: Discovery)
    ensures PipelinesDir(pipelineDir, baseDir) !in fs ==> d == Discovered([])
    ensures PipelinesDir(pipelineDir, baseDir) in fs && fs[PipelinesDir(pipelineDir, baseDir)].Unlistable? ==>
      d == Raised(PipelinesDir(pipelineDir, baseDir))
    ensures PipelinesDir(pipelineDir, baseDir) in fs && fs[PipelinesDir(pipelineDir, baseDir)].Directory? ==>
      d == CatalogOf(fs[PipelinesDir(pipelineDir, baseDir)].entries)
  {
    var dir := PipelinesDir(pipelineDir, baseDir);
    if dir !in fs {
      return Discovered([]);
    }
    if fs[dir].Unlistable? {
      return Raised(dir);
    }
    var entries := fs[dir].entries;
    var pipelines: seq<Manifest> := [];
    var i := 0;
    while i < |entries|
      invariant 0 <= i <= |entries|
      invariant CatalogOf(entries[..i]) == Discovered(pipelines)
    {
      var e := entries[i];
      assert entries[..i + 1][..i] == entries[..i];
      match e.manifest {
        case Parsed(doc) =>
          if !doc.JObj? {
            RaisedPersists(entries, i + 1);
            return Raised(e.name);
          }
          pipelines := pipelines + [WithId(doc.fields, e.name)];
        case Unreadable =>
          RaisedPersists(entries, i + 1);
          return Raised(e.name);
        case NoManifest =>
        case Unparsable =>
      }
      i := i + 1;
    }
    assert entries[..i] == entries;
    d := Discovered(pipelines);
  }

  /** Once an exception has escaped, later entries change nothing. */
  lemma {:induction false} RaisedPersists(entries: seq<DirEntry>, k: nat)
    requires k <= |entries|
    requires CatalogOf(entries[..k]).Raised?
    ensures CatalogOf(entries) == CatalogOf(entries[..k])
    decreases |entries| - k
  {
    if k < |entries| {
      assert entries[..k + 1][..k] == entries[..k];
      RaisedPersists(entries, k + 1);
    } else {
      assert entries[..k] == entries;
    }
  }

  // ----- An independent description of the catalog: filter, then map -----

  /** The entry has a manifest that parses to an object: it is listed. */
  predicate Listed(e: DirEntry)
  {
    e.manifest.Parsed? && e.manifest.doc.JObj?
  }

  /** Reading the entry's manifest raises: it cannot be read, or parses to a non-object. */
  predicate Poisoned(e: DirEntry)
  {
    e.manifest.Unreadable? || (e.manifest.Parsed? && !e.manifest.doc.JObj?)
  }

  /** The entry itself when it is listed, nothing otherwise. */
  function IfListed(e: DirEntry): seq<DirEntry>
  {
    if Listed(e) then [e] else []
  }

  /** The listed entries, in listing order. */
  function ListedEntries(entries: seq<DirEntry>): seq<DirEntry>
  {
    if entries == [] then []
    else IfListed(entries[0]) + ListedEntries(entries[1..])
  }

  /** The entry a listed directory contributes to the catalog. */
  function EntryOf(e: DirEntry): Manifest
    requires Listed(e)
  {
    WithId(e.manifest.doc.fields, e.name)
  }

  /** The expected catalog: one entry per listed directory, in listing order. */
  function ExpectedCatalog(entries: seq<DirEntry>): (c: seq<Manifest>)
  {
    var l := ListedEntries(entries);
    seq(|l|, i requires 0 <= i < |l| => ListedAt(entries, i); EntryOf(l[i]))
  }

  lemma {:induction false} ListedAt(entries: seq<DirEntry>, i: nat)
    requires i < |ListedEntries(entries)|
    ensures Listed(ListedEntries(entries)[i])
    ensures ListedEntries(entries)[i] in entries
  {
    if !Listed(entries[0]) {
      ListedAt(entries[1..], i);
    } else if i > 0 {
      ListedAt(entries[1..], i - 1);
    }
  }

  lemma {:induction false} ListedOfAppend(a: seq<DirEntry>, e: DirEntry)
    ensures ListedEntries(a + [e]) == ListedEntries(a) + IfListed(e)
  {
    if a == [] {
      assert [e][1..] == [];
    } else {
      assert (a + [e])[1..] == a[1..] + [e];
      ListedOfAppend(a[1..], e);
    }
  }

  /** One loop step after a clean prefix: a poisoned entry raises, any other adds what it lists. */
  lemma ScanStep(ps: seq<Manifest>, e: DirEntry)
    ensures Poisoned(e) ==> Scan(Discovered(ps), e) == Raised(e.name)
    ensures !Poisoned(e) && Listed(e) ==> Scan(Discovered(ps), e) == Discovered(ps + [EntryOf(e)])
    ensures !Poisoned(e) && !Listed(e) ==> Scan(Discovered(ps), e) == Discovered(ps)
  {
  }

  /**
   * The discovery loop aborts exactly when some manifest cannot be read or
   * parses to a non-object, naming the first such entry; otherwise its
   * catalog is the filter-and-map description above.
   */
  lemma {:induction false} CatalogCharacterization(entries: seq<DirEntry>)
    ensures CatalogOf(entries).Raised? <==> exists i :: 0 <= i < |entries| && Poisoned(entries[i])
    ensures CatalogOf(entries).Raised? ==>
      exists i :: 0 <= i < |entries| && Poisoned(entries[i]) && entries[i].name == CatalogOf(entries).entry &&
        forall j :: 0 <= j < i ==> !Poisoned(entries[j])
    ensures CatalogOf(entries).Discovered? ==> CatalogOf(entries).pipelines == ExpectedCatalog(entries)
    decreases |entries|
  {
    if entries != [] {
      var init := entries[..|entries| - 1];
      var e := entries[|entries| - 1];
      assert entries == init + [e];
      CatalogCharacterization(init);
      ListedOfAppend(init, e);
      if CatalogOf(init).Raised? {
        var i :| 0 <= i < |init| && Poisoned(init[i]) && init[i].name == CatalogOf(init).entry &&
          forall j :: 0 <= j < i ==> !Poisoned(init[j]);
        assert entries[i] == init[i];
      } else {
        assert forall i :: 0 <= i < |init| ==> !Poisoned(init[i]);
        assert CatalogOf(entries) == Scan(CatalogOf(init), e);
        ScanStep(CatalogOf(init).pipelines, e);
        if Poisoned(e) {
          assert Poisoned(entries[|entries| - 1]);
        } else {
          assert forall i :: 0 <= i < |entries| ==> !Poisoned(entries[i]) by {
            forall i | 0 <= i < |entries| ensures !Poisoned(entries[i]) {
              if i < |init| { assert entries[i] == init[i]; }
            }
          }
          var l := ListedEntries(init);
          assert ListedEntries(entries) == l + IfListed(e);
          var c := CatalogOf(entries).pipelines;
          var x := ExpectedCatalog(entries);
          assert |c| == |x|;
          forall k | 0 <= k < |c| ensures c[k] == x[k] {
            if k < |l| {
              assert ListedEntries(entries)[k] == l[k];
            }
          }
        }
      }
    }
  }

  /** A listing with no poisoned manifest is discovered without an exception. */
  predicate Clean(entries: seq<DirEntry>)
  {
    forall i :: 0 <= i < |entries| ==> !Poisoned(entries[i])
  }

  /** Every listed directory contributes its entry; nothing else is in the catalog. */
  lemma {:induction false} CatalogMembership(entries: seq<DirEntry>, e: DirEntry)
    requires Clean(entries)
    ensures CatalogOf(entries).Discovered?
    ensures Listed(e) && e in entries ==> EntryOf(e) in CatalogOf(entries).pipelines
    ensures forall m :: m in CatalogOf(entries).pipelines ==>
      exists f :: f in entries && Listed(f) && m == EntryOf(f)
  {
    CatalogCharacterization(entries);
    ListedMembership(entries, e);
    var l := ListedEntries(entries);
    var c := CatalogOf(entries).pipelines;
    if Listed(e) && e in entries {
      var k :| 0 <= k < |l| && l[k] == e;
      assert c[k] == EntryOf(e);
    }
    forall m | m in c ensures exists f :: f in entries && Listed(f) && m == EntryOf(f) {
      var k :| 0 <= k < |c| && c[k] == m;
      ListedAt(entries, k);
      assert m == EntryOf(l[k]);
    }
  }

  lemma {:induction false} ListedMembership(entries: seq<DirEntry>, e: DirEntry)
    ensures e in ListedEntries(entries) <==> e in entries && Listed(e)
  {
    if entries != [] {
      ListedMembership(entries[1..], e);
      assert entries == [entries[0]] + entries[1..];
    }
  }

  /** The catalog is never longer than the listing. */
  lemma {:induction false} CatalogLength(entries: seq<DirEntry>)
    ensures CatalogOf(entries).Discovered? ==> |CatalogOf(entries).pipelines| <= |entries|
    decreases |entries|
  {
    if entries != [] {
      CatalogLength(entries[..|entries| - 1]);
    }
  }

  /** Every catalog entry carries a string `id`. */
  predicate IsCatalogEntry(p: Manifest)
  {
    "id" in p && p["id"].JStr?
  }

  predicate IsCatalog(c: seq<Manifest>)
  {
    forall i :: 0 <= i < |c| ==> IsCatalogEntry(c[i])
  }

  /** The names `os.listdir` returns are distinct. */
  predicate DistinctNames(entries: seq<DirEntry>)
  {
    forall i, j :: 0 <= i < j < |entries| ==> entries[i].name != entries[j].name
  }

  /** The ids of a catalog are distinct. */
  predicate DistinctIds(c: seq<Manifest>)
    requires IsCatalog(c)
  {
    forall i, j :: 0 <= i < j < |c| ==> c[i]["id"] != c[j]["id"]
  }

  lemma {:induction false} ListedDistinct(entries: seq<DirEntry>)
    requires DistinctNames(entries)
    ensures DistinctNames(ListedEntries(entries))
  {
    if entries != [] {
      var rest := entries[1..];
      assert DistinctNames(rest) by {
        forall i, j | 0 <= i < j < |rest| ensures rest[i].name != rest[j].name {
          assert rest[i] == entries[i + 1] && rest[j] == entries[j + 1];
        }
      }
      ListedDistinct(rest);
      var lr := ListedEntries(rest);
      if Listed(entries[0]) {
        forall k | 0 <= k < |lr| ensures lr[k].name != entries[0].name {
          ListedMembership(rest, lr[k]);
          var m :| 0 <= m < |rest| && rest[m] == lr[k];
          assert entries[m + 1] == lr[k];
        }
        var l := ListedEntries(entries);
        assert l == [entries[0]] + lr;
        forall i, j | 0 <= i < j < |l| ensures l[i].name != l[j].name {
          if i > 0 {
            assert l[i] == lr[i - 1] && l[j] == lr[j - 1];
          } else {
            assert l[j] == lr[j - 1];
          }
        }
      }
    }
  }

  /**
   * Discovery yields a well-formed catalog: every entry has a string `id`
   * equal to its directory's name, and distinct directories give distinct ids.
   */
  lemma CatalogIds(entries: seq<DirEntry>)
    requires DistinctNames(entries)
    requires CatalogOf(entries).Discovered?
    ensures IsCatalog(CatalogOf(entries).pipelines)
    ensures DistinctIds(CatalogOf(entries).pipelines)
    ensures forall k :: 0 <= k < |CatalogOf(entries).pipelines| ==>
      exists e :: e in entries && CatalogOf(entries).pipelines[k]["id"] == JStr(e.name)
  {
    CatalogCharacterization(entries);
    ListedDistinct(entries);
    var l := ListedEntries(entries);
    var c := CatalogOf(entries).pipelines;
    forall k | 0 <= k < |c| ensures IsCatalogEntry(c[k]) && c[k]["id"] == JStr(l[k].name) {
      ListedAt(entries, k);
    }
    forall k | 0 <= k < |c| ensures exists e :: e in entries && c[k]["id"] == JStr(e.name) {
      ListedAt(entries, k);
    }
  }

  /**
   * The three discovery scenarios of the repository's tests: a directory
   * without a manifest and one with malformed JSON give an empty catalog; a
   * valid manifest gives one entry keeping its keys, with the directory's id.
   */
  lemma DiscoveryScenarios()
    ensures CatalogOf([DirEntry("pipeline_no_manifest", NoManifest)]) == Discovered([])
    ensures CatalogOf([DirEntry("pipeline_bad", Unparsable)]) == Discovered([])
    ensures var m := map["name" := JStr("Pipeline 1")];
      CatalogOf([DirEntry("pipeline1", Parsed(JObj(m)))]) ==
        Discovered([map["name" := JStr("Pipeline 1"), "id" := JStr("pipeline1")]])
  {
    var one := [DirEntry("pipeline1", Parsed(JObj(map["name" := JStr("Pipeline 1")])))];
    assert one[..0] == [];
  }

  // ----- run_pipeline -----

  /** The `id` of a catalog entry. */
  function PipelineId(p: Manifest): string
    requires IsCatalogEntry(p)
  {
    p["id"].s
  }

  /**
   * `pipeline.get('image_name', f"{pipeline['id']}-image")`.  A non-string
   * `image_name` gives no usable name (None).
   */
  function ImageName(p: Manifest): (r: Option<string>)
    requires IsCatalogEntry(p)
    ensures "image_name" !in p ==> r == Some(PipelineId(p) + "-image")
    ensures "image_name" in p ==> (r.Some? <==> p["image_name"].JStr?)
    ensures "image_name" in p && r.Some? ==> r.value == p["image_name"].s
  {
    if "image_name" !in p then Some(PipelineId(p) + "-image")
    else match p["image_name"]
      case JStr(s) => Some(s)
      case _ => None
  }

  /** `UPLOADS_DIR` of backend/config.py. */
  const UPLOADS_DIR := "uploads"

  /** The container-side mount point of the uploads directory. */
  const CONTAINER_UPLOADS_PATH := "/uploads"

  /** One volume binding of `containers.run`. */
  datatype Bind = Bind(bind: string, mode: string)

  /** The host uploads directory bound read-write at `/uploads`. */
  function Volumes(baseDir: string): (v: map<string, Bind>)
    ensures v.Keys == {Paths.Join(baseDir, UPLOADS_DIR)}
    ensures v[Paths.Join(baseDir, UPLOADS_DIR)] == Bind("/uploads", "rw")
  {
    map[Paths.Join(baseDir, UPLOADS_DIR) := Bind(CONTAINER_UPLOADS_PATH, "rw")]
  }

  /** `[os.path.join('/uploads', f) for f in filenames]`. */
  function ContainerArgs(filenames: seq<string>): (args: seq<string>)
    ensures |args| == |filenames|
    ensures forall i :: 0 <= i < |args| && !Paths.IsAbsolute(filenames[i]) ==> args[i] == "/uploads/" + filenames[i]
    ensures forall i :: 0 <= i < |args| && Paths.IsAbsolute(filenames[i]) ==> args[i] == filenames[i]
  {
    seq(|filenames|, i requires 0 <= i < |filenames| => Paths.Join(CONTAINER_UPLOADS_PATH, filenames[i]))
  }

  /** The container arguments give back the plain file names they were built from. */
  lemma ContainerArgsRecoverNames(filenames: seq<string>)
    requires forall i :: 0 <= i < |filenames| ==> '/' !in filenames[i]
    ensures forall i :: 0 <= i < |filenames| ==> Paths.BaseName(ContainerArgs(filenames)[i]) == filenames[i]
  {
    forall i | 0 <= i < |filenames| ensures Paths.BaseName(ContainerArgs(filenames)[i]) == filenames[i] {
      Paths.BaseNameOfJoin(CONTAINER_UPLOADS_PATH, filenames[i]);
    }
  }

  /** A container started by `client.containers.run(..., detach=True)`. */
  datatype Container = Container(id: string, image: string, command: seq<string>,
                                 volumes: map<string, Bind>, detach: bool)

  /** What `client.containers.run` does on this call. */
  datatype StartResult =
    | Started(containerId: string)
    | ContainerError     // docker.errors.ContainerError
    | StartException     // any other exception

  /** The Docker daemon as the launcher sees it. */
  datatype Docker = Docker(images: set<string>, start: StartResult)

  /**
   * `run_pipeline(pipeline, job_id, filenames)`: the container, or None when
   * the image is missing or starting the container raises.
   */
  function RunPipeline(p: Manifest, jobId: string, filenames: seq<string>, baseDir: string, docker: Docker): (r: Option<Container>)
    requires IsCatalogEntry(p)
    ensures r.Some? <==> ImageName(p).Some? && ImageName(p).value in docker.images && docker.start.Started?
    ensures r.Some? ==> r.value.id == docker.start.containerId && r.value.image == ImageName(p).value
    ensures r.Some? ==> r.value.command == ContainerArgs(filenames) && r.value.detach
    ensures r.Some? ==> r.value.volumes == Volumes(baseDir)
  {
    match ImageName(p)
    case None => None
    case Some(image) =>
      if image !in docker.images then None   // docker.errors.ImageNotFound
      else match docker.start
        case Started(cid) => Some(Container(cid, image, ContainerArgs(filenames), Volumes(baseDir), true))
        case ContainerError => None
        case StartException => None
  }
}
