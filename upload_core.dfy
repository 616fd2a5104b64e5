/** The upload route: its middleware admits only a signed-in user with an
    id, and its completion handler records the file as PROCESSING, runs the
    indexing pipeline (fetch, read, load, index: all foreign) and records
    SUCCESS, or FAILED when any step threw. */
module UploadCore {
  import opened Common
  import opened Database

  datatype UploadError = UploadUnauthorized

  /** What the middleware hands to the completion handler. */
  datatype Metadata = Metadata(userId: string)

  /** The stored upload as the storage service reports it. */
  datatype UploadedFile = UploadedFile(key: string, name: string, url: string)

  /** The steps of the pipeline, each of which may throw. */
  datatype PipelineStep = FetchFile | ReadBlob | LoadPdf | IndexVectors

  /** How a pipeline run ended: all steps done (with the page count the
      loader found), or the step that threw. */
  datatype PipelineRun = Completed(pagesAmt: nat) | ThrewAt(step: PipelineStep)

  /** The middleware: an absent user or one without an id is refused;
      otherwise the metadata carries the user's id. */
  function Middleware(user: Option<SessionUser>): (r: Result<Metadata, UploadError>)
    ensures r.Ok? <==> user.Some? && Truthy(user.value.id)
    ensures r.Ok? ==> r.value.userId == user.value.id.value && r.value.userId != ""
  {
    if user.None? || !Truthy(user.value.id) then Err(UploadUnauthorized)
    else Ok(Metadata(user.value.id.value))
  }

  /** The status the handler writes last. */
  function FinalStatus(run: PipelineRun): (s: UploadStatus)
    ensures s == Success || s == Failed
    ensures s == Success <==> run.Completed?
  {
    if run.Completed? then Success else Failed
  }

  /** The page count plays no part: there is no quota check. */
  lemma OutcomeIgnoresPageCount(a: nat, b: nat)
    ensures FinalStatus(Completed(a)) == FinalStatus(Completed(b)) == Success
  {
  }

  /** Updating the status of the row just appended changes only that row. */
  lemma {:induction false} SetStatusOfLast(files: seq<FileRow>, row: FileRow, status: UploadStatus)
    requires forall f :: f in files ==> f.id != row.id
    ensures SetStatus(files + [row], row.id, status) == files + [row.(uploadStatus := status)]
  {
    var r := SetStatus(files + [row], row.id, status);
    forall i | 0 <= i < |files| ensures r[i] == files[i] {
      assert (files + [row])[i] == files[i];
      assert files[i] in files;
    }
  }

  /** `onUploadComplete`: one file row is created with the upload's key,
      name and url, the metadata's user and status PROCESSING; after the
      pipeline, that same row, and no other, is set to SUCCESS or FAILED.
      An error of the pipeline is swallowed. The status written to the new
      row is PROCESSING and then a terminal status, never PROCESSING again. */
  method OnUploadComplete(db: Db, metadata: Metadata, file: UploadedFile, newId: string, now: int,
                          run: PipelineRun)
    requires db.Valid()
    requires forall f :: f in db.files ==> f.id != newId
    modifies db`files, db`statusLog
    ensures db.Valid()
    ensures db.files == old(db.files)
                        + [FileRow(newId, file.name, file.url, file.key, FinalStatus(run), metadata.userId, now)]
    ensures db.statusLog == old(db.statusLog) + [(newId, Processing), (newId, FinalStatus(run))]
  {
    var created := FileRow(newId, file.name, file.url, file.key, Processing, metadata.userId, now);
    db.CreateFile(created);
    SetStatusOfLast(old(db.files), created, FinalStatus(run));
    var found: bool;
    if run.Completed? {
      found := db.UpdateFileStatus(created.id, Success);
    } else {
      found := db.UpdateFileStatus(created.id, Failed);
    }
    assert db.files[|db.files| - 1].id == newId;
  }
}
