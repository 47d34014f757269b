/**
 The upload service's Complete, statement by statement, and the steps of `PhotoAccounting` it amounts to.

 The object store's answer to the size query and the queue's answer are parameters.
 */
module UploadService {
  import opened Wrappers
  import opened PhotoRows
  import opened PhotoAccounting

  datatype CompleteError = NotFound | UploadNotFound | SizeMismatch | Internal

  /** The calls of one Complete that meets no other step in between. */
  function CompleteSteps(c: CallId, id: PhotoId, head: Option<int>, queueOk: bool): seq<Step> {
    match head
    case None => [CompleteLoad(c, id), CompleteStop(c)]
    case Some(size) => [CompleteLoad(c, id), CompleteMark(c, size), if queueOk then CompleteEnqueue(c) else CompleteStop(c)]
  }

  class Service {
    const repo: PostgresRepository
    var queued: seq<PhotoId>

    constructor (repo: PostgresRepository)
      ensures this.repo == repo && queued == []
    {
      this.repo := repo;
      queued := [];
    }

    /**
     * Done alone, Complete leaves the rows as its steps do, queues a job exactly when it moved the photo to
     * PROCESSING and the queue took it, and answers with the row as it then is.
     */
    method Complete(id: PhotoId, head: Option<int>, queueOk: bool, now: int, ghost w: World, ghost c: CallId)
      returns (r: Result<Photo, CompleteError>)
      requires Protocol(w) && w.db == repo.Rows() && w.now == now && c !in w.completes
      modifies this, repo
      ensures repo.Rows() == Run(w, CompleteSteps(c, id, head, queueOk)).db
      ensures queued == old(queued) +
              if id in w.db.photos && w.db.photos[id].status == Uploading && head == Some(w.db.photos[id].fileSize) && queueOk
              then [id] else []
      ensures r.Ok? ==> id in repo.photos && r.value == repo.photos[id] && r.value.status != Uploading
      ensures r == Err(NotFound) <==> id !in w.db.photos
      ensures r == Err(UploadNotFound) <==> id in w.db.photos && w.db.photos[id].status in {Uploading, PhotoRows.Failed} && head == None
      ensures r == Err(SizeMismatch) <==>
                id in w.db.photos && w.db.photos[id].status in {Uploading, PhotoRows.Failed} && head.Some? && head.value != w.db.photos[id].fileSize
      ensures r == Err(Internal) <==>
                id in w.db.photos && w.db.photos[id].status == Uploading && head == Some(w.db.photos[id].fileSize) && !queueOk
      ensures r.Err? && r.error != Internal ==> repo.Rows() == w.db && queued == old(queued)
    {
      RunAlone(w, c, id, head, queueOk);
      if id !in repo.photos {
        return Err(NotFound);
      }
      var photo := repo.photos[id];
      if photo.status == Ready || photo.status == Processing {
        return Ok(photo);
      }
      if head.None? {
        return Err(UploadNotFound);
      }
      if head.value != photo.fileSize {
        return Err(SizeMismatch);
      }
      var updated, transitioned := repo.MarkProcessing(id, head.value, now);
      if transitioned {
        if !queueOk {
          return Err(Internal);
        }
        queued := queued + [id];
      }
      return Ok(updated.value);
    }
  }

  /** The rows after a Complete that runs alone. */
  lemma RunAlone(w: World, c: CallId, id: PhotoId, head: Option<int>, queueOk: bool)
    requires Protocol(w) && c !in w.completes
    ensures Run(w, CompleteSteps(c, id, head, queueOk)).db ==
            if id in w.db.photos && w.db.photos[id].status != Ready && w.db.photos[id].status != Processing
               && head == Some(w.db.photos[id].fileSize)
            then w.db.MarkProcessing(id, head.value, w.now).0 else w.db
  {
    var steps := CompleteSteps(c, id, head, queueOk);
    var n := |steps|;
    assert steps[..n - 1][..n - 2] == steps[..n - 2];
    assert Run(w, steps) == Next(Run(w, steps[..n - 1]), steps[n - 1]);
    assert Run(w, steps[..n - 1]) == Next(Run(w, steps[..n - 2]), steps[n - 2]);
    if head.Some? {
      assert steps[..n - 2][..0] == [];
      assert Run(w, steps[..n - 2]) == Next(w, CompleteLoad(c, id));
    }
  }
}
