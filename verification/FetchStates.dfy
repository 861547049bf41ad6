/** The records that travel between dispatcher, status node and fetcher job. */
module FetchStates {
  import opened Options

  datatype FetcherStatus = PENDING | RUNNING | DONE | FAILED | CANCELED
  {
    predicate Final() { DONE? || FAILED? || CANCELED? }
    predicate Success() { DONE? }
  }

  datatype FetchedType = FILE | DIRECTORY

  datatype SizeInfo = SizeInfo(totalSize: nat, fileCount: nat, maxSize: nat)

  datatype FetcherResult = FetcherResult(status: FetcherStatus, ftype: Option<FetchedType>, message: Option<string>)

  /** `DownloadableContent`: the first four fields come from the user, the others from the fetcher. */
  datatype Content = Content(
    src: string, path: string, id: Option<string>, md5: Option<string>,
    dst: Option<string>, ftype: Option<FetchedType>, status: Option<FetcherStatus>,
    message: Option<string>, sizeInfo: Option<SizeInfo>)

  const InitialData := FetcherResult(PENDING, None, None)

  function Update(res: FetcherResult, c: Content): Content {
    var c := c.(status := Some(res.status), ftype := res.ftype);
    if res.status.Success() then c else c.(message := res.message, dst := None)
  }
}
