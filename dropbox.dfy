/** The storage service as the renamer sees it: the shapes of the replies
    it reads, the requests it sends and the lines it reports. The service
    itself is not modelled; each call's reply is an input to the model. */
module Dropbox {
  import opened Matches

  /** An awaited call: it resolves with a value or rejects with an error
      whose `message` is kept. */
  datatype Outcome<+T> = Resolved(value: T) | Rejected(message: string)

  /** One page of search results (`response.result`): the matches, whether
      more pages follow, and the cursor that fetches the next one. */
  datatype SearchPage = SearchPage(matches: seq<SearchMatch>, hasMore: bool, cursor: string)

  /** One per-item result of a finished batch move, told apart by its
      `.tag`: `success` carries the new name, `failure` its reason; any other
      tag is kept as it came, so the `tag` of `Unrecognised` is neither
      `success` nor `failure`. */
  datatype MoveEntry = Success(name: string) | Failure(reason: string) | Unrecognised(tag: string)

  /** A reply of the batch-move status check: its `.tag` (`complete`,
      `in_progress` or anything else) and, when complete, the entries. */
  datatype JobStatus = JobStatus(tag: string, entries: seq<MoveEntry>)

  /** The calls the renamer makes, with their arguments. */
  datatype Request =
    | SearchContinue(cursor: string)       // filesSearchContinueV2({cursor})
    | MoveBatch(entries: seq<Candidate>)   // filesMoveBatchV2({entries})
    | MoveBatchCheck(asyncJobId: string)   // filesMoveBatchCheckV2({async_job_id})

  /** What the renamer reports on the console, one value per report. */
  datatype Event =
    | PageFetchError(message: string)           // "Error fetching next page: ..."
    | NoFilesFound                              // "No files found to rename based on your criteria."
    | Listing(candidates: seq<Candidate>)       // "Found n file(s) to rename:" and one line each
    | RenamingComplete                          // "Renaming complete!"
    | Cancelled                                 // "Operation cancelled."
    | NothingToRename                           // "0 items to rename"
    | Renamed(fromPath: string, newName: string)      // "Successfully renamed: ..."
    | RenameFailed(fromPath: string, reason: string)  // "Failed to rename ..."
    | UnknownStatus(entry: MoveEntry)           // "Unknown status: ..."
    | RenameError(message: string)              // "Error during rename operation: ..."
}
