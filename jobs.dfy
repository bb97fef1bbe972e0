/** `renameFiles` and `checkProgress`: one batch-move submission, polled
    until the job settles, and a report per submitted candidate. */
module Jobs {
  import opened Matches
  import opened Dropbox

  /** The message of the error raised for a job that ends in a state other
      than `complete`. */
  const JobFailedPrefix: string := "Job failed with status: "

  /** The message of the `TypeError` raised when a result entry has no
      submitted candidate at its position (`itemsToRename[i]` is
      `undefined`). */
  const UndefinedFromPath: string := "Cannot read properties of undefined (reading 'from_path')"

  /** A status-check reply ends the polling: the call rejected, or the tag
      is anything but `in_progress`. */
  predicate Settled(answer: Outcome<JobStatus>) {
    answer.Rejected? || answer.value.tag != "in_progress"
  }

  /** The server's replies settle the job at some point. */
  predicate Settles(answers: seq<Outcome<JobStatus>>) {
    exists i :: 0 <= i < |answers| && Settled(answers[i])
  }

  /** The number of status checks made: up to and including the first
      settling reply. */
  function Polls(answers: seq<Outcome<JobStatus>>): (n: nat)
    requires Settles(answers)
    ensures 0 < n <= |answers|
    ensures Settled(answers[n - 1])
    ensures forall k :: 0 <= k < n - 1 ==> !Settled(answers[k])
  {
    if Settled(answers[0]) then 1
    else
      assert Settles(answers[1..]) by {
        var i :| 0 <= i < |answers| && Settled(answers[i]);
        assert answers[1..][i - 1] == answers[i];
      }
      1 + Polls(answers[1..])
  }

  /** Only one number of polls fits: the first settling reply is unique. */
  lemma PollsUnique(answers: seq<Outcome<JobStatus>>, n: nat)
    requires 0 < n <= |answers| && Settled(answers[n - 1])
    requires forall k :: 0 <= k < n - 1 ==> !Settled(answers[k])
    ensures Settles(answers) && Polls(answers) == n
  {
    assert Settled(answers[n - 1]);
  }

  /** What `checkProgress` settles with on a settling reply: the entries of
      a complete job, or the error it raises. */
  function JobResult(answer: Outcome<JobStatus>): Outcome<seq<MoveEntry>>
    requires Settled(answer)
  {
    match answer
    case Rejected(message) => Rejected(message)
    case Resolved(status) =>
      if status.tag == "complete" then Resolved(status.entries)
      else Rejected(JobFailedPrefix + status.tag)
  }

  /** `checkProgress`: poll the job until a reply settles it. `answers[k]`
      is the reply to the k-th status check; the wait between checks is not
      modelled. */
  method CheckProgress(jobId: string, answers: seq<Outcome<JobStatus>>) returns (result: Outcome<seq<MoveEntry>>, polls: seq<Request>)
    requires Settles(answers)
    ensures 0 < |polls| <= |answers|
    ensures forall k :: 0 <= k < |polls| ==> polls[k] == MoveBatchCheck(jobId)
    ensures forall k :: 0 <= k < |polls| - 1 ==> answers[k].Resolved? && answers[k].value.tag == "in_progress"
    ensures Settled(answers[|polls| - 1])
    ensures result.Resolved? <==> answers[|polls| - 1].Resolved? && answers[|polls| - 1].value.tag == "complete"
    ensures result.Resolved? ==> result.value == answers[|polls| - 1].value.entries
    ensures answers[|polls| - 1].Rejected? ==> result == Rejected(answers[|polls| - 1].message)
    ensures answers[|polls| - 1].Resolved? && answers[|polls| - 1].value.tag != "complete" ==>
      result == Rejected(JobFailedPrefix + answers[|polls| - 1].value.tag)
  {
    polls := [];
    while true
      invariant |polls| <= |answers|
      invariant forall k :: 0 <= k < |polls| ==> polls[k] == MoveBatchCheck(jobId)
      invariant forall k :: 0 <= k < |polls| ==> !Settled(answers[k])
      decreases |answers| - |polls|
    {
      ghost var i :| 0 <= i < |answers| && Settled(answers[i]);
      assert |polls| <= i;
      var response := answers[|polls|];
      polls := polls + [MoveBatchCheck(jobId)];
      match response {
        case Rejected(message) =>
          result := Rejected(message);
          return;
        case Resolved(status) =>
          if status.tag == "complete" {
            result := Resolved(status.entries);
            return;
          } else if status.tag != "in_progress" {
            result := Rejected(JobFailedPrefix + status.tag);
            return;
          }
      }
    }
  }

  /** How result entry `entry` is reported against the candidate submitted
      at its position. */
  function Classify(item: Candidate, entry: MoveEntry): Event {
    match entry
    case Success(name) => Renamed(item.fromPath, name)
    case Failure(reason) => RenameFailed(item.fromPath, reason)
    case Unrecognised(_) => UnknownStatus(entry)
  }

  /** The reports for `entries[i..]`. A success or failure entry without a
      candidate at its position throws, which ends the report with the
      caught error. */
  function Report(items: seq<Candidate>, entries: seq<MoveEntry>, i: nat): seq<Event>
    requires i <= |entries|
    decreases |entries| - i
  {
    if i == |entries| then []
    else if i < |items| || entries[i].Unrecognised? then
      var line := if i < |items| then Classify(items[i], entries[i]) else UnknownStatus(entries[i]);
      [line] + Report(items, entries, i + 1)
    else [RenameError(UndefinedFromPath)]
  }

  /** Entry `k` is reported against `items[k]`: one report per entry, in
      order, as long as every entry has a candidate at its position. */
  lemma {:induction false} ReportIsPositional(items: seq<Candidate>, entries: seq<MoveEntry>, i: nat)
    requires i <= |entries| <= |items|
    decreases |entries| - i
    ensures |Report(items, entries, i)| == |entries| - i
    ensures forall k :: i <= k < |entries| ==> Report(items, entries, i)[k - i] == Classify(items[k], entries[k])
  {
    if i < |entries| {
      ReportIsPositional(items, entries, i + 1);
    }
  }

  /** When the first entry past the last candidate is a success or a
      failure, the entries before it are reported positionally and the
      report ends with the caught error. */
  lemma {:induction false} ReportOverrun(items: seq<Candidate>, entries: seq<MoveEntry>, i: nat)
    requires i <= |items| < |entries|
    requires !entries[|items|].Unrecognised?
    decreases |items| - i
    ensures Report(items, entries, i) ==
      seq(|items| - i, k requires 0 <= k < |items| - i => Classify(items[i + k], entries[i + k])) + [RenameError(UndefinedFromPath)]
  {
    if i < |items| {
      ReportOverrun(items, entries, i + 1);
    }
  }

  /** The `forEach` over the result entries of a complete job. */
  method ReportEntries(items: seq<Candidate>, entries: seq<MoveEntry>) returns (events: seq<Event>)
    ensures events == Report(items, entries, 0)
  {
    events := [];
    var i := 0;
    while i < |entries|
      invariant 0 <= i <= |entries|
      invariant events + Report(items, entries, i) == Report(items, entries, 0)
    {
      var entry := entries[i];
      if entry.Success? || entry.Failure? {
        if i >= |items| {
          events := events + [RenameError(UndefinedFromPath)];
          return;
        }
        events := events + [Classify(items[i], entry)];
      } else {
        events := events + [UnknownStatus(entry)];
      }
      i := i + 1;
    }
    assert events + [] == events;
  }

  /** The status checks for job `jobId`, `n` of them. */
  function Checks(jobId: string, n: nat): seq<Request> {
    seq(n, _ => MoveBatchCheck(jobId))
  }

  /** The calls `renameFiles` makes. */
  function RenameRequests(items: seq<Candidate>, submit: Outcome<string>, checks: seq<Outcome<JobStatus>>): seq<Request>
    requires |items| > 0 && submit.Resolved? ==> Settles(checks)
  {
    if |items| == 0 then []
    else
      [MoveBatch(items)] +
      match submit
      case Rejected(_) => []
      case Resolved(jobId) => Checks(jobId, Polls(checks))
  }

  /** What `renameFiles` reports. Errors of the submission and of the
      polling are caught and reported, never passed on. */
  function RenameEvents(items: seq<Candidate>, submit: Outcome<string>, checks: seq<Outcome<JobStatus>>): seq<Event>
    requires |items| > 0 && submit.Resolved? ==> Settles(checks)
  {
    if |items| == 0 then [NothingToRename]
    else
      match submit
      case Rejected(message) => [RenameError(message)]
      case Resolved(_) =>
        match JobResult(checks[Polls(checks) - 1])
        case Rejected(message) => [RenameError(message)]
        case Resolved(entries) => Report(items, entries, 0)
  }

  /** An empty list makes no call; otherwise the first call is the one
      batch submission, carrying exactly the candidates, and every later
      call is a status check of the job it started. */
  lemma RenameRequestsShape(items: seq<Candidate>, submit: Outcome<string>, checks: seq<Outcome<JobStatus>>)
    requires |items| > 0 && submit.Resolved? ==> Settles(checks)
    ensures var requests := RenameRequests(items, submit, checks);
      && (requests == [] <==> |items| == 0)
      && (|items| > 0 ==> requests[0] == MoveBatch(items))
      && (forall k :: 0 <= k < |requests| ==> (requests[k].MoveBatch? <==> k == 0))
      && (forall k :: 1 <= k < |requests| ==> requests[k] == MoveBatchCheck(submit.value))
  {
  }

  /** `renameFiles`: nothing on an empty list; otherwise submit once, poll
      the job, and report each result entry against the candidate at its
      position. `submit` is the reply to the submission (its
      `async_job_id`), `checks` the replies to the status checks. */
  method RenameFiles(items: seq<Candidate>, submit: Outcome<string>, checks: seq<Outcome<JobStatus>>)
    returns (events: seq<Event>, requests: seq<Request>)
    requires |items| > 0 && submit.Resolved? ==> Settles(checks)
    ensures events == RenameEvents(items, submit, checks)
    ensures requests == RenameRequests(items, submit, checks)
  {
    if |items| <= 0 {
      events, requests := [NothingToRename], [];
      return;
    }
    requests := [MoveBatch(items)];
    match submit {
      case Rejected(message) =>
        events := [RenameError(message)];
      case Resolved(jobId) =>
        var result, polls := CheckProgress(jobId, checks);
        PollsUnique(checks, |polls|);
        requests := requests + polls;
        match result {
          case Rejected(message) =>
            events := [RenameError(message)];
          case Resolved(entries) =>
            events := ReportEntries(items, entries);
        }
    }
  }
}
