/** `processResponse`: follow the search cursor page by page, collect the
    rename candidates of every page, then submit them (after a confirmation
    in interactive mode). */
module Pagination {
  import opened Wrappers
  import opened Text
  import opened Rules
  import opened Matches
  import opened Dropbox
  import opened Jobs

  /** The server answers every continuation the loop asks for: from `page`
      there are no more pages, or the next reply fails, or it is a page
      from which the same holds. A server that never stops offering pages
      is not modelled. */
  predicate Covers(page: SearchPage, answers: seq<Outcome<SearchPage>>)
    decreases |answers|
  {
    !page.hasMore || (|answers| > 0 && (answers[0].Rejected? || Covers(answers[0].value, answers[1..])))
  }

  /** The pages the loop filters, in order, the cursors it sends, and the
      error that ended it, if one did. */
  datatype Walk = Walk(pages: seq<SearchPage>, cursors: seq<string>, error: Option<string>)

  /** The walk from `page`, where `answers[k]` is the reply to the k-th
      continuation request. */
  function Paginate(page: SearchPage, answers: seq<Outcome<SearchPage>>): Walk
    requires Covers(page, answers)
    decreases |answers|
  {
    if !page.hasMore then Walk([page], [], None)
    else
      match answers[0]
      case Rejected(message) => Walk([page], [page.cursor], Some(message))
      case Resolved(next) =>
        var rest := Paginate(next, answers[1..]);
        Walk([page] + rest.pages, [page.cursor] + rest.cursors, rest.error)
  }

  /** The walk from a page without more is that page alone. */
  lemma PaginateStops(page: SearchPage, answers: seq<Outcome<SearchPage>>)
    requires !page.hasMore
    ensures Covers(page, answers) && Paginate(page, answers) == Walk([page], [], None)
  {
  }

  /** The walk from a page whose continuation fails is that page alone,
      with its cursor sent and the error kept. */
  lemma PaginateFails(page: SearchPage, answers: seq<Outcome<SearchPage>>)
    requires Covers(page, answers) && page.hasMore && answers[0].Rejected?
    ensures Paginate(page, answers) == Walk([page], [page.cursor], Some(answers[0].message))
  {
  }

  /** One step of the walk: a page with more, whose continuation succeeds,
      is followed by the walk from the next page. */
  lemma PaginateStep(page: SearchPage, answers: seq<Outcome<SearchPage>>)
    requires Covers(page, answers) && page.hasMore && answers[0].Resolved?
    ensures Covers(answers[0].value, answers[1..])
    ensures var rest := Paginate(answers[0].value, answers[1..]);
      Paginate(page, answers) == Walk([page] + rest.pages, [page.cursor] + rest.cursors, rest.error)
  {
  }

  /** Pages are visited in server order, each once; a continuation is
      requested only after a page that has more, with that page's cursor;
      the walk ends at the first page without more or at the first failed
      continuation. */
  lemma {:induction false} PaginateFollowsCursors(page: SearchPage, answers: seq<Outcome<SearchPage>>)
    requires Covers(page, answers)
    decreases |answers|
    ensures var w := Paginate(page, answers);
      && |w.pages| > 0 && w.pages[0] == page
      && |w.cursors| == (if w.error.Some? then |w.pages| else |w.pages| - 1)
      && |w.cursors| <= |answers|
      && (forall k :: 0 <= k < |w.cursors| ==> w.pages[k].hasMore && w.cursors[k] == w.pages[k].cursor)
      && (forall k :: 0 <= k < |w.pages| - 1 ==> answers[k] == Resolved(w.pages[k + 1]))
      && (w.error.None? <==> !w.pages[|w.pages| - 1].hasMore)
      && (w.error.Some? ==> answers[|w.cursors| - 1] == Rejected(w.error.value))
  {
    if page.hasMore && answers[0].Resolved? {
      var rest := answers[1..];
      PaginateFollowsCursors(answers[0].value, rest);
      var w := Paginate(page, answers);
      var r := Paginate(answers[0].value, rest);
      assert w.pages == [page] + r.pages && w.cursors == [page.cursor] + r.cursors;
      forall k | 1 <= k < |w.pages| - 1
        ensures answers[k] == Resolved(w.pages[k + 1])
      {
        assert answers[k] == rest[k - 1];
      }
      if w.error.Some? {
        assert answers[|w.cursors| - 1] == rest[|r.cursors| - 1];
      }
    }
  }

  /** The candidates accumulated over `pages`: each page filtered on its
      own, the results appended in page order. */
  function Collect<P, R>(engine: Engine<P, R>, rules: seq<CompiledRule<R>>, pages: seq<SearchPage>): seq<Candidate> {
    if pages == [] then []
    else Collect(engine, rules, pages[..|pages| - 1]) + FilterMatches(engine, rules, pages[|pages| - 1].matches)
  }

  /** All matches of `pages`, in page order. */
  function AllMatches(pages: seq<SearchPage>): seq<SearchMatch> {
    if pages == [] then [] else AllMatches(pages[..|pages| - 1]) + pages[|pages| - 1].matches
  }

  /** Filtering page by page loses and reorders nothing: the accumulated
      list is what one filter over all the matches would give. */
  lemma {:induction false} CollectFiltersAllMatches<P, R>(engine: Engine<P, R>, rules: seq<CompiledRule<R>>, pages: seq<SearchPage>)
    ensures Collect(engine, rules, pages) == FilterMatches(engine, rules, AllMatches(pages))
  {
    if pages != [] {
      var init := pages[..|pages| - 1];
      CollectFiltersAllMatches(engine, rules, init);
      FilterMatchesAppend(engine, rules, AllMatches(init), pages[|pages| - 1].matches);
    }
  }

  /** One `filesSearchContinueV2` request per cursor. */
  function ContinueRequests(cursors: seq<string>): seq<Request> {
    seq(|cursors|, k requires 0 <= k < |cursors| => SearchContinue(cursors[k]))
  }

  /** The walk `w` with `pages` visited and `cursors` sent before it. */
  function Prepend(pages: seq<SearchPage>, cursors: seq<string>, w: Walk): Walk {
    Walk(pages + w.pages, cursors + w.cursors, w.error)
  }

  lemma PrependOneMore(pages: seq<SearchPage>, cursors: seq<string>, page: SearchPage, w: Walk)
    ensures Prepend(pages, cursors, Walk([page] + w.pages, [page.cursor] + w.cursors, w.error))
         == Prepend(pages + [page], cursors + [page.cursor], w)
  {
    assert pages + ([page] + w.pages) == (pages + [page]) + w.pages;
    assert cursors + ([page.cursor] + w.cursors) == (cursors + [page.cursor]) + w.cursors;
  }

  lemma CollectOneMore<P, R>(engine: Engine<P, R>, rules: seq<CompiledRule<R>>, pages: seq<SearchPage>, page: SearchPage)
    ensures Collect(engine, rules, pages + [page]) == Collect(engine, rules, pages) + FilterMatches(engine, rules, page.matches)
  {
    assert (pages + [page])[..|pages|] == pages;
  }

  lemma ContinueRequestsOneMore(cursors: seq<string>, cursor: string)
    ensures ContinueRequests(cursors + [cursor]) == ContinueRequests(cursors) + [SearchContinue(cursor)]
  {
    assert ContinueRequests(cursors + [cursor])[..|cursors|] == ContinueRequests(cursors);
  }

  /** What the renamer reports and the calls it makes. */
  datatype Effects = Effects(events: seq<Event>, requests: seq<Request>)

  /** `confirm.toLowerCase() === 'y'`. */
  function Confirmed(confirm: string): (b: bool)
    ensures b <==> confirm == "y" || confirm == "Y"
  {
    Lower(confirm) == "y"
  }

  /** What happens after pagination with the accumulated `found`. */
  function Conclusion(found: seq<Candidate>, interactive: bool, confirm: string,
                    submit: Outcome<string>, checks: seq<Outcome<JobStatus>>): Effects
    requires submit.Resolved? ==> Settles(checks)
  {
    if |found| == 0 then Effects([NoFilesFound], [])
    else if !interactive then Effects(RenameEvents(found, submit, checks), RenameRequests(found, submit, checks))
    else if Confirmed(confirm) then
      Effects([Listing(found)] + RenameEvents(found, submit, checks) + [RenamingComplete], RenameRequests(found, submit, checks))
    else Effects([Listing(found), Cancelled], [])
  }

  /** The candidates `processResponse` accumulates. */
  function Found<P, R>(engine: Engine<P, R>, rules: seq<CompiledRule<R>>,
                       first: SearchPage, answers: seq<Outcome<SearchPage>>): seq<Candidate>
    requires Covers(first, answers)
  {
    Collect(engine, rules, Paginate(first, answers).pages)
  }

  /** Everything `processResponse` reports and requests. */
  function Process<P, R>(engine: Engine<P, R>, rules: seq<CompiledRule<R>>,
                         first: SearchPage, answers: seq<Outcome<SearchPage>>,
                         interactive: bool, confirm: string,
                         submit: Outcome<string>, checks: seq<Outcome<JobStatus>>): Effects
    requires Covers(first, answers)
    requires submit.Resolved? ==> Settles(checks)
  {
    var w := Paginate(first, answers);
    var rest := Conclusion(Found(engine, rules, first, answers), interactive, confirm, submit, checks);
    Effects((if w.error.Some? then [PageFetchError(w.error.value)] else []) + rest.events,
            ContinueRequests(w.cursors) + rest.requests)
  }

  /** The calls made: the continuations first, one per cursor sent; then
      at most one batch submission, which is made exactly when something
      was found and (in interactive mode) the answer was `y`, and which
      carries all found candidates. */
  lemma ProcessSubmitsOnce<P, R>(engine: Engine<P, R>, rules: seq<CompiledRule<R>>,
                                 first: SearchPage, answers: seq<Outcome<SearchPage>>,
                                 interactive: bool, confirm: string,
                                 submit: Outcome<string>, checks: seq<Outcome<JobStatus>>)
    requires Covers(first, answers)
    requires submit.Resolved? ==> Settles(checks)
    ensures var w := Paginate(first, answers);
      var found := Found(engine, rules, first, answers);
      var requests := Process(engine, rules, first, answers, interactive, confirm, submit, checks).requests;
      && |w.cursors| <= |requests|
      && (forall k :: 0 <= k < |w.cursors| ==> requests[k] == SearchContinue(w.cursors[k]))
      && ((exists k :: 0 <= k < |requests| && requests[k].MoveBatch?) <==>
          |found| > 0 && (!interactive || Confirmed(confirm)))
      && (forall k :: 0 <= k < |requests| && requests[k].MoveBatch? ==>
          k == |w.cursors| && requests[k] == MoveBatch(found))
  {
    var w := Paginate(first, answers);
    var found := Found(engine, rules, first, answers);
    var rest := Conclusion(found, interactive, confirm, submit, checks);
    var requests := ContinueRequests(w.cursors) + rest.requests;
    RenameRequestsShape(found, submit, checks);
    assert forall k :: |w.cursors| <= k < |requests| ==> requests[k] == rest.requests[k - |w.cursors|];
    if |found| > 0 && (!interactive || Confirmed(confirm)) {
      assert requests[|w.cursors|].MoveBatch?;
    }
  }

  /** A failed continuation ends the loop without losing anything already
      gathered: the error is reported first, and the candidates of every
      page up to and including the one whose continuation failed are
      kept. */
  lemma ProcessKeepsPartialResults<P, R>(engine: Engine<P, R>, rules: seq<CompiledRule<R>>,
                                         first: SearchPage, answers: seq<Outcome<SearchPage>>,
                                         interactive: bool, confirm: string,
                                         submit: Outcome<string>, checks: seq<Outcome<JobStatus>>)
    requires Covers(first, answers)
    requires submit.Resolved? ==> Settles(checks)
    requires Paginate(first, answers).error.Some?
    ensures var w := Paginate(first, answers);
      && Process(engine, rules, first, answers, interactive, confirm, submit, checks).events[0] == PageFetchError(w.error.value)
      && 0 < |w.cursors| == |w.pages| <= |answers|
      && answers[|w.cursors| - 1] == Rejected(w.error.value)
      && Found(engine, rules, first, answers) == FilterMatches(engine, rules, AllMatches(w.pages))
  {
    var w := Paginate(first, answers);
    PaginateFollowsCursors(first, answers);
    CollectFiltersAllMatches(engine, rules, w.pages);
  }

  /** Two pages, the second reached through the first one's cursor: one
      continuation, with that cursor, and the candidates of both pages. */
  lemma ProcessTwoPages<P, R>(engine: Engine<P, R>, rules: seq<CompiledRule<R>>,
                              first: SearchPage, second: SearchPage, answers: seq<Outcome<SearchPage>>)
    requires first.hasMore && !second.hasMore
    requires |answers| > 0 && answers[0] == Resolved(second)
    ensures Covers(first, answers)
    ensures Paginate(first, answers).cursors == [first.cursor]
    ensures Found(engine, rules, first, answers) == FilterMatches(engine, rules, first.matches + second.matches)
  {
    assert Covers(second, answers[1..]);
    assert Paginate(second, answers[1..]) == Walk([second], [], None);
    var pages := Paginate(first, answers).pages;
    assert pages == [first, second];
    assert pages[..1] == [first];
    CollectFiltersAllMatches(engine, rules, pages);
    assert AllMatches([first]) == first.matches by {
      assert [first][..0] == [];
    }
  }

  /** The loop of `processResponse`: filter the first page, then keep
      requesting the next page with the current cursor while the server
      says there are more, appending each page's candidates; a failed
      continuation stops the loop but keeps what was gathered. `answers`
      are the replies to the continuation requests. */
  method FetchAndFilter<P, R>(engine: Engine<P, R>, rules: seq<CompiledRule<R>>,
                              first: SearchPage, answers: seq<Outcome<SearchPage>>)
    returns (found: seq<Candidate>, error: Option<string>, requests: seq<Request>)
    requires Covers(first, answers)
    ensures found == Found(engine, rules, first, answers)
    ensures error == Paginate(first, answers).error
    ensures requests == ContinueRequests(Paginate(first, answers).cursors)
  {
    var current := first;
    var i := 0;
    found, error, requests := [], None, [];
    ghost var visited: seq<SearchPage> := [];
    ghost var sent: seq<string> := [];
    ghost var whole := Paginate(first, answers);
    while true
      invariant i <= |answers| && Covers(current, answers[i..])
      invariant Prepend(visited, sent, Paginate(current, answers[i..])) == whole
      invariant found == Collect(engine, rules, visited)
      invariant requests == ContinueRequests(sent)
      decreases |answers| - i
    {
      ghost var rest := answers[i..];
      var filtered := FilterMatches(engine, rules, current.matches);
      CollectOneMore(engine, rules, visited, current);
      found := found + filtered;
      if current.hasMore {
        var reply := answers[i];
        assert reply == rest[0];
        ContinueRequestsOneMore(sent, current.cursor);
        requests := requests + [SearchContinue(current.cursor)];
        match reply {
          case Rejected(message) =>
            PaginateFails(current, rest);
            visited, sent := visited + [current], sent + [current.cursor];
            error := Some(message);
            break;
          case Resolved(next) =>
            PaginateStep(current, rest);
            assert rest[1..] == answers[i + 1..];
            PrependOneMore(visited, sent, current, Paginate(next, answers[i + 1..]));
            visited, sent := visited + [current], sent + [current.cursor];
            current, i := next, i + 1;
        }
      } else {
        PaginateStops(current, rest);
        visited := visited + [current];
        break;
      }
    }
    assert whole.pages == visited && whole.cursors == sent;
  }

  /** The part of `processResponse` after the loop: report that nothing
      was found, or submit the candidates (in interactive mode, after
      listing them and only on a `y`). `confirm` is the answer to the
      prompt, `submit` and `checks` the replies `renameFiles` gets. */
  method Conclude(found: seq<Candidate>, interactive: bool, confirm: string,
                  submit: Outcome<string>, checks: seq<Outcome<JobStatus>>)
    returns (events: seq<Event>, requests: seq<Request>)
    requires submit.Resolved? ==> Settles(checks)
    ensures Effects(events, requests) == Conclusion(found, interactive, confirm, submit, checks)
  {
    if |found| == 0 {
      events, requests := [NoFilesFound], [];
      return;
    }
    if interactive {
      if Confirmed(confirm) {
        var renameEvents, renameRequests := RenameFiles(found, submit, checks);
        events := [Listing(found)] + renameEvents + [RenamingComplete];
        requests := renameRequests;
      } else {
        events, requests := [Listing(found), Cancelled], [];
      }
    } else {
      events, requests := RenameFiles(found, submit, checks);
    }
  }

  /** `processResponse`: gather the candidates of all pages, then conclude. */
  method ProcessResponse<P, R>(engine: Engine<P, R>, rules: seq<CompiledRule<R>>,
                               first: SearchPage, answers: seq<Outcome<SearchPage>>,
                               interactive: bool, confirm: string,
                               submit: Outcome<string>, checks: seq<Outcome<JobStatus>>)
    returns (found: seq<Candidate>, events: seq<Event>, requests: seq<Request>)
    requires Covers(first, answers)
    requires submit.Resolved? ==> Settles(checks)
    ensures found == Found(engine, rules, first, answers)
    ensures Effects(events, requests) == Process(engine, rules, first, answers, interactive, confirm, submit, checks)
  {
    var error, continued;
    found, error, continued := FetchAndFilter(engine, rules, first, answers);
    var finalEvents, finalRequests := Conclude(found, interactive, confirm, submit, checks);
    events := (if error.Some? then [PageFetchError(error.value)] else []) + finalEvents;
    requests := continued + finalRequests;
  }
}
