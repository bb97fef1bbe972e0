# Dropbox file renamer: the rename pipeline in Dafny

This project models the core of a command-line tool that batch-renames
files in a Dropbox account (`index.js`). The tool runs a search and applies
an ordered list of regular-expression rename rules to the name of every
matched file. It keeps the files whose path actually changes, submits
them as one batch move and polls that job until it settles.

The model covers the five functions of that pipeline:

- `compileRules` (module `Rules`): compiles the configured
  `{pattern, newString}` rules. A rule whose pattern does not compile is
  dropped, and the rest keep their order.
- `filterMatches` (modules `Rules`, `Matches`, `Text`): folds the compiled
  rules over each file name, left to right. It then puts the new name in
  place of the first occurrence of the old one in `path_display`. It keeps
  the `{from_path, to_path}` pairs whose paths differ after lower-casing.
- `processResponse` (module `Pagination`): follows the search cursor page
  by page and accumulates the candidates. A failed continuation stops the
  loop but keeps what was gathered. Afterwards it reports that nothing was
  found, asks for confirmation (interactive mode) or submits.
- `renameFiles` and `checkProgress` (module `Jobs`): one batch submission,
  status checks until the job settles, and one report per result entry,
  matched to the submitted candidate by position.

The pure parts (`compileRules`, `filterMatches`) are recursive functions
with lemmas. The loops of `processResponse`, `renameFiles` and
`checkProgress` are methods with `while` loops. `CheckProgress` states its
result directly in its postconditions. The other methods are proved equal
to a specification function, and lemmas state the properties of those
functions.

The outside world is made of inputs:

- The regular-expression library is a value `Engine(compile, replace)`.
  `compile(p)` stands for `new RE2(p)`. `replace(re, s, t)` stands for
  `s.replace(re, t)`. `None` means the call throws.
- Each Dropbox call's reply is an input:
  - `answers`: the replies to the `filesSearchContinueV2` calls, in order;
  - `submit`: the reply to `filesMoveBatchV2`;
  - `checks`: the replies to the `filesMoveBatchCheckV2` calls.
  A reply either resolves with a value or rejects with an error message.
- The answer to the confirmation prompt is the parameter `confirm`.

The methods return two traces:

- the requests the tool makes, with their arguments (`Request`);
- what it reports on the console (`Event`), except the lines listed
  under "Left out".

Four behaviours of `index.js` are worth stating plainly:

- It does not translate ordinal `{{n}}` placeholders in replacement
  strings. It hands `newString` to `replace` unchanged (index.js:196).
- Submission and polling errors do not reach the caller. `renameFiles`
  catches them and only logs them (index.js:237-239); the model reports
  them as `RenameError` events.
- Re-running the filter on renamed files finds nothing when the rules
  give the same name when applied again to their output (`StableOn`).
  That is a sufficient condition, not a necessary one, and
  `Matches.FilterMatchesIdempotent` proves the filter finds nothing under
  it.
- The new name replaces the first occurrence of the old name anywhere in
  the path (index.js:201). When the name also names a parent folder (`a`
  at `/a/a`), that folder is the part that changes.

## Model

| member | source | states |
|---|---|---|
| `Text.IndexOf` | index.js:201 | the result is the leftmost index where the pattern occurs, and it is absent exactly when the pattern occurs nowhere |
| `Text.ReplaceFirst` | index.js:201 | only the leftmost occurrence is replaced and everything before and after it is kept; with no occurrence the string is unchanged |
| `Text.ReplaceFirstBySelf` | index.js:201 | replacing the name by itself leaves the path unchanged |
| `Text.Lower` | index.js:205 | the result has the input's length and no upper-case ASCII letter; each upper-case ASCII letter becomes its lower-case form and every other character is kept |
| `Text.ReplaceFirstKeepsCase` | index.js:201-205 | putting a text equal to the replaced one up to letter case into a path leaves the path equal to itself up to letter case |
| `Text.EqualIgnoringCasePointwise` | index.js:205 | two paths compare equal after lower-casing exactly when they have the same length and agree at every position after folding |
| `Rules.CompileRules` | index.js:106-118 | the output is never longer than the input, and it is as long exactly when every pattern compiles |
| `Rules.CompileRulesAppend` | index.js:106-118 | compiling a concatenation compiles each part on its own, so the relative order of the rules is kept |
| `Rules.CompileRulesSkipsInvalid` | index.js:107-117 | a rule whose pattern fails to compile is as if it were absent |
| `Rules.CompileRulesMembers` | index.js:106-118 | a compiled rule is in the output exactly when some configured rule compiles to its pattern and has its `newString` verbatim |
| `Rules.CompileRulesAllValid` | index.js:106-118 | when every pattern compiles, output position i is the compiled form of input rule i |
| `Rules.ApplyRules` | index.js:193-200 | with no rules the name is unchanged; otherwise the last rule runs on what all the rules before it produced (the `forEach` left fold); each step is the rule's `replace` result, or the name unchanged when `replace` throws (`ApplyRule`) |
| `Rules.ApplyRulesAppend` | index.js:193-200 | rules apply in declaration order: later rules run on the output of earlier ones |
| `Rules.ApplyRulesLast` | index.js:193-200 | the last rule is applied to the result of all rules before it |
| `Rules.ApplyRulesSkipsThrowing` | index.js:194-199 | a rule whose replace throws leaves the name unchanged, and the later rules still run |
| `Matches.Rename` | index.js:189-203 | `from_path` is `path_display`; `to_path` is `path_display` with its first occurrence of the name replaced by the rules' output, and nothing else changed |
| `Matches.RenameAtRoot` | index.js:190-203 | for a file at `/name`, `to_path` is `/` followed by the new name |
| `Matches.FilterMatches` | index.js:187-206 | the output is never longer than the input, and every kept pair differs after lower-casing |
| `Matches.FilterMatchesAppend` | index.js:187-206 | filtering a concatenation filters each part on its own: the output keeps input order |
| `Matches.FilterMatchesMembers` | index.js:187-206 | a pair is kept exactly when it is the mapped form of some input match and its paths differ after lower-casing |
| `Matches.FilterMatchesDropsCaseOnly` | index.js:205 | a match is dropped exactly when its new path equals its old one up to letter case |
| `Matches.NameCaseOnlyDropped` | index.js:189-206 | a match whose rules change its name only in letter case is dropped, whatever its path |
| `Matches.FilterMatchesIdempotent` | index.js:187-206 | on the renamed files, with rules idempotent on their names, the filter finds nothing |
| `Jobs.Polls` | index.js:253-266 | the number of checks is the position of the first reply that is a rejection or has a tag other than `in_progress` |
| `Jobs.PollsUnique` | index.js:253-266 | that position is the only one with those properties |
| `Jobs.CheckProgress` | index.js:251-267 | polls with the job id; polls again only after `in_progress`; returns the entries on the first `complete`; raises `Job failed with status: t` on any other tag and passes a failed check on |
| `Jobs.ReportEntries` | index.js:226-236 | the per-entry reports are those of the function `Report` |
| `Jobs.ReportIsPositional` | index.js:226-236 | entry k is reported against candidate k as success, failure or unknown status, one report per entry |
| `Jobs.ReportOverrun` | index.js:226-239 | when the first entry past the candidates is a success or failure, the earlier entries are reported positionally and the report ends with the caught error |
| `Jobs.RenameRequestsShape` | index.js:215-224 | an empty list makes no call; otherwise the first call is the single batch submission carrying exactly the candidates, followed only by checks of that job |
| `Jobs.RenameFiles` | index.js:215-240 | the calls and reports are those of the functions `RenameRequests` and `RenameEvents`; submission and polling errors are reported, never passed on |
| `Pagination.PaginateFollowsCursors` | index.js:133-148 | pages are visited in server order; a continuation is requested only after a page with more, with that page's cursor; the walk ends at the first page without more or the first failed continuation |
| `Pagination.CollectFiltersAllMatches` | index.js:133-137 | accumulating page by page equals filtering all matches at once |
| `Pagination.FetchAndFilter` | index.js:130-148 | the loop gathers the candidates of the pages visited, sends one continuation per cursor and keeps the error that stopped it |
| `Pagination.Confirmed` | index.js:168 | the confirmation is accepted exactly when the answer is `y` or `Y` |
| `Pagination.Conclude` | index.js:150-176 | nothing found gives no call; non-interactive mode renames; interactive mode lists the candidates and renames only on `y`, otherwise cancels |
| `Pagination.ProcessResponse` | index.js:129-177 | the accumulated candidates are those of the function `Found`, and the reports and calls are those of the function `Process` |
| `Pagination.ProcessSubmitsOnce` | index.js:150-176 | the continuations come first; a batch submission is made exactly when something was found and, in interactive mode, the answer lower-cases to `y`; it is made once and carries all found candidates |
| `Pagination.ProcessKeepsPartialResults` | index.js:138-148 | a failed continuation is reported first, and the candidates of every page up to the failing one are kept |
| `Pagination.ProcessTwoPages` | index.test.js:107-128 | with two pages, the continuation is requested once with the first page's cursor and both pages' candidates are gathered |
| `WorkedExamples.CompileRulesExample` | index.js:106-118 | a pattern that does not compile is dropped between two that do |
| `WorkedExamples.FilterMatchesExample` | index.test.js:35-53 | with `/\.PNG$/` to `.png` then `/\s/g` to `-`, `test file.PNG` gives `/test-file.png` and `nochange.png` is dropped |
| `WorkedExamples.CaseOnlyRenameExample` | index.js:205 | renaming `/a.PNG` to `/a.png` alone is not submitted |

## Left out

- Command-line wiring is not modelled: `main`, `runDefaultMode`, `runInteractiveMode`, `commander`, `prompt`, `dotenv`, `process.exit` and the configuration file (index.js:1-97). It is process plumbing around the pipeline.
- The Dropbox client and the search call that yields the first page are not modelled. Their replies are inputs.
- The one-second wait between status checks (index.js:262) is not modelled. It has no effect on what is computed.
- Regular-expression semantics and template expansion are not modelled. `Engine.replace` is an opaque function, so global versus non-global flags, `$1`, `$&` and the like stay inside it. `WorkedExamples` uses a small stand-in that knows only the two test patterns.
- Text.ReplaceFirst: inserts the new name literally. JavaScript would expand `$`-patterns in it, such as `$&` or `$$`.
- Text.Lower: folds ASCII letters only, not full Unicode `toLowerCase`.
- Jobs.CheckProgress: requires that some status reply settles the job. The source polls forever on a job that stays `in_progress`, and that case is not modelled. The unused `items` parameter is left out.
- Jobs.RenameFiles: its precondition is the same assumption about the status replies. The V8 wording of the `TypeError` message is taken as the text of `UndefinedFromPath`.
- Pagination.ProcessResponse: requires that the server answers every continuation the loop asks for (`Covers`). A server that offers pages without end is not modelled. It also requires, like `Jobs.RenameFiles`, that some status reply settles the job when the submission succeeds.
- Pagination.FetchAndFilter: carries the same `Covers` assumption.
- Pagination.Conclude: requires that some status reply settles the job when the submission succeeds, as `Jobs.RenameFiles` does.
- Console output is kept as a sequence of `Event`s, not as formatted text. Some lines are not modelled: "Starting rename job...", "Checking job progress...", the blank line, the base names shown in the interactive listing, "Skipping invalid regex pattern: …" (index.js:114) and "Error applying regex pattern: …" (index.js:198). The last two come from the pure functions `CompileRules` and `ApplyRule`, which record that a rule is dropped or skipped only by leaving it out of the result. So the `Event` trace of `ProcessResponse` does not contain them. The `JSON.stringify` formatting is not modelled either.
- Throws other than the ones the source handles are not modelled. Examples are a search match without `metadata`, or a failing prompt. They would reach the caller of `processResponse`.
- Some tests disagree with `index.js`, and the model follows `index.js`:
  - `filterMatches` called without rules (index.test.js:41);
  - a misspelt log line (index.test.js:60);
  - a rejection with a plain object (index.test.js:88);
  - two batch submissions (index.test.js:127).
