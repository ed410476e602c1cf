# Tasklists reporter and local CodeBuild runner — a Dafny model

This project models three small pieces of a repository of GitHub Actions:

- **The task-list extractor** (`tasklists.js`). It scans the token stream of the `marked` Markdown lexer. For every task-list item it yields the item's name and whether its box is checked. It examines only the indices below `length - 2`, and it looks one token ahead.
- **The pull-request task reporter** (`index.js`, `main`). From a pull-request event it works out the commit statuses to create on the head commit:
  - with `report_tasks` set to exactly `"true"`, one status per task, with context `Tasklists Task: <name>` and state success or pending;
  - one `Removed`/error status for each task reported by an earlier run that has since disappeared;
  - a `Tasklists: Completed` summary with the counts.

  An event without a pull request produces nothing.
- **The local runner script** (`local.js`). It finds the GitHub owner and repository of a git remote in the output of `git remote -v`. It turns the polling options from seconds into milliseconds. Then it pushes a throwaway branch, runs the build against it, and deletes the branch whatever the build's outcome.

Modules:

| file | module | models |
|---|---|---|
| `wrappers.dfy` | `Wrappers` | `Option` / `Result`, for `undefined` and thrown errors |
| `js_strings.dfy` | `JsStrings` | `startsWith`, `endsWith`, `trim`, `split`, `join`, number-to-string |
| `tasklists.dfy` | `Tasklists` | `tasks` in `tasklists.js` |
| `task_statuses.dfy` | `TaskStatuses` | `getEventDetails` and `main` in `index.js` |
| `local_runner.dfy` | `LocalRunner` | `githubInfo`, `config` and the top-level script in `local.js` |

Each imperative piece of the source becomes a Dafny method with loops and invariants. Each method is proved equal to a specification function, and lemmas state what the source promises about that function:

- `ExtractTasks` against `Tasks`;
- `Run` and its three loops against `Requests` / `Plan`;
- `RunScript` / `RunLocal` / `RunLocalFixed`, whose contracts give the effect trace.

The Markdown lexer, the GitHub API, git and the build service are not modelled. Their results are parameters:
- the lexer is a function `string -> seq<Token>`;
- the existing statuses are a sequence of contexts;
- the remote listing is a string;
- the outcome of each push, build and delete is an `Outcome`.

## Model

| member | source | states |
|---|---|---|
| `Tasklists.ExtractTasks` | tasklists.js:8-23 | The generator, run to completion with its `continue`s, yields exactly `Tasks(tokens)`. Its lookahead `tokens[i + 1]` is always in bounds. |
| `Tasklists.ScanLimit` | tasklists.js:9 | The loop bound `length - 2` leaves room for the lookahead. It is 0 when there are fewer than two tokens. |
| `Tasklists.TasksBelowCharacterised` | tasklists.js:9-21 | Below any bound `k`, the tasks correspond one to one, in strictly increasing index order, to the task starts below `k`. |
| `Tasklists.TasksCharacterised` | tasklists.js:9-21 | Every yielded task comes from an index `i` with `i + 2 < length` where `tokens[i]` is a `list_item_start` with `task` set and `tokens[i+1]` is `text`. Its name is `tokens[i+1].text` and `completed` is `tokens[i].checked`. Every such index yields exactly once, in increasing index order. |
| `Tasklists.TasksBelowBound` | tasklists.js:9-21 | At most one task per examined index. |
| `Tasklists.TasksBound` | tasklists.js:9 | At most `max(0, length - 2)` tasks; fewer than three tokens yield nothing. |
| `Tasklists.LastTokenNeverRead` | tasklists.js:9-17 | Replacing the last token never changes the result. So a task item whose start and text are the final two tokens is never yielded. |
| `Tasklists.LastTokenNeverReadBelow` | tasklists.js:9-17 | The same, for the tasks below any bound. |
| `TaskStatuses.GetEventDetails` | index.js:10-22 | No details exactly when the event has no `pull_request`. Otherwise: the body and head SHA of the pull request, and the repository's name and owner login. |
| `TaskStatuses.TaskContext` | index.js:52 | A task's context starts with the prefix `Tasklists Task:` that marks removal candidates, and the task name can be read back from it. |
| `TaskStatuses.PrefixedContexts` | index.js:35-38 | The contexts kept are exactly the existing contexts that start with `Tasklists Task:`. |
| `TaskStatuses.DedupMembers` | index.js:39-41 | Adding the candidates to a `Set` one by one keeps each distinct candidate exactly once. |
| `TaskStatuses.WithoutMembers` | index.js:53 | Deleting names from the set keeps exactly the other elements, each once. |
| `TaskStatuses.WithoutNothing` | index.js:32 | Deleting no names leaves the set as it was. |
| `TaskStatuses.WithoutOneMore` | index.js:53 | Deleting task contexts one by one equals deleting them all at once. |
| `TaskStatuses.Candidates` | index.js:32-42 | The removal candidates are exactly the distinct existing contexts starting with `Tasklists Task:`, with no duplicates. |
| `TaskStatuses.RemovedNames` | index.js:53-68 | A candidate is marked removed exactly when no current task's context equals it. Each removed candidate appears once. |
| `TaskStatuses.CountCompleted` | index.js:44-50 | `completedCount` never exceeds `totalCount`. |
| `TaskStatuses.CountCompletedExtremes` | index.js:46-50 | The completed count equals the total exactly when every task is completed. It is zero exactly when none is. |
| `TaskStatuses.PlanLayout` | index.js:46-77 | With `reportTasks`, the statuses are: first one per task in task order (context `Tasklists Task: <name>`, no description, success iff completed, pending iff not), then one `Removed`/error status per removed candidate, then the summary last. Without `reportTasks`, the summary is the only status. All statuses are for the event's repository and head SHA. |
| `TaskStatuses.SummaryFacts` | index.js:69-77 | The summary has context `Tasklists: Completed`. Its state is success iff every task is completed, which includes zero tasks, and pending iff some task is not. Its description is `No tasks` iff there are no tasks, otherwise `<completed> of <total> tasks`. |
| `TaskStatuses.PlanContexts` | index.js:51-72 | A reporting run creates exactly the task contexts, the removed candidates and the summary context. |
| `TaskStatuses.StatusContextsAppend` | index.js:54-77 | The contexts of statuses pushed one after another are the contexts of each part, in order. |
| `TaskStatuses.NextRunCandidates` | index.js:38-52 | Across runs: on the next run, a context this run created is a removal candidate exactly when it was one of this run's candidates or is one of this run's task contexts. The summary context is never a candidate. |
| `TaskStatuses.CollectDangling` | index.js:32-42 | The loop that fills `danglingTasksNames` produces exactly the candidates when tasks are reported, and an empty set otherwise. |
| `TaskStatuses.ReportEachTask` | index.js:43-60 | The task loop counts every task as `totalCount` and the completed ones as `completedCount`. When reporting, it issues the per-task statuses in order and deletes every task context from the dangling names. |
| `TaskStatuses.ReportRemoved` | index.js:61-68 | One `Removed`/error status per remaining dangling name, in set order. |
| `TaskStatuses.Run` | index.js:23-78 | `main` issues exactly `Requests(...)`: nothing for an event without a pull request, otherwise `Plan` over the tasks the lexer and extractor find in the body. |
| `JsStrings.LeadingSpace` | local.js:137 | The number of leading white-space characters, all of which are white space and are followed by a non-space. |
| `JsStrings.TrailingSpace` | local.js:137 | The same at the end of the string. |
| `JsStrings.Trim` | local.js:137 | `trim()` gives a string that neither starts nor ends with white space. |
| `JsStrings.TrimUnchanged` | local.js:137 | A string that neither starts nor ends with white space is its own trim. |
| `JsStrings.TrimStrips` | local.js:137 | `trim()` removes exactly the surrounding white space: white space, then text that neither starts nor ends with white space, then white space, trims to that text. |
| `JsStrings.Split` | local.js:136-139 | `split` gives at least one part, and no part contains a separator. |
| `JsStrings.SplitNoSep` | local.js:136 | A string without separators is a single part. |
| `JsStrings.SplitAtFirst` | local.js:139 | The first separator ends the first part; the rest is split on its own. |
| `JsStrings.SplitHasSecondPart` | local.js:139 | A second field exists exactly when the line contains a separator. |
| `JsStrings.JoinSplit` | local.js:136 | Joining the lines of a split with `\n` restores the listing. |
| `JsStrings.SplitJoin` | local.js:136 | Splitting a join of newline-free lines gives the lines back. |
| `JsStrings.DigitChar` | index.js:75 | A digit below ten renders as a character from `0` to `9`. |
| `JsStrings.NatToString` | index.js:75 | A count renders as a non-empty string of digits with no leading zero. |
| `JsStrings.DecimalRoundTrip` | index.js:75 | Reading the rendered count back as a decimal gives the count. |
| `LocalRunner.ConfigOf` | local.js:95-98 | `config` as written: the update interval in milliseconds, divided by 1000, is `--update-interval` in seconds (30 s by default, i.e. 30000 ms). The back-off is never a number, whatever the command line says, because the script reads `updateBackOff` while the option `update-backoff` is exposed as `updateBackoff`. |
| `LocalRunner.ConfigOfFixed` | local.js:95-98 | `config` as intended: both values in milliseconds, divided by 1000, are the options in seconds, with defaults 30 s and 15 s (30000 and 15000 ms). |
| `LocalRunner.ConfigBackOffLost` | local.js:95-98 | The two configurations agree on the interval and always differ in the back-off; with no options, the code as written has no back-off where 15000 ms was intended. |
| `LocalRunner.FirstIndex` | local.js:133-137 | The index found is that of the first element kept. None is found exactly when no element is kept. |
| `LocalRunner.FirstMatch` | local.js:126-137 | The line chosen is the first line whose trimmed text matches `^<remote>.*\(push\)$`. No line is chosen exactly when none matches. |
| `LocalRunner.FirstMatchAt` | local.js:133-137 | A matching line with no match before it is the line chosen. |
| `LocalRunner.RemoteUrl` | local.js:126-139 | The result fails with `No remote found named <remote>` exactly when no line of the listing matches. A URL found is a single tab- and space-free field. |
| `LocalRunner.SliceDropLastFour` | local.js:141-144 | `slice(start, -4)` is the text from `start` up to the last four characters, or empty when that range is empty. |
| `LocalRunner.OwnerRepo` | local.js:141-145 | `repo` is undefined exactly when the path has no `/`. |
| `LocalRunner.ParseUrl` | local.js:140-148 | As written: the result fails exactly when the URL starts with neither `https://github.com/` nor `git@github.com:`, and then with `Unsupported format: <url>`. |
| `LocalRunner.GithubInfo` | local.js:119-149 | As written, over a given listing: the result fails with `No remote found named <remote>` exactly when no line matches. |
| `LocalRunner.OwnerRepoOfPath` | local.js:141-142 | `owner/repo` splits back into the owner and the repository. |
| `LocalRunner.ParseUrlRoundTrip` | local.js:140-145 | As written, an HTTPS or SSH GitHub URL ending in `.git` yields its owner and repository. |
| `LocalRunner.ParseUrlWithoutGitSuffix` | local.js:141 | As written, `https://github.com/octo/hello` yields repository `h`. |
| `LocalRunner.StripGitSuffix` | local.js:141-144 | Corrected: a trailing `.git` is removed when present, and nothing otherwise. |
| `LocalRunner.ParseUrlFixed` | local.js:140-148 | Corrected parse, with the same failure cases as `ParseUrl`. |
| `LocalRunner.GithubInfoFixed` | local.js:119-149 | Corrected `githubInfo`, with the same `No remote found` condition. |
| `LocalRunner.ParseUrlFixedRoundTrip` | local.js:140-145 | Corrected: an HTTPS or SSH GitHub URL yields its owner and repository, with or without `.git`. |
| `LocalRunner.GitSuffixBelongsToRepo` | local.js:141 | A `.git` ending on `owner/repo` belongs to the repository name. |
| `LocalRunner.ParseUrlFixedWithoutGitSuffix` | local.js:141 | Corrected: `https://github.com/octo/hello` yields repository `hello`. |
| `LocalRunner.RemoteLineMatches` | local.js:122-126 | A `git remote -v` push line `<remote>\t<url> (push)` matches its remote. |
| `LocalRunner.RemoteLineFields` | local.js:139 | The second field of that line is the URL. |
| `LocalRunner.RemoteUrlOfListing` | local.js:119-139 | Reading back a listing: when line `j` is the remote's push line and no earlier line matches, the remote's URL is found and `githubInfo` parses it. |
| `LocalRunner.RunScript` | local.js:100-109 | When the repository information failed, there are no effects and the script fails with its message. Otherwise the branch is pushed first, and a failed push ends the script with only the push in the trace and that error. After a successful push, the build starts second with the branch and the config, and every later effect deletes the branch: once, or twice when the delete after a successful build throws. The script succeeds iff the information, push, build and first delete all succeed. A failed build is rethrown unless its delete throws, which then wins. When the delete after a successful build throws, the script fails with the second delete's error if that one throws too, else with the first delete's. |
| `LocalRunner.RunLocal` | local.js:81-109 | The script as written, with `githubInfo`'s unchecked `.git` slice and the lost back-off. The repository information and the config are computed before any push, so any `githubInfo` error (no remote, missing URL, unsupported format) leaves no effects and the script fails with its message. The push comes first and a failed push stops the script. After a successful push, the build comes second with the as-written repository information and config, and every later effect is a branch delete. The script succeeds iff every step does, and a failure is rethrown as `RunScript` states. |
| `LocalRunner.RunLocalFixed` | local.js:81-109 | The same script with the corrected `.git` handling and back-off: the same error, ordering and rethrow promises, with the build receiving the corrected repository information and configuration. |

## Findings

| source | as written | input that shows it | evidently intended | confidence | as-written member | corrected member |
|---|---|---|---|---|---|---|
| local.js:95-98 | `updateBackOff * 1000` reads `updateBackOff` (local.js:21), but the option is declared as `update-backoff` (local.js:74), which the parser exposes as `updateBackoff`; `updateBackOff` is undefined | any command line, e.g. no options at all: the back-off is `undefined * 1000`, not a number | the `--update-backoff` value (15 s by default) times 1000, as the Action's own `update-back-off` input gives | medium, not executed | `LocalRunner.ConfigBackOffLost` | `LocalRunner.ConfigOfFixed` |
| local.js:141-144 | `url.slice(prefix.length, -4)` drops the last four characters of every GitHub URL, whatever they are | the remote URL `https://github.com/octo/hello`, without `.git` as git records it for such a clone, gives repository `h` | drop a trailing `.git` only when it is there, giving repository `hello` | medium, not executed | `LocalRunner.ParseUrlWithoutGitSuffix` | `LocalRunner.ParseUrlFixedRoundTrip` |

`LocalRunner.RunLocal` models the script as written, with `GithubInfo` and `ConfigOf`. `LocalRunner.RunLocalFixed` is the same script on the corrected `GithubInfoFixed` and `ConfigOfFixed`. Their error cases are the same, so only the owner/repository and the back-off handed to the build differ.

## Left out

- `code-build.js` is not part of this model. It holds the build-completion poller, log-name parsing, `inputs2Parameters`, `buildSdk` and `build`. In the trace, the build is one `StartBuild` effect with a given `Outcome`.
- `tokenize` (tasklists.js:4-6) calls the `marked` lexer; the lexer is a function parameter.
- Reading and parsing the event file is left out: the event is a value. So are `requireEnv` (util.js) and `getInput`; the `report_tasks` input is a string parameter.
- The octokit calls, `Promise.all` and `setFailed` are left out. Statuses are request records in the order they are issued. A failing API call and the `Run failed:` report are not modelled.
- A pull request with a null body, which makes the lexer throw, is not modelled: the body is a string.
- `yargs` parsing, `uuid` and `execSync` are left out. The options, the branch name, the `git remote -v` output and each command's outcome are parameters. `demandOption` for the project name and the `choices` check are not modelled.
- A remote name is matched literally. Regular-expression metacharacters in it are not modelled.
- Strings are sequences of Unicode characters, not UTF-16 code units.
- The poll intervals are `real` numbers: floating-point rounding is not modelled. A non-numeric option value is not modelled; the only non-number the model holds is the back-off the code as written loses, written `None`.
- The exit status of the unhandled rejection at the end of the script is not modelled. `MissingUrl.Message` uses the wording of recent Node.js versions for reading `startsWith` of `undefined`.
- RemoteUrl: its contract does not say which line the URL comes from. `RemoteUrlOfListing` states it for listings of `git remote -v` push lines.
- NextRunCandidates: assumes the next run sees every status this run created. The source reads only the single page that `listCommitStatusesForRef` returns (index.js:34-37, 30 statuses by default, newest first) and fetches no further pages. Once a commit has more statuses than that, an older task context can drop off the page and is then not a removal candidate on the next run.
