# fetch_agents: the search-and-download loop, modelled in Dafny

`fetch_agents.py` runs one code search on a hosted source-control platform.
It pulls results one at a time. It skips results it has already seen and
results whose local file already exists, unless overwriting is on. For the rest
it fetches the file's blob, retrying transient errors, and writes the contents to
a local file named after the repository and path. It returns two counters: items
processed and files downloaded. The process exits with status 0 when the search
surfaced anything and 1 otherwise.

The model:

- `env.dfy` (`Env`): the values exchanged with the outside.
  - bytes;
  - status codes, with 500-599 treated as transient;
  - the pauses made: fixed sleeps, and quota waits on the `search` or `core`
    resource class.
- `naming.dfy` (`Naming`): `sanitize_filename` and the string operations it uses.
  These are `split("/", 1)`, `strip("/")` and the two `replace` calls.
- `blob.dfy` (`Blob`): `decode_blob`.
  - The reply the platform gives to each of the three `get_git_blob` calls is an
    input.
  - The method `DecodeBlob` keeps the source's `for` loop.
  - It is proved equal to the recursive specification `DecodeSpec`, which the
    lemmas describe without recursion.
- `search.dfy` (`Search`): `search_and_download`.
  - The search result stream is a sequence of pull outcomes. Each item carries
    the replies its blob fetch would get, and pulling past the end is the end of
    the stream.
  - The local files are a map from paths to contents.
  - The pauses and blob fetches made are recorded in order.
  - The method `SearchAndDownload` keeps the source's `while` loop with its
    `break` and `continue` exits. It is proved equal to the recursive
    specification `Run`, one `Step` per pull.
  - The lemmas state what every run from the start achieves. They are proved
    through an invariant, `Consistent`, that `Run` preserves.
- `status.dfy` (`Exit`): the end of `main`, meaning its closing message and its
  exit status.

Decisions in modelling the code:

- A rate-limit signal inside `decode_blob` uses up one of the three attempts, as
  the code does.
  - The `for attempt` loop moves on after the `wait_for_rate_limit` call
    (fetch_agents.py:105-110).
  - One might expect quota waits not to count against the retry ceiling. The
    loop does count them: three rate-limit replies exhaust the fetch
    (`Blob.RateLimitsExhaust`).
- `decode_blob` catches the rate-limit exception from `get_git_blob` itself.
  With `wait_for_rate_limit` taken not to raise, the handler at
  fetch_agents.py:171-173 is therefore never reached, and the model has no path
  for it. What happens when `wait_for_rate_limit` does raise is listed under
  "Left out".
- A failed fetch is one of two errors:
  - `Raised(status)`, the non-5xx platform error re-raised as it came;
  - `Exhausted`, the `RuntimeError` of fetch_agents.py:123.
  The loop skips the item on either one (fetch_agents.py:174-183).
- `seen.add(key)` comes before the existence check and the fetch. So a later
  duplicate of an item whose fetch failed is still skipped
  (`Search.DuplicateAfterFailedFetch`).
- A repository's full name comes from the platform as `owner/name`, so the search
  items' `repository` field is a string that contains `/`.
  `Naming.SanitizeFilename` still models the `ValueError` raised for a name
  without `/`, as `None`.
- A file path is a `Path(dir, name)` value rather than a joined string.
- `processed_count` counts only successful pulls (fetch_agents.py:158). Rate-limit
  and 5xx pulls are not counted.
- The `--limit` help text (fetch_agents.py:34) speaks of a maximum number of
  files to download. The loop actually caps the processed items (fetch_agents.py:141
  and 158), and those include duplicates and files that already exist. So a run
  can download fewer than `limit` files even when the stream holds more new
  ones. The model follows the loop.

## Model

| member | source | states |
|---|---|---|
| Env.Is5xx | fetch_agents.py:112 | The transient-server-error test `500 <= exc.status < 600`, which is also used at line 151. It has no contract of its own; `Blob.DecodeSpecProperties` and `Search.StepRetries` state what follows from it. |
| Naming.SplitFirst | fetch_agents.py:98 | `split("/", 1)` unpacked into two parts fails exactly when there is no separator. Otherwise the input is the first part, the separator and the rest, and the first part holds no separator. |
| Naming.SplitFirstJoin | fetch_agents.py:98 | Splitting `front + "/" + back`, where `front` has no `/`, gives back exactly `front` and `back`. |
| Naming.StripLeft | fetch_agents.py:99 | `lstrip` for one character. It has no contract of its own and is characterised by `Naming.StripLeftSpec`. |
| Naming.StripRight | fetch_agents.py:99 | `rstrip` for one character. It has no contract of its own and is characterised by `Naming.StripRightSpec`. |
| Naming.Strip | fetch_agents.py:99 | `strip("/")`. It has no contract of its own and is characterised by `Naming.StripSpec`. |
| Naming.Replace | fetch_agents.py:99 | One-character `replace`. It has no contract of its own and is characterised by `Naming.ReplaceSpec`. |
| Naming.SanitizePath | fetch_agents.py:99 | The `sanitized` path. It has no contract of its own and is characterised by `Naming.SanitizePathSpec`. |
| Naming.StripLeftSpec | fetch_agents.py:99 | `lstrip`: the result is a suffix of the input, everything dropped is the stripped character, and the result does not start with it. |
| Naming.StripRightSpec | fetch_agents.py:99 | `rstrip`: the result is a prefix of the input, everything dropped is the stripped character, and the result does not end with it. |
| Naming.StripSpec | fetch_agents.py:99 | `strip("/")` neither starts nor ends with `/`, is no longer than its input, and leaves a string without `/` unchanged. |
| Naming.ReplaceSpec | fetch_agents.py:99 | A one-character `replace` keeps the length, turns each `from` into `to` and leaves every other character in place. |
| Naming.SanitizePathSpec | fetch_agents.py:99 | The sanitized path is the stripped path with every `/` and `\` turned into `_`, so it holds neither separator. |
| Naming.SanitizePathIdempotent | fetch_agents.py:99 | A side property of line 99's transformation: applying it to its own result changes nothing. The program never sanitizes a name twice. |
| Naming.SanitizeFilename | fetch_agents.py:97-100 | `sanitize_filename` raises exactly when the repository name holds no `/`. Otherwise the file is placed in the output directory. |
| Naming.SanitizeFilenameOf | fetch_agents.py:97-100 | For `owner/repo`, with no `/` in `owner`, the file is `outputDir / owner_repo_<sanitized path>`. |
| Naming.FileNamesCollide | fetch_agents.py:97-100 | Different repositories can be given the same file: `a_b/c` and `a/b_c` with path `x`. |
| Blob.Retryable | fetch_agents.py:109-121 | The `get_git_blob` replies after which the `for` loop goes on: a rate limit or a 5xx error. It has no contract of its own; `Blob.DecodeSpecProperties` states that the result is `Exhausted` exactly when all three replies are retryable. |
| Blob.PauseAfter | fetch_agents.py:110-120 | The pause after a retryable reply: a core quota wait (line 110) or a `2**attempt` sleep (line 120). It has no contract of its own; `Blob.DecodeSpecProperties` and `Blob.BackoffDurations` state the pauses. |
| Blob.Pow2 | fetch_agents.py:120 | The backoff `2**attempt` exceeds the attempt number. |
| Blob.AttemptsFrom | fetch_agents.py:105-123 | What the attempts from a given one on do. It has no contract of its own and is characterised by `Blob.AttemptsFromSpec`. |
| Blob.DecodeSpec | fetch_agents.py:103-123 | The specification of `decode_blob`. It has no contract of its own and is characterised by `Blob.DecodeSpecProperties`. |
| Blob.DecodeBlob | fetch_agents.py:103-123 | The retry loop computes exactly the specification `DecodeSpec`: the same result, number of `get_git_blob` calls and sequence of pauses. |
| Blob.AttemptRetried | fetch_agents.py:109-121 | A rate-limit or 5xx answer uses up the attempt: the loop invariant moves on by one call and one pause. |
| Blob.AttemptFinal | fetch_agents.py:107-122 | Content, or a non-5xx error, ends the run with that result after one more call. |
| Blob.AttemptsUsedUp | fetch_agents.py:123 | Once the three attempts are used up, the run ends with `Exhausted`. |
| Blob.AttemptsFromSpec | fetch_agents.py:105-123 | From any attempt on: every call but the last got a retryable reply and was followed by its pause. The run is exhausted exactly when all remaining replies are retryable. Otherwise the last reply decides the result: its content, or its non-5xx error. |
| Blob.DecodeSpecProperties | fetch_agents.py:105-123 | One to three calls. The result is `Exhausted` exactly when all three replies are retryable. It is content exactly when the last reply is content, with the same bytes. A raised error is the last reply's non-5xx status. The pause after attempt k is a core quota wait or a sleep of `2**k`. |
| Blob.BackoffDurations | fetch_agents.py:111-121 | Backoff sleeps last 2, 4 and 8 seconds, and each one follows a 5xx reply. |
| Blob.FirstSuccessReturnsAtOnce | fetch_agents.py:107-108 | A first reply with content is returned after one call, with no pause. |
| Blob.RateLimitsExhaust | fetch_agents.py:105-110 | Three rate-limit replies exhaust the three attempts. This is three calls with three core quota waits, then the `RuntimeError`. |
| Search.PullAt | fetch_agents.py:143-146 | `next(iterator)`: the outcome of pull `i`, with `StopIteration` past the end of the stream. It has no contract of its own; `Search.RunEnds` states which pulls are made. |
| Search.Continues | fetch_agents.py:143-156 | The pulls after which the loop pulls again: an item, a rate limit or a 5xx error. It has no contract of its own; `Search.RunEnds` states that every pull but the last is one of these. |
| Search.Start | fetch_agents.py:134-137 | The set-up before the loop: no pull, zero counters, no seen keys and the initial files. It has no contract of its own; `Search.RunConsistent` states that the invariant holds from it on. |
| Search.RetryPause | fetch_agents.py:147-154 | The search-side pause: a search quota wait (line 148) or a 5-second sleep (line 153). It has no contract of its own; `Search.StepRetries` states that a retried pull records it. |
| Search.Key | fetch_agents.py:159 | The key `full_name:path`. It has no contract of its own; `Search.OneFetchPerKey` states that no key is fetched twice. |
| Search.Target | fetch_agents.py:164 | The item's file, given by `Naming.SanitizeFilename`. It has no contract of its own; `Search.OneFetchPerKey` and `Search.FilesWritten` state that fetches and writes go to it. |
| Search.Run | fetch_agents.py:141-189 | The loop as a recursive specification from a state on. It has no contract of its own and is characterised by `Search.RunConsistent`, `Search.RunEnds` and the lemmas that build on them. |
| Search.Accept | fetch_agents.py:158-189 | Handling an item counts it exactly once and pulls nothing. |
| Search.Step | fetch_agents.py:142-189 | A pull after which the loop goes on makes one pull, and counts one item exactly when the pull gave an item. |
| Search.SearchAndDownload | fetch_agents.py:126-193 | The `while` loop returns the counters, and leaves the files, pauses and fetches, that the specification `Run` gives from the initial state. |
| Search.StepSkips | fetch_agents.py:158-167 | An item whose key was seen, or whose file exists while overwriting is off, is counted and its key marked seen. No fetch, pause, write or download is made. |
| Search.StepFetches | fetch_agents.py:158-189 | An item with a new key whose file may be written is counted and its key marked seen. Its blob fetch and the fetch's pauses are recorded. Its file is written and the download counted exactly when the fetch succeeded. |
| Search.StepRetries | fetch_agents.py:147-154 | A rate-limit pull records a search quota wait, and a 5xx pull a 5-second sleep. Nothing else changes. |
| Search.StepExtendsPauses | fetch_agents.py:141-189 | A step only ever appends pauses. |
| Search.RunConsistent | fetch_agents.py:141-189 | The loop preserves its invariant: counters bounded and counting only items; files and downloads exactly the successful fetches; distinct keys; target paths; no clobbering. |
| Search.CountsBounded | fetch_agents.py:141-189 | `downloaded <= processed`, and `processed <= limit` for a limit of zero or more. A limit of zero or less makes no pull at all. |
| Search.OneFetchPerKey | fetch_agents.py:158-162 | No key `full_name:path` is fetched twice in a run, so it is written at most once. Every fetch made one to three calls and was for its item's target file. |
| Search.FilesWritten | fetch_agents.py:164-189 | The final files are the initial ones with each successful fetch written in order, and `downloaded` is the number of successful fetches. No file is removed, and every successful fetch leaves its file. |
| Search.ExistingFilesKept | fetch_agents.py:164-167 | Without overwrite: nothing is fetched for a file that existed, existing files keep their contents, and no file is written twice. |
| Search.RunEndsFrom | fetch_agents.py:141-156 | From any state that agrees with the pulls made so far, the run ends as `RunEnds` describes. |
| Search.RunEnds | fetch_agents.py:141-156 | Only items are counted, and every pull but the last led to another pull. The run stops at the limit exactly when `limit` items were counted, right after the item that reached it. Otherwise it stops at the stream's end or a non-5xx error, returning the counts so far. |
| Search.ItemsAmongFrom | fetch_agents.py:158 | The items among the first `n` pulls and the items from pull `n` on add up to all the items of the stream. So the two counts agree on a whole stream. |
| Search.ItemsAmongNone | fetch_agents.py:158 | No item among the pulls means nothing counted. |
| Search.ItemsAmongSome | fetch_agents.py:158 | Something was counted exactly when some pull gave an item. |
| Search.NoItemsNoCounts | fetch_agents.py:141-193 | A stream without items leaves both counters at zero, makes no fetch and writes no file. |
| Search.OnlyItemsFetched | fetch_agents.py:142-156 | Pulls that give no item fetch and write nothing. |
| Search.FreshKept | fetch_agents.py:158-189 | Handling the next fresh item leaves the remaining items fresh. |
| Search.FreshItemsFrom | fetch_agents.py:141-189 | From any state, the fresh items among the remaining pulls, when they are within the limit and their blob fetches succeed (possibly after retries), are each counted and downloaded. Rate-limited and 5xx search pulls may come between them, and the end of the stream or a fatal error may follow them. |
| Search.FreshItemsAllDownloaded | fetch_agents.py:141-189 | A stream yielding at most `limit` items is fully counted and downloaded: `processed == downloaded ==` the number of items. The items must be new and go to distinct files (unless overwriting), and their blob fetches must succeed at once or after rate limits and 5xx errors. Retried search pulls may come between them, and a fatal error or the stream's end may follow them. |
| Search.DuplicateAfterFailedFetch | fetch_agents.py:158-183 | An item repeated after its fetch failed is counted twice and fetched once, and no file is written. |
| Search.RunTwoItems | fetch_agents.py:141-158 | With two items and a limit of two or more, the run consists of the two item steps. |
| Search.FailureIsolated | fetch_agents.py:169-189 | A fetch that fails with a platform error or by exhaustion skips only its own item. The next item, if its fetch succeeds (possibly after retries), is still counted, fetched and written with the fetched bytes. |
| Search.FailureIsolatedFirst | fetch_agents.py:169-183 | A failed first fetch records its key and its fetch, but writes and downloads nothing. |
| Search.FailureIsolatedSecond | fetch_agents.py:169-189 | A new item whose fetch succeeds, possibly after retries, is counted, recorded with its calls, written with the fetched bytes and downloaded. |
| Search.RetriedPullNotCounted | fetch_agents.py:147-154 | A rate-limit or 5xx pull is followed by its pause and the next pull, and is not counted. |
| Search.CountIgnoresFiles | fetch_agents.py:141-165 | Neither the existing files nor `overwrite` change the number of pulls, the number of items processed or why the loop ended. |
| Exit.Summarize | fetch_agents.py:214-220 | The choice of closing message. It has no contract of its own and is characterised by `Exit.StatusMatchesSummary` and `Exit.NoItemsFails`. |
| Exit.ExitStatus | fetch_agents.py:223 | The exit status. It has no contract of its own and is characterised by `Exit.StatusIffItemPulled`, `Exit.StatusMatchesSummary` and `Exit.StatusIgnoresFiles`. |
| Exit.MainStatus | fetch_agents.py:223 | `main`'s return value for a whole run. It has no contract of its own and is characterised by `Exit.StatusIffItemPulled`, `Exit.ItemReachedSucceeds`, `Exit.NoItemsFails` and `Exit.StatusIgnoresFiles`. |
| Exit.RunMain | fetch_agents.py:206-223 | `main` after set-up returns the status of the run's processed count and logs the summary of its two counters. |
| Exit.StatusMatchesSummary | fetch_agents.py:214-223 | The run exits with 1 exactly when the "no results" summary is logged, and with 0 otherwise. |
| Exit.StatusIffItemPulled | fetch_agents.py:223 | The status is 0 exactly when one of the pulls made gave an item. |
| Exit.ItemReachedSucceeds | fetch_agents.py:141-158 | With a positive limit, an item reached through rate limits and 5xx errors only makes the run succeed. |
| Exit.NoItemsFails | fetch_agents.py:214-223 | A search that yields no item exits with 1 and logs "no results", whatever the limit. |
| Exit.StatusIgnoresFiles | fetch_agents.py:223 | The status does not depend on the existing files or on `overwrite`. A run that downloads nothing new succeeds just as one that downloads everything. |

## Left out

- `parse_args`, `configure_logging`, `load_token` with its `.env` loading, and
  `sys.exit`: command-line, configuration and environment handling
  (fetch_agents.py:25-72). So are the creation of the output directory and of the
  client in `main` (fetch_agents.py:199-203).
- The platform client library: `search_code` and its pagination, `get_git_blob`
  and `get_rate_limit`. Their observable answers are the model's inputs: pull
  outcomes, and three replies per item. A stream that never ends is not modelled:
  the stream is a finite sequence. Any sequence of outcomes is allowed, including
  an item after a rate-limit or 5xx pull. The library's iterator may not be able
  to produce such a sequence, so the stream model over-approximates it. Every
  property holds for all sequences.
- `wait_for_rate_limit`'s duration: the 60-second fallback and
  `max(reset - now + 5, 5)` are computed from the wall clock and the platform's
  reply. A quota wait is recorded as an event on its resource class
  (fetch_agents.py:75-94).
- `base64.b64decode`: blob contents are opaque bytes (fetch_agents.py:108).
- Exceptions outside the platform's `GithubException` family and `StopIteration`.
  The model assumes every failed pull or fetch is one of these. Any other
  exception escapes every handler, and `search_and_download` and `main` crash
  instead of skipping the item or returning the counts. Examples:
  `binascii.Error` from `base64.b64decode` (fetch_agents.py:108) is a
  `ValueError`, which `except RuntimeError` (fetch_agents.py:181) does not catch.
  Another example is a transport-layer error from the HTTP library, raised in
  `next(iterator)` (fetch_agents.py:143) or in `get_git_blob`
  (fetch_agents.py:107).
- The file system and the clock.
  - `exists`, `mkdir`, `open` and `write` become a map from paths to contents.
    Writing is assumed not to fail.
  - `time.sleep` becomes a recorded pause.
- All logging calls. The closing summary of `main` is modelled as a value, not as
  a log line.
- The item's `sha` is carried but only selects the blob, and the blob's replies
  are given with the item.
- Naming.SanitizeFilename: the path `output_dir / name` is a pair, not a joined
  path string. A repository name with a second `/` gives a name containing `/`,
  which the model does not turn into a subdirectory.
- Search.Accept: its own contract states only that an item is counted once.
  Its full effect on the state is stated by `Search.StepSkips` and
  `Search.StepFetches`.
- Search.Step: its own contract states only how the pull and item counters
  move. The rest is stated by `Search.StepRetries`, `Search.StepSkips` and
  `Search.StepFetches`.
- Blob.Pow2: its own contract is only a bound. The sleep lengths 2, 4 and 8
  are stated by `Blob.BackoffDurations`.
- `wait_for_rate_limit` is taken never to raise. Its call to
  `client.get_rate_limit()` (fetch_agents.py:78) is guarded only against
  `AttributeError`, so a platform error there is not modelled. That leaves out
  two paths. From the search loop (fetch_agents.py:148) the error escapes
  `search_and_download`, and the run crashes instead of returning its counts.
  From `decode_blob` (fetch_agents.py:110) it escapes `decode_blob` and reaches
  the handlers at fetch_agents.py:171 or 174.
