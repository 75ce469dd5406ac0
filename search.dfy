/** The search-and-download loop: `search_and_download` in
    fetch_agents.py:126-193.

    The search result stream is a sequence of pull outcomes, one per call of
    `next(iterator)`; pulling past its end is the end of the stream. Each
    item arrives with the answers the platform would give to its blob
    fetches. The local files are a map from paths to contents; the sleeps,
    quota waits and blob fetches made are recorded in order. */
module Search {
  import opened Env
  import opened Naming
  import opened Blob

  /** A repository's full name as the platform reports it, `owner/name`. */
  type RepoName = s: string | '/' in s witness "o/r"

  /** One search result: its repository, the file's path in it and the
      hash of the blob. */
  datatype Item = Item(repository: RepoName, path: string, sha: string)

  /** What one call of `next(iterator)` gives: an item (with the answers its
      blob fetch would get), the end of the stream, a rate-limit signal or a
      platform error with its status code. */
  datatype PullOutcome =
    | Pulled(item: Item, replies: Replies)
    | StreamEnd
    | PullRateLimited
    | PullFailure(status: int)

  /** One call of `decode_blob`: for which item and file, how often
      `get_git_blob` was called and what came of it. */
  datatype Fetch = Fetch(item: Item, path: Path, calls: nat, result: BlobResult)

  /** The loop's variables and its effects so far: the number of pulls made,
      the two counters, the `seen` set, the local files, the pauses and the
      blob fetches made. */
  datatype State = State(
    pulls: nat,
    processed: nat,
    downloaded: nat,
    seen: set<string>,
    disk: map<Path, Bytes>,
    pauses: seq<Pause>,
    fetches: seq<Fetch>)

  /** Why the loop ended. */
  datatype StopReason = LimitReached | StreamExhausted | FatalError(status: int)

  /** The pause after a 5xx error from the search stream (fetch_agents.py:153). */
  const SearchRetrySeconds: nat := 5

  /** The deduplication key `full_name:path` (fetch_agents.py:159). */
  function Key(item: Item): string
  {
    item.repository + ":" + item.path
  }

  /** The local file an item is written to (fetch_agents.py:164). */
  function Target(outputDir: string, item: Item): Path
  {
    SanitizeFilename(item.repository, item.path, outputDir).value
  }

  /** The outcome of pull number `i` (from 0). */
  function PullAt(stream: seq<PullOutcome>, i: nat): PullOutcome
  {
    if i < |stream| then stream[i] else StreamEnd
  }

  /** A pull outcome after which the loop pulls again. */
  predicate Continues(o: PullOutcome)
  {
    o.Pulled? || o.PullRateLimited? || (o.PullFailure? && Is5xx(o.status))
  }

  function Start(disk: map<Path, Bytes>): State
  {
    State(0, 0, 0, {}, disk, [], [])
  }

  /** The handling of an item just pulled (fetch_agents.py:158-189): count
      it, skip it when its key was seen, mark the key seen, skip it when its
      file exists and overwriting is off, fetch its blob, and write the file
      when the fetch succeeded. A failed fetch skips this item only. */
  function Accept(outputDir: string, overwrite: bool, s: State, item: Item, replies: Replies): (r: State)
    ensures r.pulls == s.pulls && r.processed == s.processed + 1
  {
    var key := Key(item);
    if key in s.seen then s.(processed := s.processed + 1)
    else
      var path := Target(outputDir, item);
      var seen := s.seen + {key};
      if path in s.disk && !overwrite then s.(processed := s.processed + 1, seen := seen)
      else
        var t := DecodeSpec(replies);
        var fetched := s.(processed := s.processed + 1, seen := seen,
                          pauses := s.pauses + t.pauses,
                          fetches := s.fetches + [Fetch(item, path, t.calls, t.result)]);
        if t.result.Decoded? then
          fetched.(disk := s.disk[path := t.result.bytes], downloaded := s.downloaded + 1)
        else fetched
  }

  /** The pause recorded for a retried pull: a quota wait on the search
      resource class after a rate limit, a short sleep after a 5xx error. */
  function RetryPause(o: PullOutcome): Pause
  {
    if o.PullRateLimited? then QuotaWait(Search) else Sleep(SearchRetrySeconds)
  }

  /** One pull after which the loop goes on (fetch_agents.py:142-189): an
      item is handled, a rate limit is waited out on the search resource
      class, a 5xx error is followed by a short sleep. */
  function Step(stream: seq<PullOutcome>, outputDir: string, overwrite: bool, s: State): (r: State)
    requires Continues(PullAt(stream, s.pulls))
    ensures r.pulls == s.pulls + 1
    ensures r.processed == s.processed + (if PullAt(stream, s.pulls).Pulled? then 1 else 0)
  {
    var next := s.(pulls := s.pulls + 1);
    match PullAt(stream, s.pulls)
    case PullRateLimited => next.(pauses := s.pauses + [RetryPause(PullRateLimited)])
    case PullFailure(status) => next.(pauses := s.pauses + [RetryPause(PullFailure(status))])
    case Pulled(item, replies) => Accept(outputDir, overwrite, next, item, replies)
  }

  /** The loop from state `s` on (fetch_agents.py:141-189): the final state
      and the reason the loop ended. It ends once `limit` items were
      counted, at the end of the stream, and at a platform error that is not
      a 5xx one; the last two still count as a pull. */
  function Run(stream: seq<PullOutcome>, limit: int, outputDir: string, overwrite: bool, s: State): (State, StopReason)
    decreases |stream| - s.pulls
  {
    if s.processed >= limit then (s, LimitReached)
    else
      var o := PullAt(stream, s.pulls);
      if Continues(o) then Run(stream, limit, outputDir, overwrite, Step(stream, outputDir, overwrite, s))
      else (s.(pulls := s.pulls + 1), if o.StreamEnd? then StreamExhausted else FatalError(o.status))
  }

  /** `search_and_download`: the counters it returns, and the local files,
      pauses and blob fetches it leaves behind. */
  method SearchAndDownload(stream: seq<PullOutcome>, limit: int, outputDir: string, overwrite: bool,
                           disk0: map<Path, Bytes>)
    returns (downloaded: nat, processed: nat, disk: map<Path, Bytes>, pauses: seq<Pause>, fetches: seq<Fetch>)
    ensures var r := Run(stream, limit, outputDir, overwrite, Start(disk0)).0;
      downloaded == r.downloaded && processed == r.processed
      && disk == r.disk && pauses == r.pauses && fetches == r.fetches
  {
    var seen: set<string> := {};
    var next: nat := 0;
    downloaded, processed, disk, pauses, fetches := 0, 0, disk0, [], [];
    ghost var run := Run(stream, limit, outputDir, overwrite, Start(disk0));
    while processed < limit
      invariant next <= |stream|
      invariant run == Run(stream, limit, outputDir, overwrite,
                           State(next, processed, downloaded, seen, disk, pauses, fetches))
      decreases |stream| - next
    {
      var outcome := PullAt(stream, next);
      next := next + 1;
      if outcome.StreamEnd? {
        break;
      }
      if outcome.PullRateLimited? {
        pauses := pauses + [QuotaWait(Search)];
        continue;
      }
      if outcome.PullFailure? {
        if Is5xx(outcome.status) {
          pauses := pauses + [Sleep(SearchRetrySeconds)];
          continue;
        }
        break;
      }
      var item, replies := outcome.item, outcome.replies;
      processed := processed + 1;
      var key := Key(item);
      if key in seen {
        continue;
      }
      seen := seen + {key};
      var outputPath := Target(outputDir, item);
      if outputPath in disk && !overwrite {
        continue;
      }
      var result, calls, blobPauses := DecodeBlob(replies);
      pauses := pauses + blobPauses;
      fetches := fetches + [Fetch(item, outputPath, calls, result)];
      if result.Failed? {
        continue;
      }
      disk := disk[outputPath := result.bytes];
      downloaded := downloaded + 1;
    }
  }

  // ---------------------------------------------------------------------
  // What the loop leaves behind, stated without reference to its steps.

  /** The number of items among the first `n` pulls. */
  function ItemsAmong(stream: seq<PullOutcome>, n: nat): nat
  {
    if n == 0 then 0 else ItemsAmong(stream, n - 1) + (if PullAt(stream, n - 1).Pulled? then 1 else 0)
  }

  /** The number of successful fetches. */
  function Downloads(fetches: seq<Fetch>): nat
  {
    if fetches == [] then 0
    else Downloads(fetches[..|fetches| - 1]) + (if fetches[|fetches| - 1].result.Decoded? then 1 else 0)
  }

  /** The local files after writing each successful fetch, in order. */
  function Apply(disk0: map<Path, Bytes>, fetches: seq<Fetch>): map<Path, Bytes>
  {
    if fetches == [] then disk0
    else
      var disk := Apply(disk0, fetches[..|fetches| - 1]);
      var f := fetches[|fetches| - 1];
      if f.result.Decoded? then disk[f.path := f.result.bytes] else disk
  }

  /** The counters agree with the pulls made: only items are counted, and
      never more than `limit` of them. */
  ghost predicate CountersOk(stream: seq<PullOutcome>, limit: int, pulls: nat, processed: nat, downloaded: nat)
  {
    && downloaded <= processed
    && (processed <= limit || processed == 0)
    && processed == ItemsAmong(stream, pulls)
  }

  /** The files are the initial ones with each successful fetch written in
      order, and the download counter counts the successful fetches. */
  ghost predicate WritesOk(disk0: map<Path, Bytes>, downloaded: nat, disk: map<Path, Bytes>, fetches: seq<Fetch>)
  {
    downloaded == Downloads(fetches) && disk == Apply(disk0, fetches)
  }

  /** Every fetched key is in `seen`, no key is fetched twice and no fetch
      calls `get_git_blob` more than three times. */
  ghost predicate KeysOk(seen: set<string>, fetches: seq<Fetch>)
  {
    && (forall i | 0 <= i < |fetches| :: Key(fetches[i].item) in seen)
    && (forall i | 0 <= i < |fetches| :: 1 <= fetches[i].calls <= MaxRetries)
    && (forall i, j | 0 <= i < j < |fetches| :: Key(fetches[i].item) != Key(fetches[j].item))
  }

  /** Each fetch is for its item's target file. */
  ghost predicate PathsOk(outputDir: string, fetches: seq<Fetch>)
  {
    forall i | 0 <= i < |fetches| :: fetches[i].path == Target(outputDir, fetches[i].item)
  }

  /** Without `overwrite`, nothing is fetched for a file that existed at the
      start and no file is written twice. */
  ghost predicate NoClobber(overwrite: bool, disk0: map<Path, Bytes>, fetches: seq<Fetch>)
  {
    !overwrite ==>
      && (forall i | 0 <= i < |fetches| :: fetches[i].path !in disk0)
      && (forall i, j | 0 <= i < j < |fetches| && fetches[i].result.Decoded? && fetches[j].result.Decoded? ::
            fetches[i].path != fetches[j].path)
  }

  /** What holds of the seen set, the files and the fetches made. */
  ghost predicate FetchesOk(outputDir: string, overwrite: bool, disk0: map<Path, Bytes>,
                            downloaded: nat, seen: set<string>, disk: map<Path, Bytes>, fetches: seq<Fetch>)
  {
    && WritesOk(disk0, downloaded, disk, fetches)
    && KeysOk(seen, fetches)
    && PathsOk(outputDir, fetches)
    && NoClobber(overwrite, disk0, fetches)
  }

  /** What holds of every state the loop passes through. */
  ghost predicate Consistent(stream: seq<PullOutcome>, limit: int, outputDir: string, overwrite: bool,
                             disk0: map<Path, Bytes>, s: State)
  {
    CountersOk(stream, limit, s.pulls, s.processed, s.downloaded)
    && FetchesOk(outputDir, overwrite, disk0, s.downloaded, s.seen, s.disk, s.fetches)
  }

  /** Writing never removes a file. */
  lemma {:induction false} ApplyKeepsFiles(disk0: map<Path, Bytes>, fetches: seq<Fetch>)
    ensures disk0.Keys <= Apply(disk0, fetches).Keys
  {
    if fetches != [] {
      ApplyKeepsFiles(disk0, fetches[..|fetches| - 1]);
    }
  }

  /** Every successful fetch leaves its file behind. */
  lemma {:induction false} ApplyWritesTargets(disk0: map<Path, Bytes>, fetches: seq<Fetch>)
    ensures forall i | 0 <= i < |fetches| && fetches[i].result.Decoded? :: fetches[i].path in Apply(disk0, fetches)
  {
    if fetches != [] {
      var front := fetches[..|fetches| - 1];
      ApplyWritesTargets(disk0, front);
      assert forall i | 0 <= i < |front| :: front[i] == fetches[i];
    }
  }

  /** Files no fetch is for keep their contents. */
  lemma {:induction false} ApplyKeepsUntargeted(disk0: map<Path, Bytes>, fetches: seq<Fetch>)
    requires forall i | 0 <= i < |fetches| :: fetches[i].path !in disk0
    ensures forall p | p in disk0 :: p in Apply(disk0, fetches) && Apply(disk0, fetches)[p] == disk0[p]
  {
    if fetches != [] {
      var front := fetches[..|fetches| - 1];
      assert forall i | 0 <= i < |front| :: front[i] == fetches[i];
      ApplyKeepsUntargeted(disk0, front);
    }
  }

  /** One more fetch: counted and written when it succeeded. */
  lemma AppendFetch(disk0: map<Path, Bytes>, fetches: seq<Fetch>, f: Fetch)
    ensures var all := fetches + [f];
      && (forall i | 0 <= i < |fetches| :: all[i] == fetches[i])
      && all[|fetches|] == f
      && Downloads(all) == Downloads(fetches) + (if f.result.Decoded? then 1 else 0)
      && Apply(disk0, all)
         == (var disk := Apply(disk0, fetches); if f.result.Decoded? then disk[f.path := f.result.bytes] else disk)
  {
    var all := fetches + [f];
    assert all[..|fetches|] == fetches;
  }

  /** Marking one more key seen keeps the fetches consistent. */
  lemma FetchesOkSeen(outputDir: string, overwrite: bool, disk0: map<Path, Bytes>,
                      downloaded: nat, seen: set<string>, disk: map<Path, Bytes>, fetches: seq<Fetch>, key: string)
    requires FetchesOk(outputDir, overwrite, disk0, downloaded, seen, disk, fetches)
    ensures FetchesOk(outputDir, overwrite, disk0, downloaded, seen + {key}, disk, fetches)
  {
  }

  lemma KeysOkAppend(seen: set<string>, fetches: seq<Fetch>, f: Fetch)
    requires KeysOk(seen, fetches)
    requires Key(f.item) !in seen && 1 <= f.calls <= MaxRetries
    ensures KeysOk(seen + {Key(f.item)}, fetches + [f])
  {
    var all := fetches + [f];
    assert forall i | 0 <= i < |fetches| :: all[i] == fetches[i];
    assert forall i | 0 <= i < |fetches| :: Key(all[i].item) != Key(f.item);
  }

  lemma PathsOkAppend(outputDir: string, fetches: seq<Fetch>, f: Fetch)
    requires PathsOk(outputDir, fetches) && f.path == Target(outputDir, f.item)
    ensures PathsOk(outputDir, fetches + [f])
  {
    var all := fetches + [f];
    forall i | 0 <= i < |all|
      ensures all[i].path == Target(outputDir, all[i].item)
    {
      if i < |fetches| {
        assert all[i] == fetches[i];
      }
    }
  }

  lemma NoClobberAppend(disk0: map<Path, Bytes>, fetches: seq<Fetch>, f: Fetch)
    requires NoClobber(false, disk0, fetches)
    requires f.path !in disk0
    requires f.result.Decoded? ==>
      forall i | 0 <= i < |fetches| && fetches[i].result.Decoded? :: fetches[i].path != f.path
    ensures NoClobber(false, disk0, fetches + [f])
  {
    var all := fetches + [f];
    assert forall i | 0 <= i < |fetches| :: all[i] == fetches[i];
  }

  /** A fetch for a new key whose file may be written keeps the fetches
      consistent. */
  lemma FetchesOkAppend(outputDir: string, overwrite: bool, disk0: map<Path, Bytes>,
                        downloaded: nat, seen: set<string>, disk: map<Path, Bytes>, fetches: seq<Fetch>, f: Fetch)
    requires FetchesOk(outputDir, overwrite, disk0, downloaded, seen, disk, fetches)
    requires Key(f.item) !in seen && 1 <= f.calls <= MaxRetries && f.path == Target(outputDir, f.item)
    requires overwrite || f.path !in disk
    ensures FetchesOk(outputDir, overwrite, disk0,
                      if f.result.Decoded? then downloaded + 1 else downloaded,
                      seen + {Key(f.item)},
                      if f.result.Decoded? then disk[f.path := f.result.bytes] else disk,
                      fetches + [f])
  {
    AppendFetch(disk0, fetches, f);
    KeysOkAppend(seen, fetches, f);
    PathsOkAppend(outputDir, fetches, f);
    if !overwrite {
      ApplyKeepsFiles(disk0, fetches);
      ApplyWritesTargets(disk0, fetches);
      NoClobberAppend(disk0, fetches, f);
    }
  }

  /** A pulled item whose key was seen, or whose file exists while
      overwriting is off, is only counted, and its key is marked seen. */
  lemma StepSkips(stream: seq<PullOutcome>, outputDir: string, overwrite: bool, s: State)
    requires PullAt(stream, s.pulls).Pulled?
    requires var item := PullAt(stream, s.pulls).item;
      Key(item) in s.seen || (Target(outputDir, item) in s.disk && !overwrite)
    ensures Step(stream, outputDir, overwrite, s)
         == s.(pulls := s.pulls + 1, processed := s.processed + 1,
               seen := s.seen + {Key(PullAt(stream, s.pulls).item)})
  {
    var key := Key(PullAt(stream, s.pulls).item);
    assert key in s.seen ==> s.seen + {key} == s.seen;
  }

  /** A pulled item with a new key whose file may be written is fetched: its
      pauses and its fetch are recorded, and on success its file is written
      and counted. */
  lemma StepFetches(stream: seq<PullOutcome>, outputDir: string, overwrite: bool, s: State)
    requires PullAt(stream, s.pulls).Pulled?
    requires var item := PullAt(stream, s.pulls).item;
      Key(item) !in s.seen && (Target(outputDir, item) !in s.disk || overwrite)
    ensures var o := PullAt(stream, s.pulls);
      var t := DecodeSpec(o.replies);
      var f := Fetch(o.item, Target(outputDir, o.item), t.calls, t.result);
      Step(stream, outputDir, overwrite, s)
      == s.(pulls := s.pulls + 1, processed := s.processed + 1,
            seen := s.seen + {Key(o.item)},
            pauses := s.pauses + t.pauses,
            fetches := s.fetches + [f],
            disk := if t.result.Decoded? then s.disk[f.path := t.result.bytes] else s.disk,
            downloaded := if t.result.Decoded? then s.downloaded + 1 else s.downloaded)
  {
  }

  /** A retried pull records its pause and nothing else. */
  lemma StepRetries(stream: seq<PullOutcome>, outputDir: string, overwrite: bool, s: State)
    requires Continues(PullAt(stream, s.pulls)) && !PullAt(stream, s.pulls).Pulled?
    ensures Step(stream, outputDir, overwrite, s)
         == s.(pulls := s.pulls + 1, pauses := s.pauses + [RetryPause(PullAt(stream, s.pulls))])
  {
  }

  /** Counting a pulled item keeps the counters consistent. */
  lemma CountItem(stream: seq<PullOutcome>, limit: int, s: State)
    requires CountersOk(stream, limit, s.pulls, s.processed, s.downloaded)
    requires s.processed < limit && PullAt(stream, s.pulls).Pulled?
    ensures CountersOk(stream, limit, s.pulls + 1, s.processed + 1, s.downloaded)
  {
  }

  /** A pull that gives no item leaves the counters where they were. */
  lemma ItemsAmongNoItem(stream: seq<PullOutcome>, n: nat)
    requires !PullAt(stream, n).Pulled?
    ensures ItemsAmong(stream, n + 1) == ItemsAmong(stream, n)
  {
  }

  /** A retried pull keeps the state consistent. */
  lemma RetryKeeps(stream: seq<PullOutcome>, limit: int, outputDir: string, overwrite: bool,
                   disk0: map<Path, Bytes>, s: State, pause: Pause)
    requires Consistent(stream, limit, outputDir, overwrite, disk0, s)
    requires !PullAt(stream, s.pulls).Pulled?
    ensures Consistent(stream, limit, outputDir, overwrite, disk0,
                       s.(pulls := s.pulls + 1, pauses := s.pauses + [pause]))
  {
    ItemsAmongNoItem(stream, s.pulls);
  }

  /** A skipped item keeps the state consistent. */
  lemma SkipKeeps(stream: seq<PullOutcome>, limit: int, outputDir: string, overwrite: bool,
                  disk0: map<Path, Bytes>, s: State, key: string)
    requires Consistent(stream, limit, outputDir, overwrite, disk0, s)
    requires s.processed < limit && PullAt(stream, s.pulls).Pulled?
    ensures Consistent(stream, limit, outputDir, overwrite, disk0,
                       s.(pulls := s.pulls + 1, processed := s.processed + 1, seen := s.seen + {key}))
  {
    CountItem(stream, limit, s);
    FetchesOkSeen(outputDir, overwrite, disk0, s.downloaded, s.seen, s.disk, s.fetches, key);
  }

  /** A fetched item keeps the state consistent. */
  lemma FetchKeeps(stream: seq<PullOutcome>, limit: int, outputDir: string, overwrite: bool,
                   disk0: map<Path, Bytes>, s: State, f: Fetch, pauses: seq<Pause>)
    requires Consistent(stream, limit, outputDir, overwrite, disk0, s)
    requires s.processed < limit && PullAt(stream, s.pulls).Pulled?
    requires Key(f.item) !in s.seen && 1 <= f.calls <= MaxRetries && f.path == Target(outputDir, f.item)
    requires overwrite || f.path !in s.disk
    ensures Consistent(stream, limit, outputDir, overwrite, disk0,
                       s.(pulls := s.pulls + 1, processed := s.processed + 1,
                          seen := s.seen + {Key(f.item)},
                          pauses := pauses,
                          fetches := s.fetches + [f],
                          disk := if f.result.Decoded? then s.disk[f.path := f.result.bytes] else s.disk,
                          downloaded := if f.result.Decoded? then s.downloaded + 1 else s.downloaded))
  {
    CountItem(stream, limit, s);
    FetchesOkAppend(outputDir, overwrite, disk0, s.downloaded, s.seen, s.disk, s.fetches, f);
  }

  /** One step of the loop keeps the state consistent. */
  lemma StepConsistent(stream: seq<PullOutcome>, limit: int, outputDir: string, overwrite: bool,
                       disk0: map<Path, Bytes>, s: State)
    requires Consistent(stream, limit, outputDir, overwrite, disk0, s)
    requires s.processed < limit && Continues(PullAt(stream, s.pulls))
    ensures Consistent(stream, limit, outputDir, overwrite, disk0, Step(stream, outputDir, overwrite, s))
  {
    var o := PullAt(stream, s.pulls);
    if !o.Pulled? {
      StepRetries(stream, outputDir, overwrite, s);
      RetryKeeps(stream, limit, outputDir, overwrite, disk0, s, RetryPause(o));
    } else if Key(o.item) in s.seen || (Target(outputDir, o.item) in s.disk && !overwrite) {
      StepSkips(stream, outputDir, overwrite, s);
      SkipKeeps(stream, limit, outputDir, overwrite, disk0, s, Key(o.item));
    } else {
      StepFetches(stream, outputDir, overwrite, s);
      var t := DecodeSpec(o.replies);
      DecodeSpecProperties(o.replies);
      FetchKeeps(stream, limit, outputDir, overwrite, disk0, s,
                 Fetch(o.item, Target(outputDir, o.item), t.calls, t.result), s.pauses + t.pauses);
    }
  }

  /** The last pull of a run that ends at the stream's end or at an error
      keeps the state consistent. */
  lemma StopConsistent(stream: seq<PullOutcome>, limit: int, outputDir: string, overwrite: bool,
                       disk0: map<Path, Bytes>, s: State)
    requires Consistent(stream, limit, outputDir, overwrite, disk0, s)
    requires !PullAt(stream, s.pulls).Pulled?
    ensures Consistent(stream, limit, outputDir, overwrite, disk0, s.(pulls := s.pulls + 1))
  {
    ItemsAmongNoItem(stream, s.pulls);
  }

  /** Every state the loop passes through is consistent. */
  lemma {:induction false} RunConsistent(stream: seq<PullOutcome>, limit: int, outputDir: string, overwrite: bool,
                                         disk0: map<Path, Bytes>, s: State)
    requires Consistent(stream, limit, outputDir, overwrite, disk0, s)
    decreases |stream| - s.pulls
    ensures Consistent(stream, limit, outputDir, overwrite, disk0, Run(stream, limit, outputDir, overwrite, s).0)
  {
    if s.processed < limit {
      if Continues(PullAt(stream, s.pulls)) {
        var s' := Step(stream, outputDir, overwrite, s);
        assert Run(stream, limit, outputDir, overwrite, s) == Run(stream, limit, outputDir, overwrite, s');
        StepConsistent(stream, limit, outputDir, overwrite, disk0, s);
        RunConsistent(stream, limit, outputDir, overwrite, disk0, s');
      } else {
        assert Run(stream, limit, outputDir, overwrite, s).0 == s.(pulls := s.pulls + 1);
        StopConsistent(stream, limit, outputDir, overwrite, disk0, s);
      }
    }
  }

  // ---------------------------------------------------------------------
  // Properties of a whole run of `search_and_download`.

  function RunOf(stream: seq<PullOutcome>, limit: int, outputDir: string, overwrite: bool,
                 disk0: map<Path, Bytes>): State
  {
    Run(stream, limit, outputDir, overwrite, Start(disk0)).0
  }

  /** `downloaded <= processed <= limit`; with a limit of zero or less
      nothing is pulled at all. */
  lemma CountsBounded(stream: seq<PullOutcome>, limit: int, outputDir: string, overwrite: bool,
                      disk0: map<Path, Bytes>)
    ensures var r := RunOf(stream, limit, outputDir, overwrite, disk0);
      r.downloaded <= r.processed
      && (limit >= 0 ==> r.processed <= limit)
      && (limit <= 0 ==> r.processed == 0 && r.pulls == 0)
  {
    RunConsistent(stream, limit, outputDir, overwrite, disk0, Start(disk0));
  }

  /** Within one run no key is fetched twice, so no key is written twice:
      a repeated key is skipped even when its first fetch failed. Each
      fetch called `get_git_blob` one to three times and was for its item's
      target file. */
  lemma OneFetchPerKey(stream: seq<PullOutcome>, limit: int, outputDir: string, overwrite: bool,
                       disk0: map<Path, Bytes>)
    ensures var r := RunOf(stream, limit, outputDir, overwrite, disk0);
      && (forall i, j | 0 <= i < j < |r.fetches| :: Key(r.fetches[i].item) != Key(r.fetches[j].item))
      && (forall i | 0 <= i < |r.fetches| ::
            1 <= r.fetches[i].calls <= MaxRetries && r.fetches[i].path == Target(outputDir, r.fetches[i].item))
  {
    RunConsistent(stream, limit, outputDir, overwrite, disk0, Start(disk0));
  }

  /** The files after a run are the initial ones with every successful
      fetch written, in order, to its target; `downloaded` is the number of
      successful fetches. No file is ever removed. */
  lemma FilesWritten(stream: seq<PullOutcome>, limit: int, outputDir: string, overwrite: bool,
                     disk0: map<Path, Bytes>)
    ensures var r := RunOf(stream, limit, outputDir, overwrite, disk0);
      && r.disk == Apply(disk0, r.fetches)
      && r.downloaded == Downloads(r.fetches)
      && disk0.Keys <= r.disk.Keys
      && (forall i | 0 <= i < |r.fetches| && r.fetches[i].result.Decoded? :: r.fetches[i].path in r.disk)
  {
    var r := RunOf(stream, limit, outputDir, overwrite, disk0);
    RunConsistent(stream, limit, outputDir, overwrite, disk0, Start(disk0));
    ApplyKeepsFiles(disk0, r.fetches);
    ApplyWritesTargets(disk0, r.fetches);
  }

  /** Without `overwrite`, nothing is fetched for a file that already
      existed, existing files keep their contents, and no file is written
      twice. */
  lemma ExistingFilesKept(stream: seq<PullOutcome>, limit: int, outputDir: string, disk0: map<Path, Bytes>)
    ensures var r := RunOf(stream, limit, outputDir, false, disk0);
      && (forall i | 0 <= i < |r.fetches| :: r.fetches[i].path !in disk0)
      && (forall p | p in disk0 :: p in r.disk && r.disk[p] == disk0[p])
      && (forall i, j | 0 <= i < j < |r.fetches| && r.fetches[i].result.Decoded? && r.fetches[j].result.Decoded? ::
            r.fetches[i].path != r.fetches[j].path)
  {
    var r := RunOf(stream, limit, outputDir, false, disk0);
    RunConsistent(stream, limit, outputDir, false, disk0, Start(disk0));
    ApplyKeepsUntargeted(disk0, r.fetches);
  }

  /** What holds of the pulls before the current one. */
  ghost predicate PullsSoFar(stream: seq<PullOutcome>, limit: int, s: State)
  {
    && s.processed == ItemsAmong(stream, s.pulls)
    && (forall j | 0 <= j < s.pulls - 1 :: Continues(PullAt(stream, j)))
    && (s.pulls >= 1 ==> Continues(PullAt(stream, s.pulls - 1)) && ItemsAmong(stream, s.pulls - 1) < limit)
    && (s.processed >= limit && s.pulls >= 1 ==> PullAt(stream, s.pulls - 1).Pulled?)
  }

  /** How a run ends: only items were counted; every pull but the last led
      to another pull, and the limit had not been reached before the last
      one; the run ended at the limit exactly when `limit` items were
      counted, and then right after the item that reached it; otherwise the
      last pull was the end of the stream or a non-5xx error. */
  ghost predicate EndsProperly(stream: seq<PullOutcome>, limit: int, r: State, stop: StopReason)
  {
    && r.processed == ItemsAmong(stream, r.pulls)
    && (forall j | 0 <= j < r.pulls - 1 :: Continues(PullAt(stream, j)))
    && (r.pulls >= 1 ==> ItemsAmong(stream, r.pulls - 1) < limit)
    && (stop == LimitReached <==> r.processed >= limit)
    && (stop == LimitReached && r.pulls >= 1 ==> PullAt(stream, r.pulls - 1).Pulled?)
    && (stop == StreamExhausted ==> r.pulls >= 1 && PullAt(stream, r.pulls - 1) == StreamEnd)
    && (stop.FatalError? ==>
          r.pulls >= 1 && PullAt(stream, r.pulls - 1) == PullFailure(stop.status) && !Is5xx(stop.status))
  }

  lemma {:induction false} RunEndsFrom(stream: seq<PullOutcome>, limit: int, outputDir: string, overwrite: bool,
                                       s: State)
    requires PullsSoFar(stream, limit, s)
    decreases |stream| - s.pulls
    ensures var (r, stop) := Run(stream, limit, outputDir, overwrite, s); EndsProperly(stream, limit, r, stop)
  {
    if s.processed < limit {
      var o := PullAt(stream, s.pulls);
      if Continues(o) {
        var s' := Step(stream, outputDir, overwrite, s);
        assert PullsSoFar(stream, limit, s');
        RunEndsFrom(stream, limit, outputDir, overwrite, s');
      } else {
        ItemsAmongNoItem(stream, s.pulls);
      }
    }
  }

  /** How every run from the start ends. */
  lemma RunEnds(stream: seq<PullOutcome>, limit: int, outputDir: string, overwrite: bool, disk0: map<Path, Bytes>)
    ensures var (r, stop) := Run(stream, limit, outputDir, overwrite, Start(disk0));
      EndsProperly(stream, limit, r, stop)
  {
    RunEndsFrom(stream, limit, outputDir, overwrite, Start(disk0));
  }

  /** No item among the first `n` pulls means nothing counted. */
  lemma {:induction false} ItemsAmongNone(stream: seq<PullOutcome>, n: nat)
    requires forall j | 0 <= j < n :: !PullAt(stream, j).Pulled?
    ensures ItemsAmong(stream, n) == 0
  {
    if n > 0 {
      ItemsAmongNone(stream, n - 1);
    }
  }

  /** Some item among the first `n` pulls means something counted, and
      conversely. */
  lemma {:induction false} ItemsAmongSome(stream: seq<PullOutcome>, n: nat)
    ensures ItemsAmong(stream, n) > 0 <==> exists j | 0 <= j < n :: PullAt(stream, j).Pulled?
  {
    if n > 0 {
      ItemsAmongSome(stream, n - 1);
      if PullAt(stream, n - 1).Pulled? {
        assert exists j | 0 <= j < n :: PullAt(stream, j).Pulled?;
      }
    }
  }

  /** A stream that yields no item leaves both counters at zero and the
      files as they were. */
  lemma NoItemsNoCounts(stream: seq<PullOutcome>, limit: int, outputDir: string, overwrite: bool,
                        disk0: map<Path, Bytes>)
    requires forall i | 0 <= i < |stream| :: !stream[i].Pulled?
    ensures var r := RunOf(stream, limit, outputDir, overwrite, disk0);
      r.processed == 0 && r.downloaded == 0 && r.fetches == [] && r.disk == disk0
  {
    var r := RunOf(stream, limit, outputDir, overwrite, disk0);
    RunConsistent(stream, limit, outputDir, overwrite, disk0, Start(disk0));
    ItemsAmongNone(stream, r.pulls);
    OnlyItemsFetched(stream, limit, outputDir, overwrite, Start(disk0));
  }

  /** Every fetch comes from an item: with no items there are no fetches. */
  lemma {:induction false} OnlyItemsFetched(stream: seq<PullOutcome>, limit: int, outputDir: string, overwrite: bool,
                                            s: State)
    requires s.fetches == []
    requires forall i | 0 <= i < |stream| :: !stream[i].Pulled?
    decreases |stream| - s.pulls
    ensures var r := Run(stream, limit, outputDir, overwrite, s).0; r.fetches == [] && r.disk == s.disk
  {
    if s.processed < limit && Continues(PullAt(stream, s.pulls)) {
      StepRetries(stream, outputDir, overwrite, s);
      OnlyItemsFetched(stream, limit, outputDir, overwrite, Step(stream, outputDir, overwrite, s));
    }
  }

  /** The number of items among the pulls from `i` on. */
  function ItemsFrom(stream: seq<PullOutcome>, i: nat): nat
    decreases |stream| - i
  {
    if i >= |stream| then 0 else (if stream[i].Pulled? then 1 else 0) + ItemsFrom(stream, i + 1)
  }

  /** With no item from `i` on, there is nothing to count. */
  lemma {:induction false} ItemsFromNone(stream: seq<PullOutcome>, i: nat)
    requires forall k | i <= k < |stream| :: !stream[k].Pulled?
    decreases |stream| - i
    ensures ItemsFrom(stream, i) == 0
  {
    if i < |stream| {
      ItemsFromNone(stream, i + 1);
    }
  }

  /** The two counts agree: the items among the first `n` pulls and the
      items from pull `n` on make up all the items of the stream. */
  lemma {:induction false} ItemsAmongFrom(stream: seq<PullOutcome>, n: nat)
    requires n <= |stream|
    ensures ItemsAmong(stream, n) + ItemsFrom(stream, n) == ItemsFrom(stream, 0)
    ensures n == |stream| ==> ItemsAmong(stream, n) == ItemsFrom(stream, 0)
  {
    if n > 0 {
      ItemsAmongFrom(stream, n - 1);
    }
  }

  /** The pulls from `pulls` on hold items that are new in every sense,
      possibly with rate-limited or 5xx search pulls between them, and
      possibly followed by the end of the stream or a fatal error: the
      items' keys are not in `seen` and are distinct, their files may be
      written, and their blob fetches succeed, possibly after retries. */
  ghost predicate FreshFrom(stream: seq<PullOutcome>, outputDir: string, overwrite: bool,
                            pulls: nat, seen: set<string>, disk: map<Path, Bytes>)
  {
    && pulls <= |stream|
    && (forall j | pulls <= j < |stream| && stream[j].Pulled? ::
          DecodeSpec(stream[j].replies).result.Decoded?
          && Key(stream[j].item) !in seen
          && (overwrite || Target(outputDir, stream[j].item) !in disk))
    && (forall j, k | pulls <= j < k < |stream| && stream[j].Pulled? && stream[k].Pulled? ::
          Key(stream[j].item) != Key(stream[k].item)
          && (overwrite || Target(outputDir, stream[j].item) != Target(outputDir, stream[k].item)))
    && (forall j, k | pulls <= j < k < |stream| && !Continues(stream[j]) :: !stream[k].Pulled?)
  }

  /** Handling the next fresh item keeps the rest fresh. */
  lemma FreshKept(stream: seq<PullOutcome>, outputDir: string, overwrite: bool,
                  pulls: nat, seen: set<string>, disk: map<Path, Bytes>, bytes: Bytes)
    requires FreshFrom(stream, outputDir, overwrite, pulls, seen, disk) && pulls < |stream|
    requires stream[pulls].Pulled?
    ensures var item := stream[pulls].item;
      FreshFrom(stream, outputDir, overwrite, pulls + 1, seen + {Key(item)}, disk[Target(outputDir, item) := bytes])
  {
  }

  lemma {:induction false} FreshItemsFrom(stream: seq<PullOutcome>, limit: int, outputDir: string, overwrite: bool,
                                          s: State)
    requires FreshFrom(stream, outputDir, overwrite, s.pulls, s.seen, s.disk)
    requires s.processed + ItemsFrom(stream, s.pulls) <= limit
    decreases |stream| - s.pulls
    ensures var r := Run(stream, limit, outputDir, overwrite, s).0;
      r.processed == s.processed + ItemsFrom(stream, s.pulls)
      && r.downloaded == s.downloaded + ItemsFrom(stream, s.pulls)
  {
    if s.pulls < |stream| && s.processed < limit {
      var o := stream[s.pulls];
      assert PullAt(stream, s.pulls) == o;
      if o.Pulled? {
        var bytes := DecodeSpec(o.replies).result.bytes;
        StepFetches(stream, outputDir, overwrite, s);
        FreshKept(stream, outputDir, overwrite, s.pulls, s.seen, s.disk, bytes);
        var s' := Step(stream, outputDir, overwrite, s);
        assert s'.pulls == s.pulls + 1 && s'.seen == s.seen + {Key(o.item)}
            && s'.disk == s.disk[Target(outputDir, o.item) := bytes]
            && s'.processed == s.processed + 1 && s'.downloaded == s.downloaded + 1;
        FreshItemsFrom(stream, limit, outputDir, overwrite, s');
      } else if Continues(o) {
        StepRetries(stream, outputDir, overwrite, s);
        var s' := Step(stream, outputDir, overwrite, s);
        assert s'.pulls == s.pulls + 1 && s'.seen == s.seen && s'.disk == s.disk
            && s'.processed == s.processed && s'.downloaded == s.downloaded;
        FreshItemsFrom(stream, limit, outputDir, overwrite, s');
      } else {
        ItemsFromNone(stream, s.pulls);
      }
    }
  }

  /** A stream holding at most `limit` items, all new, with distinct files
      unless overwriting, whose blob fetches all succeed (at once or after
      rate limits and 5xx errors), with any number of retried search pulls
      between them and possibly a fatal error after them: every item is
      counted and downloaded. */
  lemma FreshItemsAllDownloaded(stream: seq<PullOutcome>, limit: int, outputDir: string, overwrite: bool,
                                disk0: map<Path, Bytes>)
    requires ItemsFrom(stream, 0) <= limit
    requires FreshFrom(stream, outputDir, overwrite, 0, {}, disk0)
    ensures var r := RunOf(stream, limit, outputDir, overwrite, disk0);
      r.processed == ItemsFrom(stream, 0) && r.downloaded == ItemsFrom(stream, 0)
  {
    FreshItemsFrom(stream, limit, outputDir, overwrite, Start(disk0));
  }

  /** A repeated item is skipped even when the fetch for its first
      occurrence failed: both are counted, one fetch is made and no file is
      written. */
  lemma DuplicateAfterFailedFetch(item: Item, first: Replies, again: Replies, limit: int, outputDir: string,
                                  overwrite: bool, disk0: map<Path, Bytes>)
    requires limit >= 2
    requires DecodeSpec(first).result.Failed?
    requires overwrite || Target(outputDir, item) !in disk0
    ensures var t := DecodeSpec(first);
      var r := RunOf([Pulled(item, first), Pulled(item, again)], limit, outputDir, overwrite, disk0);
      r.processed == 2 && r.downloaded == 0 && r.disk == disk0
      && r.fetches == [Fetch(item, Target(outputDir, item), t.calls, t.result)]
  {
    var stream := [Pulled(item, first), Pulled(item, again)];
    var s0 := Start(disk0);
    FailureIsolatedFirst(stream, outputDir, overwrite, s0);
    StepFetches(stream, outputDir, overwrite, s0);
    var s1 := Step(stream, outputDir, overwrite, s0);
    assert PullAt(stream, 1) == stream[1];
    StepSkips(stream, outputDir, overwrite, s1);
    RunTwoItems(stream, limit, outputDir, overwrite, s0);
    var r := Run(stream, limit, outputDir, overwrite, s0).0;
    var s2 := Step(stream, outputDir, overwrite, s1);
    assert r.(pulls := 0) == s2.(pulls := 0);
    assert r.processed == s2.processed && r.downloaded == s2.downloaded
        && r.fetches == s2.fetches && r.disk == s2.disk;
  }

  /** For two items and a limit of at least two, the run is the two steps. */
  lemma RunTwoItems(stream: seq<PullOutcome>, limit: int, outputDir: string, overwrite: bool, s0: State)
    requires |stream| == 2 && stream[0].Pulled? && stream[1].Pulled?
    requires s0.pulls == 0 && s0.processed == 0 && limit >= 2
    ensures Run(stream, limit, outputDir, overwrite, s0).0.(pulls := 0)
         == Step(stream, outputDir, overwrite, Step(stream, outputDir, overwrite, s0)).(pulls := 0)
  {
    assert PullAt(stream, 0).Pulled? && PullAt(stream, 1).Pulled?;
    var s1 := Step(stream, outputDir, overwrite, s0);
    assert Run(stream, limit, outputDir, overwrite, s0) == Run(stream, limit, outputDir, overwrite, s1);
    var s2 := Step(stream, outputDir, overwrite, s1);
    assert Run(stream, limit, outputDir, overwrite, s1) == Run(stream, limit, outputDir, overwrite, s2);
    assert s2.processed == 2 && s2.pulls == 2 && PullAt(stream, 2) == StreamEnd;
  }

  /** A failed fetch skips only its own item: the next item is still
      downloaded. */
  lemma FailureIsolated(failing: Item, bad: Replies, next: Item, good: Replies, limit: int, outputDir: string,
                        overwrite: bool, disk0: map<Path, Bytes>)
    requires limit >= 2
    requires Key(failing) != Key(next)
    requires DecodeSpec(bad).result.Failed? && DecodeSpec(good).result.Decoded?
    requires overwrite || (Target(outputDir, failing) !in disk0 && Target(outputDir, next) !in disk0)
    ensures var r := RunOf([Pulled(failing, bad), Pulled(next, good)], limit, outputDir, overwrite, disk0);
      r.processed == 2 && r.downloaded == 1 && |r.fetches| == 2
      && r.fetches[0].result.Failed? && r.fetches[1].result == DecodeSpec(good).result
      && r.disk == disk0[Target(outputDir, next) := DecodeSpec(good).result.bytes]
  {
    var stream := [Pulled(failing, bad), Pulled(next, good)];
    var s0 := Start(disk0);
    FailureIsolatedFirst(stream, outputDir, overwrite, s0);
    var s1 := Step(stream, outputDir, overwrite, s0);
    FailureIsolatedSecond(stream, outputDir, overwrite, s1);
    RunTwoItems(stream, limit, outputDir, overwrite, s0);
    var r := Run(stream, limit, outputDir, overwrite, s0).0;
    var s2 := Step(stream, outputDir, overwrite, s1);
    assert r.(pulls := 0) == s2.(pulls := 0);
    assert r.processed == s2.processed && r.downloaded == s2.downloaded
        && r.fetches == s2.fetches && r.disk == s2.disk;
  }

  /** The first fetch fails: only its key is recorded. */
  lemma FailureIsolatedFirst(stream: seq<PullOutcome>, outputDir: string, overwrite: bool, s0: State)
    requires s0.pulls == 0 && s0.processed == 0 && s0.downloaded == 0 && s0.seen == {} && s0.fetches == []
    requires |stream| == 2 && stream[0].Pulled? && DecodeSpec(stream[0].replies).result.Failed?
    requires overwrite || Target(outputDir, stream[0].item) !in s0.disk
    ensures var s1 := Step(stream, outputDir, overwrite, s0);
      s1.pulls == 1 && s1.processed == 1 && s1.downloaded == 0 && s1.disk == s0.disk
      && s1.seen == {Key(stream[0].item)} && |s1.fetches| == 1 && s1.fetches[0].result.Failed?
  {
    assert PullAt(stream, 0) == stream[0];
    StepFetches(stream, outputDir, overwrite, s0);
  }

  lemma FailureIsolatedSecond(stream: seq<PullOutcome>, outputDir: string, overwrite: bool, s1: State)
    requires s1.pulls == 1 && |stream| == 2 && stream[1].Pulled? && DecodeSpec(stream[1].replies).result.Decoded?
    requires Key(stream[1].item) !in s1.seen
    requires overwrite || Target(outputDir, stream[1].item) !in s1.disk
    ensures var s2 := Step(stream, outputDir, overwrite, s1);
      var o := stream[1];
      var t := DecodeSpec(o.replies);
      s2.processed == s1.processed + 1 && s2.downloaded == s1.downloaded + 1
      && s2.fetches == s1.fetches + [Fetch(o.item, Target(outputDir, o.item), t.calls, t.result)]
      && s2.disk == s1.disk[Target(outputDir, o.item) := t.result.bytes]
  {
    assert PullAt(stream, 1) == stream[1];
    StepFetches(stream, outputDir, overwrite, s1);
  }

  /** A step only appends pauses. */
  lemma StepExtendsPauses(stream: seq<PullOutcome>, outputDir: string, overwrite: bool, s: State)
    requires Continues(PullAt(stream, s.pulls))
    ensures var r := Step(stream, outputDir, overwrite, s);
      |s.pauses| <= |r.pauses| && r.pauses[..|s.pauses|] == s.pauses
  {
    var r := Step(stream, outputDir, overwrite, s);
    var o := PullAt(stream, s.pulls);
    var extra := if o.Pulled? then DecodeSpec(o.replies).pauses else [RetryPause(o)];
    assert r.pauses == s.pauses || r.pauses == s.pauses + extra;
    assert (s.pauses + extra)[..|s.pauses|] == s.pauses;
  }

  /** A rate limit or a 5xx error from the search stream is waited out and
      the next pull is made; it is not counted as an item. */
  lemma RetriedPullNotCounted(retried: PullOutcome, item: Item, replies: Replies, limit: int, outputDir: string,
                              overwrite: bool, disk0: map<Path, Bytes>)
    requires retried.PullRateLimited? || (retried.PullFailure? && Is5xx(retried.status))
    requires limit >= 1
    ensures var r := RunOf([retried, Pulled(item, replies)], limit, outputDir, overwrite, disk0);
      r.processed == 1 && r.pulls >= 2 && |r.pauses| >= 1
      && r.pauses[0] == (if retried.PullRateLimited? then QuotaWait(Search) else Sleep(SearchRetrySeconds))
  {
    var stream := [retried, Pulled(item, replies)];
    var s0 := Start(disk0);
    StepRetries(stream, outputDir, overwrite, s0);
    var s1 := Step(stream, outputDir, overwrite, s0);
    var s2 := Step(stream, outputDir, overwrite, s1);
    StepExtendsPauses(stream, outputDir, overwrite, s1);
    assert Run(stream, limit, outputDir, overwrite, s0).0 == Run(stream, limit, outputDir, overwrite, s2).0;
  }

  /** Which pulls are made and which items are counted depends only on the
      stream and the limit: neither the files already present nor
      `overwrite` change the count, the number of pulls or why the loop
      ended. */
  lemma {:induction false} CountIgnoresFiles(stream: seq<PullOutcome>, limit: int, outputDir: string,
                                             overwrite1: bool, s1: State, overwrite2: bool, s2: State)
    requires s1.pulls == s2.pulls && s1.processed == s2.processed
    decreases |stream| - s1.pulls
    ensures var (r1, stop1) := Run(stream, limit, outputDir, overwrite1, s1);
      var (r2, stop2) := Run(stream, limit, outputDir, overwrite2, s2);
      r1.pulls == r2.pulls && r1.processed == r2.processed && stop1 == stop2
  {
    if s1.processed < limit && Continues(PullAt(stream, s1.pulls)) {
      CountIgnoresFiles(stream, limit, outputDir, overwrite1, Step(stream, outputDir, overwrite1, s1),
                        overwrite2, Step(stream, outputDir, overwrite2, s2));
    }
  }
}
