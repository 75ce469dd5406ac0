/** The end of `main` (fetch_agents.py:206-223): the closing message and
    the exit status. Argument parsing, logging set-up, the token and the
    client are not modelled. */
module Exit {
  import opened Env
  import opened Naming
  import opened Search

  /** The three closing messages (fetch_agents.py:214-220). */
  datatype Summary = NoResults | NothingNew | Completed(files: nat)

  function Summarize(downloaded: nat, processed: nat): Summary
  {
    if downloaded == 0 then (if processed == 0 then NoResults else NothingNew)
    else Completed(downloaded)
  }

  /** The exit status (fetch_agents.py:223): success as soon as the search
      surfaced an item, whether or not anything new was downloaded. */
  function ExitStatus(processed: nat): int
  {
    if processed > 0 then 0 else 1
  }

  /** `main` once the client exists: run the loop, log the summary and
      return the exit status. */
  method RunMain(stream: seq<PullOutcome>, limit: int, outputDir: string, overwrite: bool,
                 disk0: map<Path, Bytes>)
    returns (status: int, summary: Summary, disk: map<Path, Bytes>)
    ensures var r := RunOf(stream, limit, outputDir, overwrite, disk0);
      status == ExitStatus(r.processed) && summary == Summarize(r.downloaded, r.processed) && disk == r.disk
  {
    var downloaded, processed, pauses, fetches;
    downloaded, processed, disk, pauses, fetches := SearchAndDownload(stream, limit, outputDir, overwrite, disk0);
    summary := Summarize(downloaded, processed);
    status := ExitStatus(processed);
  }

  /** The exit status of a whole run. */
  function MainStatus(stream: seq<PullOutcome>, limit: int, outputDir: string, overwrite: bool,
                      disk0: map<Path, Bytes>): int
  {
    ExitStatus(RunOf(stream, limit, outputDir, overwrite, disk0).processed)
  }

  /** The run fails exactly when the "no results" message is logged: the
      status is 1 if and only if nothing was processed, and then nothing was
      downloaded either; otherwise it is 0. */
  lemma StatusMatchesSummary(stream: seq<PullOutcome>, limit: int, outputDir: string, overwrite: bool,
                             disk0: map<Path, Bytes>)
    ensures var r := RunOf(stream, limit, outputDir, overwrite, disk0);
      var status := MainStatus(stream, limit, outputDir, overwrite, disk0);
      (status == 1 <==> Summarize(r.downloaded, r.processed) == NoResults)
      && (status == 0 <==> Summarize(r.downloaded, r.processed) != NoResults)
  {
    CountsBounded(stream, limit, outputDir, overwrite, disk0);
  }

  /** The run succeeds if and only if one of the pulls it made gave an item. */
  lemma StatusIffItemPulled(stream: seq<PullOutcome>, limit: int, outputDir: string, overwrite: bool,
                            disk0: map<Path, Bytes>)
    ensures var r := RunOf(stream, limit, outputDir, overwrite, disk0);
      MainStatus(stream, limit, outputDir, overwrite, disk0) == 0
      <==> exists j | 0 <= j < r.pulls :: PullAt(stream, j).Pulled?
  {
    var r := RunOf(stream, limit, outputDir, overwrite, disk0);
    RunEnds(stream, limit, outputDir, overwrite, disk0);
    ItemsAmongSome(stream, r.pulls);
  }

  /** With a positive limit, an item reached through rate limits and 5xx
      errors only makes the run succeed. */
  lemma ItemReachedSucceeds(stream: seq<PullOutcome>, limit: int, outputDir: string, overwrite: bool,
                            disk0: map<Path, Bytes>, k: nat)
    requires limit > 0
    requires k < |stream| && stream[k].Pulled?
    requires forall j | 0 <= j < k :: Continues(stream[j])
    ensures MainStatus(stream, limit, outputDir, overwrite, disk0) == 0
  {
    var (r, stop) := Run(stream, limit, outputDir, overwrite, Start(disk0));
    RunEnds(stream, limit, outputDir, overwrite, disk0);
    ItemsAmongSome(stream, r.pulls);
    if stop != LimitReached {
      // The last pull did not continue, and every pull up to item `k` did.
      assert PullAt(stream, k) == stream[k];
      if r.pulls - 1 < |stream| {
        assert PullAt(stream, r.pulls - 1) == stream[r.pulls - 1];
      }
    }
  }

  /** A search that yields no item fails, whatever the limit. */
  lemma NoItemsFails(stream: seq<PullOutcome>, limit: int, outputDir: string, overwrite: bool,
                     disk0: map<Path, Bytes>)
    requires forall i | 0 <= i < |stream| :: !stream[i].Pulled?
    ensures MainStatus(stream, limit, outputDir, overwrite, disk0) == 1
    ensures var r := RunOf(stream, limit, outputDir, overwrite, disk0);
      Summarize(r.downloaded, r.processed) == NoResults
  {
    NoItemsNoCounts(stream, limit, outputDir, overwrite, disk0);
  }

  /** The status does not depend on the files present beforehand or on
      `overwrite`: a run in which every item already existed succeeds just
      as one that downloaded them. */
  lemma StatusIgnoresFiles(stream: seq<PullOutcome>, limit: int, outputDir: string,
                           overwrite1: bool, disk1: map<Path, Bytes>, overwrite2: bool, disk2: map<Path, Bytes>)
    ensures MainStatus(stream, limit, outputDir, overwrite1, disk1)
         == MainStatus(stream, limit, outputDir, overwrite2, disk2)
  {
    CountIgnoresFiles(stream, limit, outputDir, overwrite1, Start(disk1), overwrite2, Start(disk2));
  }
}
