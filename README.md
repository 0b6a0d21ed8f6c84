# Certificate Transparency log mirror, modelled in Dafny

The CT source of inetdata mirrors RFC 6962 Certificate Transparency logs
into a storage directory. This project models its four operations in
`lib/inetdata/source/ct.rb`:

- `ct_request` fetches one JSON document over HTTPS. It makes up to
  `max_tries` attempts, and at least one, and re-raises an interrupt at
  once.
- `ct_sync` runs one catch-up pass over one log:
  - it reads the log's persisted `entries` cursor from its meta file, or
    starts at 0 without one;
  - it asks `get-sth` for `tree_size`;
  - it fetches windows of `get-entries` from the cursor while the cursor
    is below `tree_size - 1`;
  - it appends each window's records to the data file of the pass, which
    is named after the starting cursor;
  - after each append it rewrites the meta file with the advanced cursor;
  - at the end it compresses the data file when the loop ended normally
    and brought new records.
- `download` trims trailing slashes from every configured log base in
  place. It derives a log name from each base and starts one `ct_sync`
  thread per log.
- `normalize` goes through the compressed data files in sorted order. Each
  one without an `.mtbl` counterpart in the normalized directory is
  converted into a temporary file, which is then renamed to its final name.
  Without the inetdata-parsers tools it creates the normalized directory,
  converts nothing and returns false.

Modules:

- `Util` has Option, integer printing (Ruby's `Integer#to_s`) and the two
  string searches the source relies on.
- `CtNames` derives names from strings: log names, meta and data file
  names, request URLs and normalized destination names.
- `CtRequest` holds the retry policy. `Retry` is its reference definition
  and the method `Request` is the loop itself.
- `CtSync` holds one pass of `ct_sync`:
  - `Batches` gives the batch loop and `Pass` the whole pass, both as pure
    specifications;
  - the I/O trace `PassIo` lists every request, append, meta write and
    compression of a pass, in order;
  - the class `Store` holds the storage directory (meta files, data files
    and the trace) and its method `Sync`, which is proved to produce
    exactly the outcome, files and trace that `Pass` and `PassIo` describe.
- `CtDownload` has the `download` loop over an array of configured bases.
  The loop rewrites the array in place and returns the jobs it hands to
  the threads.
- `CtNormalize` has the plan of conversions (`Plan`) and the class
  `NormalizedDir`, whose method `Normalize` is proved to carry out that
  plan.

The network is a parameter of type `(Endpoint, nat) -> Attempt`: the
outcome of each attempt at each endpoint. A reply is keyed by endpoint
rather than by URL string. `UrlInjective` proves that the two identify
each other.

These behaviours of the code are easy to misread; the model follows the
code:

- A window ends at `min(cursor + 2000, tree_size - 1)`, and windows are
  inclusive. A full window therefore asks for 2001 entries, not 2000. A
  log of 4500 entries is fetched as [0, 2000], [2001, 4001] and
  [4002, 4499], where windows of 2000 entries would give [0, 1999],
  [2000, 3999] and [4000, 4499] (`FullLogOf4500`).
- The loop guard is `cursor < tree_size - 1`. A cursor one short of the
  tree size therefore fetches nothing, and the pass still ends normally
  (`LastEntryWaits`). The same guard keeps a tree that shrank below the
  cursor from being asked for any window.
- The request paths are `/ct/v1/get-sth` and `/ct/v1/get-entries`, the
  paths of section 4 of RFC 6962, appended to the configured base.
- A get-sth reply without `tree_size` ends the pass quietly, with no error
  (`Outcome.NoTreeSize`).

## Model

| member | source | states |
|---|---|---|
| Util.IntToStringInjective | lib/inetdata/source/ct.rb:63 | different start offsets print differently, so a data file name identifies the start offset of its pass |
| Util.Contains | lib/inetdata/source/ct.rb:27 | the Content-Type test is true exactly when "application/json" occurs somewhere in the header value |
| CtRequest.Classify | lib/inetdata/source/ct.rb:27-39 | an attempt is accepted iff its status is 200, it has a Content-Type containing "application/json" and its body parses, and the accepted document is that body; it is cancelled iff it was an Interrupt; every other attempt is retryable |
| CtRequest.Retry | lib/inetdata/source/ct.rb:12-47 | reference definition of a whole call: the reply once earlier attempts were retryable; an accepted attempt is returned, an Interrupt ends the call, and a retryable attempt is retried while fewer than `max_tries` attempts were made; its properties are RetryFacts and FirstAcceptedWins |
| CtRequest.RetryFacts | lib/inetdata/source/ct.rb:37-46 | a call makes between 1 and max(1, max_tries) attempts; every attempt before the last was retryable; the last one decides: a parsed reply is the accepted document, an interrupted call ended on an Interrupt, and an exhausted call made exactly max(1, max_tries) attempts |
| CtRequest.FirstAcceptedWins | lib/inetdata/source/ct.rb:35-43 | if attempt k is accepted, every earlier attempt was retryable and k is within the limit, the call returns attempt k's document after k attempts |
| CtRequest.Request | lib/inetdata/source/ct.rb:9-48 | the retry loop returns exactly the reply of the reference definition Retry, together with all of RetryFacts |
| CtRequest.RetryScenario | lib/inetdata/source/ct.rb:40-45 | two transport failures and then a JSON reply: with 3 tries allowed the third attempt is returned, with 2 the call gives up after two attempts |
| CtRequest.InterruptIsNotRetried | lib/inetdata/source/ct.rb:37-38 | an Interrupt on the first attempt ends the call there, whatever max_tries is |
| CtNames.TrimTrailingSlashes | lib/inetdata/source/ct.rb:123 | the result is a prefix of the base, does not end in '/', and only '/' characters were removed |
| CtNames.TrimTrailingSlashesUnique | lib/inetdata/source/ct.rb:123 | those three properties determine the trimmed base |
| CtNames.TrimTrailingSlashesIdempotent | lib/inetdata/source/ct.rb:123 | trimming a trimmed base changes nothing |
| CtNames.ReplaceSlashes | lib/inetdata/source/ct.rb:126 | the result has the same length, contains no '/', and keeps every character that was not a '/' |
| CtNames.LogName | lib/inetdata/source/ct.rb:123-126 | definition: replace every '/' of the trimmed base by '_'; its properties are LogNameShape and LogNamesCanCollide |
| CtNames.MetaFileName | lib/inetdata/source/ct.rb:56 | definition: the log name followed by "_meta.json" |
| CtNames.DataFileName | lib/inetdata/source/ct.rb:63 | definition: the log name, "_data_", the decimal start cursor and ".json"; its properties are MetaIsNeverData and DataFileNameInjective |
| CtNames.Path | lib/inetdata/source/ct.rb:65-80 | definition: "/ct/v1/get-sth", or "/ct/v1/get-entries?start=" with the decimal start, "&end=" and the decimal end |
| CtNames.Url | lib/inetdata/source/ct.rb:65-80 | definition: the log base followed by the path; its property is UrlInjective |
| CtNames.NormalizedName | lib/inetdata/source/ct.rb:151 | definition: a final ".json.gz" replaced by ".mtbl", any other name unchanged; its property is NormalizedNameOfArchive |
| CtNames.IsShardArchive | lib/inetdata/source/ct.rb:150 | definition of the glob: a name ending in ".json.gz" with "_data_" before that suffix and no leading '.' |
| CtNames.LogNameShape | lib/inetdata/source/ct.rb:123-126 | a log name contains no '/', has the length of the trimmed base, and trimming first gives the same name |
| CtNames.LogNamesCanCollide | lib/inetdata/source/ct.rb:126 | two different bases that differ only in a '/' against a '_' at one place get the same log name, and so share meta and data files |
| CtNames.MetaIsNeverData | lib/inetdata/source/ct.rb:56-63 | no meta file name equals any data file name, of any logs |
| CtNames.DataFileNameInjective | lib/inetdata/source/ct.rb:62-63 | passes of one log that start at different cursors write different data files |
| CtNames.PathKindMarker | lib/inetdata/source/ct.rb:65-80 | the character after "/ct/v1/get-" tells a get-sth path from a get-entries path |
| CtNames.EntriesPathInjective | lib/inetdata/source/ct.rb:80 | two get-entries paths are equal only for the same start and end |
| CtNames.UrlInjective | lib/inetdata/source/ct.rb:65-80 | under one base, distinct endpoints have distinct request URLs |
| CtNames.NormalizedNameOfArchive | lib/inetdata/source/ct.rb:151 | the destination of a compressed shard is its stem followed by ".mtbl", and two compressed shards never share a destination |
| CtNames.SealedShardIsNormalized | lib/inetdata/source/ct.rb:150-151 | for a log name that does not start with '.' (otherwise the compressed data file is hidden and the glob skips it), the compressed data file of a pass matches the glob of `normalize` and is normalized to the log name, "_data_", the start offset and ".mtbl" |
| CtSync.Batches | lib/inetdata/source/ct.rb:75-103 | reference definition of the batch loop: while the cursor is below tree_size - 1, take the window's turn; a failed or entry-less reply stops, an empty batch stalls, any other batch advances the cursor by its length; its properties are the Batches lemmas |
| CtSync.Loop | lib/inetdata/source/ct.rb:75-103 | the batch loop turn by turn with the batches done so far; LoopIsBatches ties it to Batches |
| CtSync.NoBatchWhenCaughtUp | lib/inetdata/source/ct.rb:75 | with the cursor at tree_size - 1 or past it, no window is fetched and the loop ends normally |
| CtSync.Pass | lib/inetdata/source/ct.rb:51-112 | reference definition of a pass: a failed get-sth, a reply without tree_size or a tree_size equal to the cursor end it early; otherwise the batch loop runs from the cursor; its properties are PassRuns, EarlyExitDoesNothing, SecondPassIsIdle and LastEntryWaits |
| CtSync.PassIo | lib/inetdata/source/ct.rb:51-112 | everything a pass does, in order: the get-sth request, then, when the loop ran, its batches' actions, the request of a window that failed, and the compression; its properties are GzipExactlyWhenNewRecords and MetaNeverAhead |
| CtSync.Store.Cursor | lib/inetdata/source/ct.rb:56-60 | the cursor a pass starts from: the one in the log's meta file, or 0 without a meta file |
| CtSync.Ask | lib/inetdata/source/ct.rb:81 | one request of the pass is exactly the retry policy applied to that endpoint's attempts |
| CtSync.WindowTurn | lib/inetdata/source/ct.rb:77-85 | the window at the cursor ends at min(cursor + 2000, tree_size - 1); a parsed reply with entries becomes a batch of exactly those entries; a parsed reply without entries is bad data; a failed request ends the loop with that reply |
| CtSync.RequestWindow | lib/inetdata/source/ct.rb:77-85 | one request of a window and its check for entries give exactly WindowTurn |
| CtSync.BatchesChained | lib/inetdata/source/ct.rb:77-94 | each window starts where the previous batch left the cursor |
| CtSync.BatchesWindows | lib/inetdata/source/ct.rb:75-81 | every fetched window starts below tree_size - 1, ends at min(start + 2000, tree_size - 1), so it never runs past the last entry, spans at most 2000 offsets past its start, and its records are exactly the entries its reply held |
| CtSync.BatchesCaughtUp | lib/inetdata/source/ct.rb:75 | the loop ends normally iff the final cursor is at least tree_size - 1 |
| CtSync.BatchesStall | lib/inetdata/source/ct.rb:94 | only the last batch can be empty, and the loop stalls iff its last batch is empty |
| CtSync.BatchesFailure | lib/inetdata/source/ct.rb:82-85 | bad data or a failed request ends the loop at a final cursor still below tree_size - 1, as the turn of the window at that cursor |
| CtSync.LoopIsBatches | lib/inetdata/source/ct.rb:75-103 | the loop run turn by turn, after some batches, ends with those batches followed by the batches of Batches from its cursor, with the same stop |
| CtSync.LoopFromStart | lib/inetdata/source/ct.rb:75-103 | with no batches done yet, the loop run turn by turn is Batches |
| CtSync.BatchesResume | lib/inetdata/source/ct.rb:94-100 | a loop restarted from the cursor persisted after some of its batches fetches exactly the remaining batches and stops the same way |
| CtSync.PassRuns | lib/inetdata/source/ct.rb:65-75 | a parsed get-sth with a tree_size other than the cursor runs the batch loop from the cursor against that tree_size |
| CtSync.BatchesIoEffect | lib/inetdata/source/ct.rb:87-100 | after the batch loop's actions the data file holds exactly the fetched records and the meta file holds the start cursor plus their number |
| CtSync.CrashPoint | lib/inetdata/source/ct.rb:87-100 | after any number k of the batch loop's actions, the meta file holds exactly the cursor after the last completed batch (the start of the batch in flight), and the data file holds exactly the records of the batches whose append has happened |
| CtSync.CrashMeta | lib/inetdata/source/ct.rb:94-100 | after k actions of the batch loop, the meta file holds the start cursor plus the records of the first k / 3 batches |
| CtSync.CrashAppended | lib/inetdata/source/ct.rb:87-92 | after k actions of the batch loop, the data file holds the records of the first (k + 1) / 3 batches |
| CtSync.BatchesIo | lib/inetdata/source/ct.rb:75-103 | the actions of the batch loop, in order: three for every batch (request, append, meta write) |
| CtSync.MetaNeverAhead | lib/inetdata/source/ct.rb:87-100 | at every point of the loop's trace, the cursor in the meta file never exceeds the start cursor plus the records appended so far, so a crash may repeat records but never skips one |
| CtSync.MetaFollowsAppend | lib/inetdata/source/ct.rb:87-100 | the loop's trace starts with a request, and every meta write directly follows an append to the pass's data file |
| CtSync.NoGzipInBatches | lib/inetdata/source/ct.rb:75-103 | the batch loop never runs the compressor |
| CtSync.GzipExactlyWhenNewRecords | lib/inetdata/source/ct.rb:105-109 | a pass runs the compressor iff the loop ended normally with new records, then only once, as its last action, on the pass's data file |
| CtSync.EarlyExitDoesNothing | lib/inetdata/source/ct.rb:65-71 | a failed get-sth, a missing tree_size or a tree_size equal to the cursor fetches no window, writes no file and compresses nothing; the pass makes only the get-sth request |
| CtSync.SecondPassIsIdle | lib/inetdata/source/ct.rb:68-75 | after a pass that ended normally, a second pass against the same log from the new cursor fetches nothing and compresses nothing |
| CtSync.LastEntryWaits | lib/inetdata/source/ct.rb:75 | a tree_size one above the cursor, or one that shrank below it, gets no window, yet the pass ends normally |
| CtSync.FullWindowsCatchUp | lib/inetdata/source/ct.rb:75-95 | against a log that returns every requested entry, the loop ends normally, each batch holds end - start + 1 records, and the final cursor is tree_size or tree_size - 1 |
| CtSync.FullLogOf4500 | lib/inetdata/source/ct.rb:75-95 | a log of 4500 entries mirrored from 0 takes the windows [0, 2000], [2001, 4001] and [4002, 4499] and ends normally with 4500 records |
| CtSync.LayoutStep | lib/inetdata/source/ct.rb:87-100 | appending one batch and then persisting its cursor extends the data file, meta file and trace exactly by that batch |
| CtSync.Store.TakeWindow | lib/inetdata/source/ct.rb:77-100 | one turn requests the window; on a batch it appends its records to the data file, then sets the meta file to the advanced cursor, and logs the three actions; on a failure only the request happened |
| CtSync.Store.SyncBatches | lib/inetdata/source/ct.rb:75-103 | the batch loop returns the run Loop specifies; afterwards the meta file holds the start cursor plus the fetched records, the data file holds its old content plus those records, and the trace grew by the loop's actions; with no batch no file changed |
| CtSync.Store.Catchup | lib/inetdata/source/ct.rb:75-109 | the batch loop followed by compressing the data file when the loop ended normally with new records, with the resulting files and trace |
| CtSync.Store.Sync | lib/inetdata/source/ct.rb:51-112 | one pass gives exactly the outcome Pass specifies for the persisted cursor; the meta file and the pass's data file change only when a batch was fetched, to the advanced cursor and the old content plus the new records; the trace grows by exactly PassIo |
| CtDownload.JobFor | lib/inetdata/source/ct.rb:121-130 | the thread for a configured base gets the log name of the base, which contains no '/', and the URL "https://" followed by the trimmed base |
| CtDownload.Jobs | lib/inetdata/source/ct.rb:121-134 | one job per configured log, in order; no job's log name contains a '/', and every job's URL starts with "https://" |
| CtDownload.Trimmed | lib/inetdata/source/ct.rb:121-123 | one entry per configured base; each is a prefix of its base and does not end in '/' |
| CtDownload.Download | lib/inetdata/source/ct.rb:114-138 | the loop leaves every entry of the configuration array trimmed in place and returns one job per configured log |
| CtDownload.DownloadTwice | lib/inetdata/source/ct.rb:121-126 | a second run sees the trimmed configuration, leaves it as it is and starts the same jobs |
| CtNormalize.Plan | lib/inetdata/source/ct.rb:150-162 | reference definition of a run: in listing order, a shard archive whose destination is not yet present (counting those written earlier in the run) is converted; its properties are PlanSound, PlanComplete and NormalizeIdempotent |
| CtNormalize.PlanSound | lib/inetdata/source/ct.rb:150-152 | only compressed shards of the listing are converted, each only when its destination did not exist before, and no destination is written twice |
| CtNormalize.PlanComplete | lib/inetdata/source/ct.rb:150-161 | after a run, every compressed shard of the listing has its destination in the normalized directory |
| CtNormalize.NormalizeIdempotent | lib/inetdata/source/ct.rb:150-152 | a second run over the same listing converts nothing |
| CtNormalize.NothingLeft | lib/inetdata/source/ct.rb:152 | when every compressed shard of the listing already has its destination, nothing is converted |
| CtNormalize.NormalizedDir.Normalize | lib/inetdata/source/ct.rb:140-163 | without the parser tools it returns false and converts nothing; otherwise it adds exactly the destinations of Plan to the normalized directory and records one conversion per planned source, in order |

## Left out

- HTTP, TLS and the switch that turns certificate checking off are not
  modelled. A request is the outcome of each attempt, given as a parameter.
- The 30-second sleep between attempts is not modelled; the model has no
  time.
- Log messages (`log`) are not modelled.
- JSON is not modelled. The meta file holds the cursor as an integer, with
  no other keys and no parse failures. A data file holds its records as a
  sequence, each standing for one JSON line. A reply is reduced to its
  `tree_size` and its `entries`. A reply that is not a JSON object, or an
  `entries` that is not an array, is not modelled.
- `code.to_i` is not modelled: the status code is taken as an integer.
- The compressor, `inetdata-ct2mtbl` and `system` are recorded as actions
  only. Their effect on files, their exit status and the shell escaping are
  not modelled. Neither are the temp directory and RAM arguments.
- Storage paths, `mkdir_p` and `File.join` are not modelled: file names are
  names relative to the storage directory and to the normalized directory.
- `normalize` takes the directory listing as a sequence already sorted. The
  glob's matching of hidden files is reduced to `IsShardArchive`. A rename
  whose temporary file is missing, because the conversion failed, raises in
  the source; the model takes every conversion as producing it.
- Threads are not modelled: `Download` returns the jobs it would start. The
  catch-all rescue of each thread and `join` are not modelled. Passes of
  two logs whose names collide (`LogNamesCanCollide`) would race on the
  same files; the model runs one pass at a time.
- CtSync.Batches: a batch with no entries makes the source loop repeat the
  same window forever. The network answers as a function of the window, so
  every later turn is the same and no file changes after it. The model
  stops after that first empty batch with `Stalled`.
- CtNames.TrimTrailingSlashes: assumes the configured base holds no line
  break. Ruby's `$` also matches before a newline inside the string.
- CtNames.NormalizedName: assumes the same of file names, for the same
  reason.
- `inetdata_parsers_available?` is a parameter of `Normalize`.
