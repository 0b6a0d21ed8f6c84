/** One sync pass of `ct_sync` over one log. The remote log is a network
    answering each endpoint and attempt number; a call to `ct_request`
    reduces that to a Reply by the retry policy of CtRequest. The storage
    directory is a map of meta files (the persisted `entries` cursor) and a
    map of data files (the records appended to each shard), and every file
    or network action is also recorded, in order, in an I/O trace.

    The specification is the pure function Pass (with Batches for the batch
    loop); the method Store.Sync is the loop itself, proved to produce
    exactly the outcome, files and trace that Pass describes. */
module CtSync {
  import opened Util
  import opened CtNames
  import opened CtRequest

  /** The source adds 2000 to the start offset of a window; since RFC 6962
      windows are inclusive, a full window asks for 2001 entries. */
  const BatchSpan := 2000

  /** The parts of a parsed reply that the pass reads: `tree_size` of a
      get-sth reply and the `entries` array of a get-entries reply. */
  datatype Doc<R> = Doc(treeSize: Option<int>, entries: Option<seq<R>>)

  /** The remote log: the outcome of attempt `n` of a request for an endpoint. */
  type Network<R> = (Endpoint, nat) -> Attempt<Doc<R>>

  function Attempts<R>(net: Network<R>, ep: Endpoint): nat -> Attempt<Doc<R>>
  {
    (n: nat) => net(ep, n)
  }

  /** `ct_request(url)` for the URL of endpoint `ep`. */
  function Fetch<R>(net: Network<R>, ep: Endpoint, maxTries: int): Reply<Doc<R>>
  {
    Retry(Attempts(net, ep), maxTries, 1)
  }

  /** One `ct_request` call, issued by the pass for endpoint `ep`. */
  method Ask<R>(net: Network<R>, ep: Endpoint, maxTries: int) returns (r: Reply<Doc<R>>)
    ensures r == Fetch(net, ep, maxTries)
  {
    r := Request(Attempts(net, ep), maxTries);
  }

  /** The reply `ct_request` gives for each endpoint of the log. The batch
      loop is specified against any such function of endpoints. */
  type Replies<R> = Endpoint -> Reply<Doc<R>>

  /** `answer` gives, for every endpoint, what `ct_request` returns for it. */
  ghost predicate Serves<R>(answer: Replies<R>, net: Network<R>, maxTries: int)
  {
    forall ep {:trigger Fetch(net, ep, maxTries)} :: answer(ep) == Fetch(net, ep, maxTries)
  }

  function Answers<R>(net: Network<R>, maxTries: int): Replies<R>
  {
    (ep: Endpoint) => Fetch(net, ep, maxTries)
  }

  /** The last offset of the window at `cursor`: 2000 past it, capped at tree_size - 1. */
  function WindowEnd(cursor: int, treeSize: int): int
  {
    Min(cursor + BatchSpan, treeSize - 1)
  }

  /** One completed iteration of the batch loop: the window asked for and
      the records the log returned for it. */
  datatype Batch<R> = Batch(start: int, end: int, records: seq<R>)

  /** Why the batch loop ended. `Stalled` is a batch that returned no
      entries: the cursor does not move, so the source asks for the same
      window again and again and never leaves the loop; the files no
      longer change after that first empty batch. */
  datatype Stop<R> =
    | CaughtUp
    | BadData(start: int, end: int)
    | FetchFailed(start: int, end: int, reply: Reply<Doc<R>>)
    | Stalled

  datatype Run<R> = Run(batches: seq<Batch<R>>, stop: Stop<R>)

  /** All records of a sequence of batches, in order. */
  function Flatten<R>(bs: seq<Batch<R>>): seq<R>
  {
    if bs == [] then [] else bs[0].records + Flatten(bs[1..])
  }

  lemma {:induction false} FlattenConcat<R>(a: seq<Batch<R>>, b: seq<Batch<R>>)
    ensures Flatten(a + b) == Flatten(a) + Flatten(b)
    decreases |a|
  {
    if a == [] {
      assert a + b == b;
    } else {
      assert (a + b)[0] == a[0];
      assert (a + b)[1..] == a[1..] + b;
      FlattenConcat(a[1..], b);
    }
  }

  /** What one turn of the loop makes of the window at `cursor`: a batch
      of the returned records, or the reason the loop is left. */
  datatype Turn<R> = Took(batch: Batch<R>) | Quit(stop: Stop<R>)

  /** The window at `cursor` is requested; a failed request or a reply
      without `entries` ends the loop, any other reply becomes a batch. */
  function WindowTurn<R>(answer: Replies<R>, cursor: int, treeSize: int): (t: Turn<R>)
    ensures var end := WindowEnd(cursor, treeSize);
      var reply := answer(GetEntries(cursor, end));
      && (t.Took? <==> reply.Parsed? && reply.doc.entries.Some?)
      && (t.Took? ==> t.batch == Batch(cursor, end, reply.doc.entries.value))
      && (t.Quit? ==> t.stop == if reply.Parsed? then BadData(cursor, end) else FetchFailed(cursor, end, reply))
  {
    var end := WindowEnd(cursor, treeSize);
    var reply := answer(GetEntries(cursor, end));
    if !reply.Parsed? then Quit(FetchFailed(cursor, end, reply))
    else if reply.doc.entries.None? then Quit(BadData(cursor, end))
    else Took(Batch(cursor, end, reply.doc.entries.value))
  }

  /** One turn's request: `ct_request` for the window at `cursor`, and the
      check of its reply for `entries`. */
  method RequestWindow<R>(net: Network<R>, maxTries: int, ghost answer: Replies<R>, cursor: int, treeSize: int)
    returns (t: Turn<R>)
    requires Serves(answer, net, maxTries)
    ensures t == WindowTurn(answer, cursor, treeSize)
  {
    var entryEnd := Min(cursor + BatchSpan, treeSize - 1);
    var data := Ask(net, GetEntries(cursor, entryEnd), maxTries);
    if !data.Parsed? {
      t := Quit(FetchFailed(cursor, entryEnd, data));
    } else if data.doc.entries.None? {
      t := Quit(BadData(cursor, entryEnd));
    } else {
      t := Took(Batch(cursor, entryEnd, data.doc.entries.value));
    }
  }

  /** The batch loop from `cursor` against a log of `treeSize` entries. */
  function Batches<R>(answer: Replies<R>, cursor: int, treeSize: int): Run<R>
    decreases if cursor < treeSize - 1 then treeSize - 1 - cursor else 0
  {
    if cursor >= treeSize - 1 then Run([], CaughtUp)
    else
      match WindowTurn(answer, cursor, treeSize)
      case Quit(stop) => Run([], stop)
      case Took(b) =>
        if |b.records| == 0 then Run([b], Stalled)
        else
          var rest := Batches(answer, cursor + |b.records|, treeSize);
          Run([b] + rest.batches, rest.stop)
  }

  /** Each batch starts where the previous one left the cursor. */
  predicate Chained<R>(bs: seq<Batch<R>>, cursor: int)
    decreases |bs|
  {
    bs == [] || (bs[0].start == cursor && Chained(bs[1..], cursor + |bs[0].records|))
  }

  /** Every window starts at the cursor as it stands when it is asked for. */
  lemma {:induction false} BatchesChained<R>(answer: Replies<R>, cursor: int, treeSize: int)
    ensures Chained(Batches(answer, cursor, treeSize).batches, cursor)
    decreases if cursor < treeSize - 1 then treeSize - 1 - cursor else 0
  {
    var run := Batches(answer, cursor, treeSize);
    if cursor < treeSize - 1 && |run.batches| > 1 {
      var n := |run.batches[0].records|;
      BatchesChained(answer, cursor + n, treeSize);
      assert run.batches[1..] == Batches(answer, cursor + n, treeSize).batches;
    }
  }

  /** Window bounds: a window is asked for only while the cursor is below
      tree_size - 1, it ends at min(start + 2000, tree_size - 1), so it
      never runs past the last entry and spans at most 2001 offsets, and its
      records are exactly the entries the log returned for it. */
  lemma {:induction false} BatchesWindows<R>(answer: Replies<R>, cursor: int, treeSize: int)
    ensures var bs := Batches(answer, cursor, treeSize).batches;
      forall i :: 0 <= i < |bs| ==>
        && bs[i].start < treeSize - 1
        && bs[i].end == WindowEnd(bs[i].start, treeSize)
        && bs[i].start < bs[i].end <= treeSize - 1
        && bs[i].end - bs[i].start <= BatchSpan
        && answer(GetEntries(bs[i].start, bs[i].end)).Parsed?
        && answer(GetEntries(bs[i].start, bs[i].end)).doc.entries == Some(bs[i].records)
    decreases if cursor < treeSize - 1 then treeSize - 1 - cursor else 0
  {
    var bs := Batches(answer, cursor, treeSize).batches;
    if cursor < treeSize - 1 && |bs| > 1 {
      var n := |bs[0].records|;
      BatchesWindows(answer, cursor + n, treeSize);
      assert bs[1..] == Batches(answer, cursor + n, treeSize).batches;
    }
  }

  lemma FlattenCons<R>(b: Batch<R>, bs: seq<Batch<R>>)
    ensures Flatten([b] + bs) == b.records + Flatten(bs)
  {
    assert ([b] + bs)[1..] == bs;
  }

  /** The loop stops normally exactly when the cursor reaches tree_size - 1
      or passes it; every other stop leaves the cursor below that. */
  lemma {:induction false} BatchesCaughtUp<R>(answer: Replies<R>, cursor: int, treeSize: int)
    ensures var run := Batches(answer, cursor, treeSize);
      run.stop.CaughtUp? <==> cursor + |Flatten(run.batches)| >= treeSize - 1
    decreases if cursor < treeSize - 1 then treeSize - 1 - cursor else 0
  {
    if cursor < treeSize - 1 {
      match WindowTurn(answer, cursor, treeSize)
      case Quit(stop) =>
      case Took(b) =>
        if |b.records| == 0 {
          FlattenOne(b);
        } else {
          BatchesCaughtUp(answer, cursor + |b.records|, treeSize);
          FlattenCons(b, Batches(answer, cursor + |b.records|, treeSize).batches);
        }
    }
  }

  /** Only the last batch can be empty, and an empty last batch is exactly a stall. */
  lemma {:induction false} BatchesStall<R>(answer: Replies<R>, cursor: int, treeSize: int)
    ensures var run := Batches(answer, cursor, treeSize);
      var bs := run.batches;
      && (forall i :: 0 <= i < |bs| - 1 ==> |bs[i].records| > 0)
      && (run.stop.Stalled? <==> bs != [] && |bs[|bs| - 1].records| == 0)
    decreases if cursor < treeSize - 1 then treeSize - 1 - cursor else 0
  {
    if cursor < treeSize - 1 {
      match WindowTurn(answer, cursor, treeSize)
      case Quit(stop) =>
      case Took(b) =>
        if |b.records| > 0 {
          var rest := Batches(answer, cursor + |b.records|, treeSize).batches;
          BatchesStall(answer, cursor + |b.records|, treeSize);
          assert forall i :: 1 <= i < 1 + |rest| ==> ([b] + rest)[i] == rest[i - 1];
        }
    }
  }

  /** A bad or failed reply ends the loop as the turn of the window at the
      final cursor, a window that is still below tree_size - 1. */
  lemma {:induction false} BatchesFailure<R>(answer: Replies<R>, cursor: int, treeSize: int)
    ensures var run := Batches(answer, cursor, treeSize);
      var last := cursor + |Flatten(run.batches)|;
      run.stop.BadData? || run.stop.FetchFailed? ==>
        last < treeSize - 1 && WindowTurn(answer, last, treeSize) == Quit(run.stop)
    decreases if cursor < treeSize - 1 then treeSize - 1 - cursor else 0
  {
    if cursor < treeSize - 1 {
      match WindowTurn(answer, cursor, treeSize)
      case Quit(stop) =>
      case Took(b) =>
        if |b.records| > 0 {
          BatchesFailure(answer, cursor + |b.records|, treeSize);
          FlattenCons(b, Batches(answer, cursor + |b.records|, treeSize).batches);
        }
    }
  }

  /** No window is asked for when the cursor is already at tree_size - 1 or past it. */
  lemma NoBatchWhenCaughtUp<R>(answer: Replies<R>, cursor: int, treeSize: int)
    requires treeSize <= cursor + 1
    ensures Batches(answer, cursor, treeSize) == Run([], CaughtUp)
  {
  }

  /** One unfolding of the batch loop, seen from its first batch. */
  lemma BatchesStep<R>(answer: Replies<R>, cursor: int, treeSize: int)
    requires Batches(answer, cursor, treeSize).batches != []
    ensures var run := Batches(answer, cursor, treeSize);
      var b := run.batches[0];
      var next := Batches(answer, cursor + |b.records|, treeSize);
      && b.start == cursor
      && (|b.records| == 0 ==> run.batches == [b] && run.stop.Stalled?)
      && (|b.records| > 0 ==> run.batches == [b] + next.batches && run.stop == next.stop)
  {
  }

  lemma FlattenOne<R>(b: Batch<R>)
    ensures Flatten([b]) == b.records
  {
    assert [b][1..] == [];
  }

  /** The batch loop as it runs, turn by turn: `done` are the batches of
      the turns so far and `cursor` is where they left the entries cursor. */
  function Loop<R>(answer: Replies<R>, cursor: int, treeSize: int, done: seq<Batch<R>>): Run<R>
    decreases if cursor < treeSize - 1 then treeSize - 1 - cursor else 0
  {
    if cursor >= treeSize - 1 then Run(done, CaughtUp)
    else
      match WindowTurn(answer, cursor, treeSize)
      case Quit(stop) => Run(done, stop)
      case Took(b) =>
        if |b.records| == 0 then Run(done + [b], Stalled)
        else Loop(answer, cursor + |b.records|, treeSize, done + [b])
  }

  /** One turn of Loop, by what the window at `cursor` gave. */
  lemma LoopTurn<R>(answer: Replies<R>, cursor: int, treeSize: int, done: seq<Batch<R>>)
    requires cursor < treeSize - 1
    ensures var t, l := WindowTurn(answer, cursor, treeSize), Loop(answer, cursor, treeSize, done);
      && (t.Quit? ==> l == Run(done, t.stop))
      && (t.Took? && |t.batch.records| == 0 ==> l == Run(done + [t.batch], Stalled))
      && (t.Took? && |t.batch.records| > 0 ==> l == Loop(answer, cursor + |t.batch.records|, treeSize, done + [t.batch]))
  {
  }

  /** The loop, turn by turn, ends with the batches already done followed by
      the batches of Batches from its cursor, and with the same stop. */
  lemma {:induction false} LoopIsBatches<R>(answer: Replies<R>, cursor: int, treeSize: int,
                                           done: seq<Batch<R>>)
    ensures var rest := Batches(answer, cursor, treeSize);
      Loop(answer, cursor, treeSize, done) == Run(done + rest.batches, rest.stop)
    decreases if cursor < treeSize - 1 then treeSize - 1 - cursor else 0
  {
    if cursor >= treeSize - 1 {
      assert done + [] == done;
    } else {
      match WindowTurn(answer, cursor, treeSize)
      case Quit(stop) =>
        assert done + [] == done;
      case Took(b) =>
        if |b.records| > 0 {
          var next := Batches(answer, cursor + |b.records|, treeSize);
          LoopIsBatches(answer, cursor + |b.records|, treeSize, done + [b]);
          assert done + [b] + next.batches == done + ([b] + next.batches);
        } else {
          assert done + [b] == done + [b] + [];
        }
    }
  }

  /** With no batches done yet, the loop run turn by turn is Batches. */
  lemma LoopFromStart<R>(answer: Replies<R>, cursor: int, treeSize: int)
    ensures Loop(answer, cursor, treeSize, []) == Batches(answer, cursor, treeSize)
  {
    LoopIsBatches(answer, cursor, treeSize, []);
    assert [] + Batches(answer, cursor, treeSize).batches == Batches(answer, cursor, treeSize).batches;
  }

  /** Appending batch `b` to the done batches extends the records and the trace by `b`'s. */
  lemma DoneGrows<R>(base: string, mf: string, df: string, shard0: seq<R>, io0: seq<Io<R>>,
                     done: seq<Batch<R>>, b: Batch<R>)
    ensures shard0 + Flatten(done) + b.records == shard0 + Flatten(done + [b])
    ensures |Flatten(done + [b])| == |Flatten(done)| + |b.records|
    ensures io0 + BatchesIo(base, mf, df, done) + BatchIo(base, mf, df, b) == io0 + BatchesIo(base, mf, df, done + [b])
  {
    FlattenSnoc(done, b);
    BatchesIoSnoc(base, mf, df, done, b);
  }

  lemma FlattenSnoc<R>(done: seq<Batch<R>>, b: Batch<R>)
    ensures Flatten(done + [b]) == Flatten(done) + b.records
  {
    FlattenConcat(done, [b]);
    FlattenOne(b);
  }

  lemma BatchesIoSnoc<R>(base: string, mf: string, df: string, done: seq<Batch<R>>, b: Batch<R>)
    ensures BatchesIo(base, mf, df, done + [b]) == BatchesIo(base, mf, df, done) + BatchIo(base, mf, df, b)
  {
    BatchesIoConcat(base, mf, df, done, [b]);
    assert [b][1..] == [];
    assert BatchesIo(base, mf, df, [b]) == BatchIo(base, mf, df, b) + [];
  }

  /** The three actions of a batch, logged one by one, are its BatchIo. */
  lemma BatchIoSteps<R>(t: seq<Io<R>>, base: string, mf: string, df: string, b: Batch<R>)
    ensures t + [Get(base, GetEntries(b.start, b.end))] + [Append(df, b.records)] + [WriteMeta(mf, b.start + |b.records|)]
      == t + BatchIo(base, mf, df, b)
  {
  }

  /** A second write to a key replaces the first. */
  lemma Overwrite<K, V>(m: map<K, V>, k: K, v1: V, v2: V)
    ensures m[k := v1][k := v2] == m[k := v2]
  {
  }

  /** Restart safety: if the loop from `cursor` fetches the batches `done`
      and then `rest`, a loop restarted from the cursor after `done` fetches
      exactly `rest` and stops the same way (unless `done` ended in a stall). */
  lemma {:induction false} BatchesResume<R>(answer: Replies<R>, cursor: int, treeSize: int,
                                           done: seq<Batch<R>>, rest: seq<Batch<R>>)
    requires Batches(answer, cursor, treeSize).batches == done + rest
    requires rest == [] ==> !Batches(answer, cursor, treeSize).stop.Stalled?
    ensures Batches(answer, cursor + |Flatten(done)|, treeSize)
      == Run(rest, Batches(answer, cursor, treeSize).stop)
    decreases |done|
  {
    if done == [] {
      assert done + rest == rest;
    } else {
      var b := done[0];
      assert (done + rest)[0] == b;
      BatchesStep(answer, cursor, treeSize);
      assert (done + rest)[1..] == done[1..] + rest;
      BatchesResume(answer, cursor + |b.records|, treeSize, done[1..], rest);
    }
  }

  // ---------------------------------------------------------------------
  // The whole pass
  // ---------------------------------------------------------------------

  /** How a pass ends: the get-sth request failed (the exception leaves
      `ct_sync`), its reply had no `tree_size`, the log already had as many
      entries as the cursor, or the batch loop ran. */
  datatype Outcome<R> =
    | SthFailed(reply: Reply<Doc<R>>)
    | NoTreeSize
    | AlreadySynced
    | Ran(treeSize: int, run: Run<R>)

  /** Specification of `ct_sync` for a log whose persisted cursor is `start`. */
  function Pass<R>(net: Network<R>, maxTries: int, start: int): Outcome<R>
  {
    var sth := Fetch(net, GetSth, maxTries);
    if !sth.Parsed? then SthFailed(sth)
    else if sth.doc.treeSize.None? then NoTreeSize
    else if sth.doc.treeSize.value == start then AlreadySynced
    else Ran(sth.doc.treeSize.value, Batches(Answers(net, maxTries), start, sth.doc.treeSize.value))
  }

  /** A pass whose get-sth reply carries a tree_size other than the cursor runs the batch loop. */
  lemma PassRuns<R>(net: Network<R>, maxTries: int, start: int, treeSize: int)
    requires Fetch(net, GetSth, maxTries).Parsed?
    requires Fetch(net, GetSth, maxTries).doc.treeSize == Some(treeSize) && treeSize != start
    ensures Pass(net, maxTries, start) == Ran(treeSize, Batches(Answers(net, maxTries), start, treeSize))
  {
  }

  function Fetched<R>(o: Outcome<R>): seq<Batch<R>>
  {
    if o.Ran? then o.run.batches else []
  }

  /** `nrecs` at the end of the pass, as records. */
  function NewRecords<R>(o: Outcome<R>): seq<R>
  {
    Flatten(Fetched(o))
  }

  /** The `if nrecs > 0` at the end of the pass, reached only when the loop ended normally. */
  predicate Compresses<R>(o: Outcome<R>)
  {
    o.Ran? && o.run.stop.CaughtUp? && |NewRecords(o)| > 0
  }

  // ---------------------------------------------------------------------
  // The I/O trace of a pass
  // ---------------------------------------------------------------------

  /** One network request (all of its attempts) to `Url(base, ep)`, one
      append to a data file, one overwrite of a meta file, one run of the
      compressor. By UrlInjective a request's endpoint and its URL determine
      each other. */
  datatype Io<R> =
    | Get(base: string, ep: Endpoint)
    | Append(file: string, records: seq<R>)
    | WriteMeta(file: string, entries: int)
    | Gzip(file: string)

  /** The actions of one completed batch: request, append, persist the cursor. */
  function BatchIo<R>(base: string, mf: string, df: string, b: Batch<R>): seq<Io<R>>
  {
    [Get(base, GetEntries(b.start, b.end)), Append(df, b.records), WriteMeta(mf, b.start + |b.records|)]
  }

  /** The actions of the batch loop, three for every batch. */
  function BatchesIo<R>(base: string, mf: string, df: string, bs: seq<Batch<R>>): (t: seq<Io<R>>)
    ensures |t| == 3 * |bs|
  {
    if bs == [] then [] else BatchIo(base, mf, df, bs[0]) + BatchesIo(base, mf, df, bs[1..])
  }

  lemma {:induction false} BatchesIoConcat<R>(base: string, mf: string, df: string, a: seq<Batch<R>>, b: seq<Batch<R>>)
    ensures BatchesIo(base, mf, df, a + b) == BatchesIo(base, mf, df, a) + BatchesIo(base, mf, df, b)
    decreases |a|
  {
    if a == [] {
      assert a + b == b;
    } else {
      assert (a + b)[0] == a[0];
      assert (a + b)[1..] == a[1..] + b;
      BatchesIoConcat(base, mf, df, a[1..], b);
    }
  }

  /** The request of the window the loop gave up on, if any. */
  function LoopExitIo<R>(base: string, stop: Stop<R>): seq<Io<R>>
  {
    match stop
    case CaughtUp => []
    case BadData(s, e) => [Get(base, GetEntries(s, e))]
    case FetchFailed(s, e, _) => [Get(base, GetEntries(s, e))]
    case Stalled => []
  }

  function StopIo<R>(base: string, df: string, stop: Stop<R>, nrecs: nat): seq<Io<R>>
  {
    LoopExitIo(base, stop) + (if stop.CaughtUp? && nrecs > 0 then [Gzip(df)] else [])
  }

  /** Everything a pass does, in order. */
  function PassIo<R>(base: string, mf: string, df: string, o: Outcome<R>): seq<Io<R>>
  {
    [Get(base, GetSth)]
    + (if o.Ran? then BatchesIo(base, mf, df, o.run.batches) + StopIo(base, df, o.run.stop, |NewRecords(o)|) else [])
  }

  /** The trace of a pass that reached the batch loop, in three parts. */
  lemma PassIoOfRan<R>(base: string, mf: string, df: string, treeSize: int, run: Run<R>, io0: seq<Io<R>>)
    ensures io0 + PassIo(base, mf, df, Ran(treeSize, run))
      == io0 + [Get(base, GetSth)] + BatchesIo(base, mf, df, run.batches)
         + StopIo(base, df, run.stop, |Flatten(run.batches)|)
  {
    var g, bio, sio := [Get(base, GetSth)], BatchesIo(base, mf, df, run.batches),
      StopIo(base, df, run.stop, |Flatten(run.batches)|);
    assert PassIo(base, mf, df, Ran(treeSize, run)) == g + (bio + sio);
    assert io0 + (g + (bio + sio)) == io0 + g + bio + sio;
  }

  /** The cursor a reader of meta file `mf` sees after the actions `t`. */
  function MetaAfter<R>(t: seq<Io<R>>, mf: string, cursor: int): int
  {
    if t == [] then cursor
    else MetaAfter(t[1..], mf, if t[0].WriteMeta? && t[0].file == mf then t[0].entries else cursor)
  }

  /** The records the actions `t` appended to data file `df`. */
  function AppendedTo<R>(t: seq<Io<R>>, df: string): seq<R>
  {
    if t == [] then [] else AppendedBy(t[0], df) + AppendedTo(t[1..], df)
  }

  function AppendedBy<R>(action: Io<R>, df: string): seq<R>
  {
    if action.Append? && action.file == df then action.records else []
  }

  lemma {:induction false} MetaAfterConcat<R>(a: seq<Io<R>>, b: seq<Io<R>>, mf: string, cursor: int)
    ensures MetaAfter(a + b, mf, cursor) == MetaAfter(b, mf, MetaAfter(a, mf, cursor))
    decreases |a|
  {
    if a == [] {
      assert a + b == b;
    } else {
      assert (a + b)[0] == a[0];
      assert (a + b)[1..] == a[1..] + b;
      MetaAfterConcat(a[1..], b, mf, if a[0].WriteMeta? && a[0].file == mf then a[0].entries else cursor);
    }
  }

  lemma {:induction false} AppendedToConcat<R>(a: seq<Io<R>>, b: seq<Io<R>>, df: string)
    ensures AppendedTo(a + b, df) == AppendedTo(a, df) + AppendedTo(b, df)
    decreases |a|
  {
    if a == [] {
      assert a + b == b;
      assert AppendedTo(a, df) + AppendedTo(b, df) == AppendedTo(b, df);
    } else {
      assert (a + b)[0] == a[0];
      assert (a + b)[1..] == a[1..] + b;
      AppendedToConcat(a[1..], b, df);
      var x, p, q := AppendedBy(a[0], df), AppendedTo(a[1..], df), AppendedTo(b, df);
      calc {
        AppendedTo(a + b, df);
        x + AppendedTo(a[1..] + b, df);
        x + (p + q);
        { assert x + (p + q) == (x + p) + q; }
        AppendedTo(a, df) + q;
      }
    }
  }

  lemma TraceConcat<R>(a: seq<Io<R>>, b: seq<Io<R>>, mf: string, df: string, cursor: int)
    ensures MetaAfter(a + b, mf, cursor) == MetaAfter(b, mf, MetaAfter(a, mf, cursor))
    ensures AppendedTo(a + b, df) == AppendedTo(a, df) + AppendedTo(b, df)
  {
    MetaAfterConcat(a, b, mf, cursor);
    AppendedToConcat(a, b, df);
  }

  /** One batch's actions append its records and then persist the cursor after them. */
  lemma BatchIoEffect<R>(base: string, mf: string, df: string, b: Batch<R>, cursor: int)
    ensures AppendedTo(BatchIo(base, mf, df, b), df) == b.records
    ensures MetaAfter(BatchIo(base, mf, df, b), mf, cursor) == b.start + |b.records|
    ensures AppendedTo(BatchIo(base, mf, df, b)[..2], df) == b.records
    ensures MetaAfter(BatchIo(base, mf, df, b)[..2], mf, cursor) == cursor
    ensures AppendedTo(BatchIo(base, mf, df, b)[..1], df) == []
    ensures MetaAfter(BatchIo(base, mf, df, b)[..1], mf, cursor) == cursor
  {
    var chunk := BatchIo(base, mf, df, b);
    var g, a, w := chunk[0], chunk[1], chunk[2];
    var v := b.start + |b.records|;
    assert chunk == [g, a, w];
    assert [g, a, w][1..] == [a, w] && [a, w][1..] == [w] && [w][1..] == [];
    assert [g, a][1..] == [a] && [a][1..] == [] && [g][1..] == [];
    assert AppendedTo([w], df) == [];
    assert AppendedTo([a], df) == b.records;
    assert AppendedTo([a, w], df) == b.records;
    assert MetaAfter([w], mf, cursor) == v;
    assert MetaAfter([a, w], mf, cursor) == v;
    assert MetaAfter([a], mf, cursor) == cursor;
    assert chunk[..2] == [g, a];
    assert chunk[..1] == [g];
  }

  /** After all batches the persisted cursor counts exactly the appended records. */
  lemma {:induction false} BatchesIoEffect<R>(base: string, mf: string, df: string, bs: seq<Batch<R>>, cursor: int)
    requires Chained(bs, cursor)
    ensures AppendedTo(BatchesIo(base, mf, df, bs), df) == Flatten(bs)
    ensures MetaAfter(BatchesIo(base, mf, df, bs), mf, cursor) == cursor + |Flatten(bs)|
    decreases |bs|
  {
    if bs != [] {
      var chunk, rest := BatchIo(base, mf, df, bs[0]), BatchesIo(base, mf, df, bs[1..]);
      var n := |bs[0].records|;
      assert BatchesIo(base, mf, df, bs) == chunk + rest;
      assert Flatten(bs) == bs[0].records + Flatten(bs[1..]);
      TraceConcat(chunk, rest, mf, df, cursor);
      BatchIoEffect(base, mf, df, bs[0], cursor);
      assert MetaAfter(chunk, mf, cursor) == cursor + n;
      BatchesIoEffect(base, mf, df, bs[1..], cursor + n);
    }
  }

  /** Crash safety: at every point of the batch loop's trace, the persisted
      cursor never claims more records than have been appended, so a
      restart may repeat records but never skips one. */
  lemma {:induction false} MetaNeverAhead<R>(base: string, mf: string, df: string, bs: seq<Batch<R>>, cursor: int, k: nat)
    requires Chained(bs, cursor)
    requires k <= |BatchesIo(base, mf, df, bs)|
    ensures var t := BatchesIo(base, mf, df, bs)[..k];
      MetaAfter(t, mf, cursor) <= cursor + |AppendedTo(t, df)|
    decreases |bs|
  {
    if bs != [] {
      var chunk, rest := BatchIo(base, mf, df, bs[0]), BatchesIo(base, mf, df, bs[1..]);
      var n := |bs[0].records|;
      assert BatchesIo(base, mf, df, bs) == chunk + rest;
      PrefixOfConcat(chunk, rest, k);
      BatchIoEffect(base, mf, df, bs[0], cursor);
      if k <= 3 {
        if k == 3 {
          assert chunk[..3] == chunk;
        } else if k == 0 {
          assert chunk[..0] == [];
        }
      } else {
        var r := rest[..k - 3];
        MetaNeverAhead(base, mf, df, bs[1..], cursor + n, k - 3);
        TraceConcat(chunk, r, mf, df, cursor);
        assert MetaAfter(r, mf, cursor + n) <= cursor + n + |AppendedTo(r, df)|;
      }
    }
  }

  /** The state a crash leaves behind after the first `k` actions of the
      batch loop: the meta file holds the cursor after the last completed
      batch, which is the start of the batch in flight, and the data file
      holds the records of every batch whose append has happened. */
  lemma CrashPoint<R>(base: string, mf: string, df: string, bs: seq<Batch<R>>, cursor: int, k: nat)
    requires Chained(bs, cursor)
    requires k <= |BatchesIo(base, mf, df, bs)|
    ensures k / 3 <= |bs| && (k + 1) / 3 <= |bs|
    ensures MetaAfter(BatchesIo(base, mf, df, bs)[..k], mf, cursor) == cursor + |Flatten(bs[..k / 3])|
    ensures AppendedTo(BatchesIo(base, mf, df, bs)[..k], df) == Flatten(bs[..(k + 1) / 3])
  {
    CrashMeta(base, mf, df, bs, cursor, k);
    CrashAppended(base, mf, df, bs, k);
  }

  lemma {:induction false} CrashMeta<R>(base: string, mf: string, df: string, bs: seq<Batch<R>>, cursor: int, k: nat)
    requires Chained(bs, cursor)
    requires k <= 3 * |bs|
    ensures MetaAfter(BatchesIo(base, mf, df, bs)[..k], mf, cursor) == cursor + |Flatten(bs[..k / 3])|
    decreases |bs|
  {
    if bs != [] {
      var chunk, rest := BatchIo(base, mf, df, bs[0]), BatchesIo(base, mf, df, bs[1..]);
      assert BatchesIo(base, mf, df, bs) == chunk + rest;
      PrefixOfConcat(chunk, rest, k);
      if k < 3 {
        MetaInFirstBatch(base, mf, df, bs, cursor, k);
      } else {
        var n := |bs[0].records|;
        CrashMeta(base, mf, df, bs[1..], cursor + n, k - 3);
        MetaAfterConcat(chunk, rest[..k - 3], mf, cursor);
        BatchIoWhole(base, mf, df, bs[0], cursor);
        assert chunk[..3] == chunk;
        CrashSplit(bs, k / 3);
        assert (k - 3) / 3 == k / 3 - 1;
      }
    }
  }

  lemma MetaInFirstBatch<R>(base: string, mf: string, df: string, bs: seq<Batch<R>>, cursor: int, k: nat)
    requires bs != [] && k < 3
    ensures MetaAfter(BatchIo(base, mf, df, bs[0])[..k], mf, cursor) == cursor + |Flatten(bs[..k / 3])|
  {
    BatchIoEffect(base, mf, df, bs[0], cursor);
    assert bs[..0] == [];
    assert BatchIo(base, mf, df, bs[0])[..0] == [];
  }

  lemma {:induction false} CrashAppended<R>(base: string, mf: string, df: string, bs: seq<Batch<R>>, k: nat)
    requires k <= 3 * |bs|
    ensures (k + 1) / 3 <= |bs|
    ensures AppendedTo(BatchesIo(base, mf, df, bs)[..k], df) == Flatten(bs[..(k + 1) / 3])
    decreases |bs|
  {
    if bs != [] {
      var chunk, rest := BatchIo(base, mf, df, bs[0]), BatchesIo(base, mf, df, bs[1..]);
      assert BatchesIo(base, mf, df, bs) == chunk + rest;
      PrefixOfConcat(chunk, rest, k);
      if k < 3 {
        AppendedInFirstBatch(base, mf, df, bs, k);
      } else {
        CrashAppended(base, mf, df, bs[1..], k - 3);
        AppendedToConcat(chunk, rest[..k - 3], df);
        BatchIoWhole(base, mf, df, bs[0], 0);
        assert chunk[..3] == chunk;
        CrashSplit(bs, (k + 1) / 3);
        assert (k - 3 + 1) / 3 == (k + 1) / 3 - 1;
      }
    }
  }

  lemma AppendedInFirstBatch<R>(base: string, mf: string, df: string, bs: seq<Batch<R>>, k: nat)
    requires bs != [] && k < 3
    ensures AppendedTo(BatchIo(base, mf, df, bs[0])[..k], df) == Flatten(bs[..(k + 1) / 3])
  {
    BatchIoEffect(base, mf, df, bs[0], 0);
    assert bs[..0] == [];
    assert BatchIo(base, mf, df, bs[0])[..0] == [];
    if k == 2 {
      assert bs[..1] == [bs[0]];
      FlattenOne(bs[0]);
    }
  }

  /** The whole of one batch's actions. */
  lemma BatchIoWhole<R>(base: string, mf: string, df: string, b: Batch<R>, cursor: int)
    ensures AppendedTo(BatchIo(base, mf, df, b), df) == b.records
    ensures MetaAfter(BatchIo(base, mf, df, b), mf, cursor) == b.start + |b.records|
  {
    BatchIoEffect(base, mf, df, b, cursor);
  }

  /** The first `j` batches are the first one and the first `j - 1` of the rest. */
  lemma CrashSplit<R>(bs: seq<Batch<R>>, j: nat)
    requires 1 <= j <= |bs|
    ensures Flatten(bs[..j]) == bs[0].records + Flatten(bs[1..][..j - 1])
  {
    assert bs[..j] == [bs[0]] + bs[1..][..j - 1];
    FlattenCons(bs[0], bs[1..][..j - 1]);
  }

  lemma PrefixOfConcat<T>(x: seq<T>, y: seq<T>, k: nat)
    requires k <= |x| + |y|
    ensures k <= |x| ==> (x + y)[..k] == x[..k]
    ensures k >= |x| ==> (x + y)[..k] == x + y[..k - |x|]
  {
  }

  /** The meta file is only written right after the shard append of the same batch. */
  lemma {:induction false} MetaFollowsAppend<R>(base: string, mf: string, df: string, bs: seq<Batch<R>>)
    ensures var t := BatchesIo(base, mf, df, bs);
      && (|t| > 0 ==> t[0].Get?)
      && forall i :: 0 <= i < |t| && t[i].WriteMeta? ==> 1 <= i && t[i - 1].Append? && t[i - 1].file == df
    decreases |bs|
  {
    if bs != [] {
      var chunk, rest := BatchIo(base, mf, df, bs[0]), BatchesIo(base, mf, df, bs[1..]);
      var t := BatchesIo(base, mf, df, bs);
      MetaFollowsAppend(base, mf, df, bs[1..]);
      assert t == chunk + rest;
      assert t[0] == chunk[0] && t[1] == chunk[1] && t[2] == chunk[2];
      assert chunk[0].Get? && chunk[1].Append? && chunk[1].file == df;
      forall i | 0 <= i < |t| && t[i].WriteMeta?
        ensures 1 <= i && t[i - 1].Append? && t[i - 1].file == df
      {
        if i >= 3 {
          assert t[i] == rest[i - 3];
          if i >= 4 {
            assert t[i - 1] == rest[i - 4];
          }
        }
      }
    }
  }

  lemma {:induction false} NoGzipInBatches<R>(base: string, mf: string, df: string, bs: seq<Batch<R>>)
    ensures forall i :: 0 <= i < |BatchesIo(base, mf, df, bs)| ==> !BatchesIo(base, mf, df, bs)[i].Gzip?
    decreases |bs|
  {
    if bs != [] {
      NoGzipInBatches(base, mf, df, bs[1..]);
      var chunk, rest := BatchIo(base, mf, df, bs[0]), BatchesIo(base, mf, df, bs[1..]);
      assert BatchesIo(base, mf, df, bs) == chunk + rest;
    }
  }

  /** The compressor runs at most once per pass, as its last action, on the
      pass's data file, and exactly when the loop ended normally with new records. */
  lemma GzipExactlyWhenNewRecords<R>(base: string, mf: string, df: string, o: Outcome<R>)
    ensures var t := PassIo(base, mf, df, o);
      && ((exists i :: 0 <= i < |t| && t[i].Gzip?) <==> Compresses(o))
      && (Compresses(o) ==> t[|t| - 1] == Gzip(df))
      && (forall i :: 0 <= i < |t| - 1 ==> !t[i].Gzip?)
  {
    var t := PassIo(base, mf, df, o);
    if o.Ran? {
      var bio := BatchesIo(base, mf, df, o.run.batches);
      NoGzipInBatches(base, mf, df, o.run.batches);
      assert t == [Get(base, GetSth)] + bio + StopIo(base, df, o.run.stop, |NewRecords(o)|);
      assert forall i :: 1 <= i < 1 + |bio| ==> t[i] == bio[i - 1];
      if Compresses(o) {
        assert t[|t| - 1].Gzip?;
      }
    }
  }

  // ---------------------------------------------------------------------
  // Properties of a pass
  // ---------------------------------------------------------------------

  /** A missing tree_size, a failed get-sth, or a tree_size equal to the
      cursor: no window is fetched, nothing is appended, the meta file is
      not written and nothing is compressed; only the get-sth request happens. */
  lemma EarlyExitDoesNothing<R>(net: Network<R>, maxTries: int, start: int, base: string, mf: string, df: string)
    requires var sth := Fetch(net, GetSth, maxTries);
      !sth.Parsed? || sth.doc.treeSize.None? || sth.doc.treeSize.value == start
    ensures var o := Pass(net, maxTries, start);
      Fetched(o) == [] && !Compresses(o) && PassIo(base, mf, df, o) == [Get(base, GetSth)]
  {
  }

  /** A pass that ended normally leaves nothing for an immediate second pass
      against the same log: that one fetches no window and compresses nothing. */
  lemma SecondPassIsIdle<R>(net: Network<R>, maxTries: int, start: int)
    requires Pass(net, maxTries, start).Ran? && Pass(net, maxTries, start).run.stop.CaughtUp?
    ensures var after := start + |NewRecords(Pass(net, maxTries, start))|;
      Fetched(Pass(net, maxTries, after)) == [] && !Compresses(Pass(net, maxTries, after))
  {
    var o := Pass(net, maxTries, start);
    BatchesCaughtUp(Answers(net, maxTries), start, o.treeSize);
  }

  /** The record at offset tree_size - 1 can be left for a later pass: a log
      one entry ahead of the cursor gets no window, yet the pass ends
      normally. The same holds for a log whose tree_size shrank below the
      cursor: the loop guard keeps the pass from asking for any window. */
  lemma LastEntryWaits<R>(net: Network<R>, maxTries: int, start: int, treeSize: int)
    requires Fetch(net, GetSth, maxTries).Parsed?
    requires Fetch(net, GetSth, maxTries).doc.treeSize == Some(treeSize)
    requires treeSize <= start + 1 && treeSize != start
    ensures Pass(net, maxTries, start) == Ran(treeSize, Run([], CaughtUp))
  {
  }

  /** A log that returns every entry of every window it is asked for. */
  ghost predicate AnswersInFull<R>(answer: Replies<R>)
  {
    forall s, e {:trigger answer(GetEntries(s, e))} :: s <= e ==>
      && answer(GetEntries(s, e)).Parsed?
      && answer(GetEntries(s, e)).doc.entries.Some?
      && |answer(GetEntries(s, e)).doc.entries.value| == e - s + 1
  }

  /** Against a log that answers in full, the loop takes consecutive windows
      of 2001 entries (the last one shorter), ends normally, and leaves the
      cursor at tree_size, or at tree_size - 1 when the final window ended
      one short of the last entry. */
  lemma {:induction false} FullWindowsCatchUp<R>(answer: Replies<R>, cursor: int, treeSize: int)
    requires AnswersInFull(answer)
    ensures var run := Batches(answer, cursor, treeSize);
      var last := cursor + |Flatten(run.batches)|;
      && run.stop.CaughtUp?
      && (cursor < treeSize - 1 ==> treeSize - 1 <= last <= treeSize)
      && (forall i :: 0 <= i < |run.batches| ==>
            |run.batches[i].records| == run.batches[i].end - run.batches[i].start + 1)
    decreases if cursor < treeSize - 1 then treeSize - 1 - cursor else 0
  {
    if cursor < treeSize - 1 {
      var end := WindowEnd(cursor, treeSize);
      var reply := answer(GetEntries(cursor, end));
      assert reply.Parsed? && reply.doc.entries.Some? && |reply.doc.entries.value| == end - cursor + 1;
      var b := Batch(cursor, end, reply.doc.entries.value);
      var rest := Batches(answer, end + 1, treeSize);
      FullWindowsCatchUp(answer, end + 1, treeSize);
      FlattenCons(b, rest.batches);
      assert Batches(answer, cursor, treeSize) == Run([b] + rest.batches, rest.stop);
      assert forall i :: 1 <= i < 1 + |rest.batches| ==> ([b] + rest.batches)[i] == rest.batches[i - 1];
    }
  }

  /** One full window at `cursor` followed by the rest of the loop. */
  lemma FullWindowStep<R>(answer: Replies<R>, cursor: int, treeSize: int)
    requires AnswersInFull(answer)
    requires cursor < treeSize - 1
    ensures var end := WindowEnd(cursor, treeSize);
      var rest := Batches(answer, end + 1, treeSize);
      && Batches(answer, cursor, treeSize).batches
           == [Batch(cursor, end, answer(GetEntries(cursor, end)).doc.entries.value)] + rest.batches
      && Batches(answer, cursor, treeSize).stop == rest.stop
  {
    var end := WindowEnd(cursor, treeSize);
    assert |answer(GetEntries(cursor, end)).doc.entries.value| == end - cursor + 1;
  }

  /** A log of 4500 entries mirrored from scratch: the windows are [0, 2000],
      [2001, 4001] and [4002, 4499], and the loop ends normally. */
  lemma FullLogOf4500<R>(answer: Replies<R>)
    requires AnswersInFull(answer)
    ensures var run := Batches(answer, 0, 4500);
      && |run.batches| == 3 && run.stop.CaughtUp?
      && run.batches[0].start == 0 && run.batches[0].end == 2000
      && run.batches[1].start == 2001 && run.batches[1].end == 4001
      && run.batches[2].start == 4002 && run.batches[2].end == 4499
      && |Flatten(run.batches)| == 4500
  {
    FullWindowStep(answer, 0, 4500);
    FullWindowStep(answer, 2001, 4500);
    FullWindowStep(answer, 4002, 4500);
    var r1, r2 := Batches(answer, 2001, 4500), Batches(answer, 4002, 4500);
    assert Batches(answer, 4500, 4500) == Run([], CaughtUp);
    var bs := Batches(answer, 0, 4500).batches;
    FlattenCons(bs[0], r1.batches);
    FlattenCons(r1.batches[0], r2.batches);
    FlattenCons(r2.batches[0], []);
    assert |answer(GetEntries(0, 2000)).doc.entries.value| == 2001;
    assert |answer(GetEntries(2001, 4001)).doc.entries.value| == 2001;
    assert |answer(GetEntries(4002, 4499)).doc.entries.value| == 498;
  }

  // ---------------------------------------------------------------------
  // The storage directory and the pass as a method
  // ---------------------------------------------------------------------

  /** The content of data file `df` in `files`; a missing file reads as empty. */
  function ShardIn<R>(files: map<string, seq<R>>, df: string): seq<R>
  {
    if df in files then files[df] else []
  }

  /** The files and the trace as they stand after the batches `done` of a
      loop that began at meta files `m0`, data files `d0` and trace `io0`
      with the shard holding `s0`: until the first batch nothing is written,
      after it the meta file holds the cursor and the shard the records. */
  ghost predicate Layout<R>(metas: map<string, int>, datas: map<string, seq<R>>, trace: seq<Io<R>>,
                      base: string, mf: string, df: string, cursor: int, done: seq<Batch<R>>,
                      m0: map<string, int>, d0: map<string, seq<R>>, s0: seq<R>, io0: seq<Io<R>>)
  {
    && metas == (if |done| == 0 then m0 else m0[mf := cursor])
    && datas == (if |done| == 0 then d0 else d0[df := s0 + Flatten(done)])
    && ShardIn(datas, df) == s0 + Flatten(done)
    && trace == io0 + BatchesIo(base, mf, df, done)
  }

  /** One more batch, appended and persisted as TakeWindow does, keeps the layout. */
  lemma LayoutStep<R>(metas: map<string, int>, datas: map<string, seq<R>>, trace: seq<Io<R>>,
                      base: string, mf: string, df: string, cursor: int, done: seq<Batch<R>>,
                      m0: map<string, int>, d0: map<string, seq<R>>, s0: seq<R>, io0: seq<Io<R>>,
                      b: Batch<R>)
    requires Layout(metas, datas, trace, base, mf, df, cursor, done, m0, d0, s0, io0)
    ensures Layout(metas[mf := cursor + |b.records|], datas[df := ShardIn(datas, df) + b.records],
                   trace + BatchIo(base, mf, df, b), base, mf, df, cursor + |b.records|, done + [b], m0, d0, s0, io0)
    ensures |Flatten(done + [b])| == |Flatten(done)| + |b.records|
  {
    DoneGrows(base, mf, df, s0, io0, done, b);
    if |done| > 0 {
      Overwrite(d0, df, s0 + Flatten(done), s0 + Flatten(done + [b]));
      Overwrite(m0, mf, cursor, cursor + |b.records|);
    }
  }

  /** The storage directory of the CT source. */
  class Store<R> {
    /** Meta files by name, each holding the persisted `entries` cursor. */
    var metaFiles: map<string, int>
    /** Data files by name, each holding the records appended to it (one JSON line each). */
    var dataFiles: map<string, seq<R>>
    /** Every request, append, meta write and compression, in order. */
    var io: seq<Io<R>>

    constructor ()
      ensures metaFiles == map[] && dataFiles == map[] && io == []
    {
      metaFiles, dataFiles, io := map[], map[], [];
    }

    /** The entries cursor a pass loads from the log's meta file; 0 without one. */
    function Cursor(logName: string): int
      reads this
    {
      var mf := MetaFileName(logName);
      if mf in metaFiles then metaFiles[mf] else 0
    }

    /** Current content of a data file; opening a missing one for append creates it empty. */
    function Shard(df: string): seq<R>
      reads this
    {
      ShardIn(dataFiles, df)
    }

    /** One `ct_sync` pass for the log named `logName` at `logBase`, against the log `net`. */
    method Sync(logName: string, logBase: string, net: Network<R>, maxTries: int) returns (out: Outcome<R>)
      modifies this
      ensures out == Pass(net, maxTries, old(Cursor(logName)))
      ensures metaFiles == if |Fetched(out)| == 0 then old(metaFiles)
        else old(metaFiles)[MetaFileName(logName) := old(Cursor(logName)) + |NewRecords(out)|]
      ensures var df := DataFileName(logName, old(Cursor(logName)));
        dataFiles == if |Fetched(out)| == 0 then old(dataFiles)
          else old(dataFiles)[df := old(Shard(df)) + NewRecords(out)]
      ensures io == old(io) + PassIo(logBase, MetaFileName(logName), DataFileName(logName, old(Cursor(logName))), out)
    {
      var c0 := Cursor(logName);
      var mf := MetaFileName(logName);
      var df := DataFileName(logName, c0);
      ghost var s0 := Shard(df);

      io := io + [Get(logBase, GetSth)];
      var sth := Ask(net, GetSth, maxTries);
      if !sth.Parsed? {
        out := SthFailed(sth);
        assert io == old(io) + PassIo(logBase, mf, df, out);
        return;
      }
      if sth.doc.treeSize.None? {
        out := NoTreeSize;
        assert io == old(io) + PassIo(logBase, mf, df, out);
        return;
      }
      var treeSize := sth.doc.treeSize.value;
      if treeSize == c0 {
        out := AlreadySynced;
        assert io == old(io) + PassIo(logBase, mf, df, out);
        return;
      }

      var run := Catchup(logBase, mf, df, net, maxTries, Answers(net, maxTries), c0, treeSize);
      out := Ran(treeSize, run);
      PassRuns(net, maxTries, c0, treeSize);
      assert Fetched(out) == run.batches && NewRecords(out) == Flatten(run.batches);
      PassIoOfRan(logBase, mf, df, treeSize, run, old(io));
    }

    /** The batch loop from cursor `c0`, then the compression of the data
        file when the loop ended normally and fetched records. */
    method Catchup(logBase: string, mf: string, df: string, net: Network<R>, maxTries: int, ghost answer: Replies<R>,
                   c0: int, treeSize: int) returns (run: Run<R>)
      requires Serves(answer, net, maxTries)
      modifies this
      ensures run == Batches(answer, c0, treeSize)
      ensures metaFiles == if |run.batches| == 0 then old(metaFiles)
                           else old(metaFiles)[mf := c0 + |Flatten(run.batches)|]
      ensures dataFiles == if |run.batches| == 0 then old(dataFiles)
                           else old(dataFiles)[df := old(Shard(df)) + Flatten(run.batches)]
      ensures io == old(io) + BatchesIo(logBase, mf, df, run.batches)
                    + StopIo(logBase, df, run.stop, |Flatten(run.batches)|)
    {
      var nrecs;
      run, nrecs := SyncBatches(logBase, mf, df, net, maxTries, answer, c0, treeSize);
      LoopFromStart(answer, c0, treeSize);
      if nrecs > 0 && run.stop.CaughtUp? {
        io := io + [Gzip(df)];
      }
    }

    /** One turn of the batch loop: request the window at `cursor`; if the
        reply carries entries, append them to the data file and then
        overwrite the meta file with the advanced cursor. */
    method TakeWindow(logBase: string, mf: string, df: string, net: Network<R>, maxTries: int, ghost answer: Replies<R>,
                      cursor: int, treeSize: int) returns (t: Turn<R>)
      requires Serves(answer, net, maxTries)
      modifies this
      ensures t == WindowTurn(answer, cursor, treeSize)
      ensures t.Quit? ==> metaFiles == old(metaFiles) && dataFiles == old(dataFiles)
                          && io == old(io) + LoopExitIo(logBase, t.stop)
      ensures t.Took? ==>
                && metaFiles == old(metaFiles)[mf := cursor + |t.batch.records|]
                && dataFiles == old(dataFiles)[df := ShardIn(old(dataFiles), df) + t.batch.records]
                && io == old(io) + BatchIo(logBase, mf, df, t.batch)
    {
      t := RequestWindow(net, maxTries, answer, cursor, treeSize);
      io := io + [Get(logBase, GetEntries(cursor, WindowEnd(cursor, treeSize)))];
      if t.Quit? {
        return;
      }
      var records := t.batch.records;
      BatchIoSteps(old(io), logBase, mf, df, t.batch);
      dataFiles := dataFiles[df := Shard(df) + records];
      io := io + [Append(df, records)];
      metaFiles := metaFiles[mf := cursor + |records|];
      io := io + [WriteMeta(mf, cursor + |records|)];
    }

    /** The batch loop of `ct_sync`, from cursor `c0` against a log of
        `treeSize` entries, with meta file `mf` and data file `df`. An
        exception in `ct_request` or a reply without entries leaves the
        loop; `fail` then ends the pass, so no compression follows. */
    method SyncBatches(logBase: string, mf: string, df: string, net: Network<R>, maxTries: int, ghost answer: Replies<R>,
                       c0: int, treeSize: int) returns (run: Run<R>, nrecs: nat)
      requires Serves(answer, net, maxTries)
      modifies this
      ensures run == Loop(answer, c0, treeSize, [])
      ensures nrecs == |Flatten(run.batches)|
      ensures metaFiles == if |run.batches| == 0 then old(metaFiles) else old(metaFiles)[mf := c0 + nrecs]
      ensures dataFiles == if |run.batches| == 0 then old(dataFiles)
                           else old(dataFiles)[df := old(Shard(df)) + Flatten(run.batches)]
      ensures io == old(io) + BatchesIo(logBase, mf, df, run.batches) + LoopExitIo(logBase, run.stop)
    {
      ghost var s0, m0, d0, io0 := Shard(df), metaFiles, dataFiles, io;
      assert s0 + Flatten([]) == s0;
      var cursor := c0;
      var done: seq<Batch<R>> := [];
      nrecs := 0;
      while cursor < treeSize - 1
        invariant cursor == c0 + nrecs && nrecs == |Flatten(done)|
        invariant Loop(answer, cursor, treeSize, done) == Loop(answer, c0, treeSize, [])
        invariant Layout(metaFiles, dataFiles, io, logBase, mf, df, cursor, done, m0, d0, s0, io0)
        decreases treeSize - 1 - cursor
      {
        ghost var metas, datas, trace := metaFiles, dataFiles, io;
        var t := TakeWindow(logBase, mf, df, net, maxTries, answer, cursor, treeSize);
        LoopTurn(answer, cursor, treeSize, done);
        if t.Quit? {
          return Run(done, t.stop), nrecs;
        }
        LayoutStep(metas, datas, trace, logBase, mf, df, cursor, done, m0, d0, s0, io0, t.batch);
        cursor := cursor + |t.batch.records|;
        nrecs := nrecs + |t.batch.records|;
        done := done + [t.batch];
        if |t.batch.records| == 0 {
          return Run(done, Stalled), nrecs;
        }
      }
      run := Run(done, CaughtUp);
    }
  }
}
