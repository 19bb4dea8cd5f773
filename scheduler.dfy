/** `generate_sft_async` (sft_generator.py): the parameter checks, the
    resume filter and the scheduling loop. The questions are `remaining`;
    a position p < |remaining| stands for the task of `remaining[p]`. The
    free cache holds positions in the order they were drawn, `inflight` is
    the set of running tasks, and `asyncio.wait(..., FIRST_COMPLETED)` is an
    oracle `pick` that names, for the current set of running tasks, a
    non-empty selection of them that has finished (in the order the `for`
    loop visits them). The remote model is the oracle `attempts`: attempt k
    of the task at position p has outcome `attempts(p)(k)`. */
module Scheduler {
  import opened Text
  import opened JsonValue
  import opened SftRecord
  import opened Retry
  import opened Checkpoint
  import opened OutputSink

  /** The options of `generate_sft_async` the core reads. */
  datatype GenConfig = GenConfig(
    batchSize: int, saveEvery: int, resume: bool, includeCot: bool,
    thinkTag: string, maxRetries: int, concurrency: int)

  /** How a run ends: a ValueError for a bad parameter, or the final
      `total_processed`. */
  datatype RunResult = Rejected(message: string) | Finished(total: nat)

  function CallConfigOf(cfg: GenConfig): CallConfig {
    CallConfig(cfg.includeCot, cfg.thinkTag, cfg.maxRetries)
  }

  /** The three parameter checks, in order; the message of the ValueError. */
  function CheckParams(cfg: GenConfig): (err: Option<string>)
    ensures err.None? <==> cfg.concurrency > 0 && cfg.batchSize > 0 && cfg.saveEvery > 0
  {
    if cfg.concurrency <= 0 then Some("concurrency must be greater than 0")
    else if cfg.batchSize <= 0 then Some("batch_size must be greater than 0")
    else if cfg.saveEvery <= 0 then Some("save_every must be greater than 0")
    else None
  }

  /** `[q for q in questions if q not in processed_set]`: every question not
      already processed, as often as it occurs; repeated questions are not
      merged. */
  function Remaining(questions: seq<string>, processed: set<string>): (r: seq<string>)
    ensures forall i :: 0 <= i < |r| ==> r[i] !in processed
    ensures forall q :: multiset(r)[q] == if q in processed then 0 else multiset(questions)[q]
  {
    if questions == [] then []
    else
      var rest := Remaining(questions[1..], processed);
      assert questions == [questions[0]] + questions[1..];
      if questions[0] in processed then rest else [questions[0]] + rest
  }

  /** The filter keeps the questions' order. */
  lemma {:induction false} RemainingInOrder(questions: seq<string>, processed: set<string>)
    ensures IsSubsequence(Remaining(questions, processed), questions)
  {
    if questions != [] {
      RemainingInOrder(questions[1..], processed);
      var rest := Remaining(questions[1..], processed);
      if questions[0] !in processed {
        assert ([questions[0]] + rest)[1..] == rest;
      }
    }
  }

  /** The positions from..to-1, in order. */
  function Span(from: nat, to: nat): (ps: seq<nat>)
    requires from <= to
    ensures |ps| == to - from
    ensures forall i :: 0 <= i < |ps| ==> ps[i] == from + i
  {
    seq(to - from, i requires 0 <= i < to - from => from + i)
  }

  predicate Distinct(s: seq<nat>) {
    forall i, j :: 0 <= i < j < |s| ==> s[i] != s[j]
  }

  /** What `asyncio.wait` may return as done: some of the running tasks,
      at least one, each once. */
  predicate IsCompletion(done: seq<nat>, running: set<nat>) {
    done != [] && Distinct(done) && forall i :: 0 <= i < |done| ==> done[i] in running
  }

  /** Every position below n, each exactly once. */
  predicate IsOrdering(order: seq<nat>, n: nat) {
    && |order| == n && Distinct(order)
    && (forall i :: 0 <= i < |order| ==> order[i] < n)
    && (forall p: nat :: p < n ==> p in order)
  }

  /** `set(pending)`: the running tasks that are not among the finished ones. */
  function Pending(running: set<nat>, done: seq<nat>): (r: set<nat>)
    ensures forall p :: p in r <==> p in running && p !in done
  {
    set p | p in running && p !in done
  }

  /** The record the task at position p gives. */
  function RecordOf(remaining: seq<string>, ccfg: CallConfig, attempts: nat -> nat -> Attempt, p: nat): Record
    requires p < |remaining|
  {
    CallResult(remaining[p], ccfg, attempts(p))
  }

  /** The records of the tasks at positions `ps`, in that order. */
  function RecordsOf(remaining: seq<string>, ccfg: CallConfig, attempts: nat -> nat -> Attempt, ps: seq<nat>): (rs: seq<Record>)
    requires forall i :: 0 <= i < |ps| ==> ps[i] < |remaining|
    ensures |rs| == |ps|
  {
    if ps == [] then []
    else RecordsOf(remaining, ccfg, attempts, ps[..|ps| - 1]) + [RecordOf(remaining, ccfg, attempts, ps[|ps| - 1])]
  }

  /** The i-th record is the one the i-th position's task gives. */
  lemma {:induction false} RecordsOfAt(remaining: seq<string>, ccfg: CallConfig, attempts: nat -> nat -> Attempt, ps: seq<nat>, i: nat)
    requires forall i :: 0 <= i < |ps| ==> ps[i] < |remaining|
    requires i < |ps|
    ensures RecordsOf(remaining, ccfg, attempts, ps)[i] == RecordOf(remaining, ccfg, attempts, ps[i])
  {
    if i < |ps| - 1 {
      RecordsOfAt(remaining, ccfg, attempts, ps[..|ps| - 1], i);
    }
  }

  lemma {:induction false} RecordsOfAppend(remaining: seq<string>, ccfg: CallConfig, attempts: nat -> nat -> Attempt, a: seq<nat>, b: seq<nat>)
    requires forall i :: 0 <= i < |a| ==> a[i] < |remaining|
    requires forall i :: 0 <= i < |b| ==> b[i] < |remaining|
    ensures forall i :: 0 <= i < |a + b| ==> (a + b)[i] < |remaining|
    ensures RecordsOf(remaining, ccfg, attempts, a + b)
            == RecordsOf(remaining, ccfg, attempts, a) + RecordsOf(remaining, ccfg, attempts, b)
    decreases |b|
  {
    forall i | 0 <= i < |a + b| ensures (a + b)[i] < |remaining| {
      if i >= |a| { assert (a + b)[i] == b[i - |a|]; }
    }
    if b == [] {
      assert a + b == a;
    } else {
      var b' := b[..|b| - 1];
      assert (a + b)[..|a + b| - 1] == a + b';
      assert (a + b)[|a + b| - 1] == b[|b| - 1];
      RecordsOfAppend(remaining, ccfg, attempts, a, b');
    }
  }

  /** `fill_cache`: draws the next positions until the cache holds
      `batch_size` of them or `remaining` is used up. */
  method FillCache(n: nat, batchSize: int, cache: seq<nat>, next: nat) returns (cache': seq<nat>, next': nat)
    requires next <= n
    ensures next <= next' <= n
    ensures cache' == cache + Span(next, next')
    ensures |cache'| >= batchSize || next' == n
    ensures |cache| <= batchSize ==> |cache'| <= batchSize
    ensures |cache| >= batchSize ==> next' == next
  {
    cache', next' := cache, next;
    while |cache'| < batchSize
      invariant next <= next' <= n
      invariant cache' == cache + Span(next, next')
      invariant |cache| <= batchSize ==> |cache'| <= batchSize
      invariant |cache| >= batchSize ==> next' == next
      decreases n - next'
    {
      if next' >= n {
        break;
      }
      cache' := cache' + [next'];
      next' := next' + 1;
    }
  }

  /** The dispatch loop: moves positions from the front of the cache into
      the running set until the cache is empty or `concurrency` tasks run. */
  method Dispatch(concurrency: int, cache: seq<nat>, inflight: set<nat>) returns (cache': seq<nat>, inflight': set<nat>)
    ensures |cache'| <= |cache| && cache' == cache[|cache| - |cache'|..]
    ensures forall p :: p in inflight' <==> p in inflight || p in cache[..|cache| - |cache'|]
    ensures cache' == [] || |inflight'| >= concurrency
    ensures |inflight| <= concurrency ==> |inflight'| <= concurrency
    ensures |inflight| >= concurrency ==> cache' == cache
    ensures Distinct(cache) && (forall i :: 0 <= i < |cache| ==> cache[i] !in inflight) ==>
              |inflight'| == |inflight| + (|cache| - |cache'|)
  {
    cache', inflight' := cache, inflight;
    ghost var unseen := Distinct(cache) && (forall i :: 0 <= i < |cache| ==> cache[i] !in inflight);
    while |inflight'| < concurrency && cache' != []
      invariant |cache'| <= |cache| && cache' == cache[|cache| - |cache'|..]
      invariant forall p :: p in inflight' <==> p in inflight || p in cache[..|cache| - |cache'|]
      invariant |inflight| <= concurrency ==> |inflight'| <= concurrency
      invariant |inflight| >= concurrency ==> cache' == cache
      invariant cache' == cache ==> inflight' == inflight
      invariant unseen ==> |inflight'| == |inflight| + (|cache| - |cache'|)
      decreases |cache'|
    {
      var m := |cache| - |cache'|;
      var p := cache'[0];
      assert p == cache[m];
      assert cache[..m + 1] == cache[..m] + [p];
      if unseen {
        assert p !in cache[..m];
        assert p !in inflight';
      }
      cache' := cache'[1..];
      inflight' := inflight' + {p};
    }
  }

  /** The `for task in done` loop: each finished task's record is appended
      to the buffer and counted. */
  method Complete(remaining: seq<string>, ccfg: CallConfig, attempts: nat -> nat -> Attempt,
                  done: seq<nat>, buffer: RecordBuffer, total: nat) returns (total': nat)
    requires forall i :: 0 <= i < |done| ==> done[i] < |remaining|
    modifies buffer
    ensures buffer.items == old(buffer.items) + RecordsOf(remaining, ccfg, attempts, done)
    ensures total' == total + |done|
  {
    total' := total;
    for i := 0 to |done|
      invariant buffer.items == old(buffer.items) + RecordsOf(remaining, ccfg, attempts, done[..i])
      invariant total' == total + i
    {
      var p := done[i];
      var rec, _ := CallOne(remaining[p], ccfg, attempts(p));
      buffer.Push(rec);
      total' := total' + 1;
      assert done[..i + 1][..i] == done[..i];
      assert RecordsOf(remaining, ccfg, attempts, done[..i + 1])
             == RecordsOf(remaining, ccfg, attempts, done[..i]) + [rec];
    }
    assert done[..|done|] == done;
  }

  /** The scheduler's state, `next - |cache|` being the number of
      positions started so far: the cache holds the positions drawn but not
      yet started, in order; every started position is either running or
      finished, never both, and finished positions are recorded once each. */
  ghost predicate SchedState(n: nat, next: nat, cache: seq<nat>, inflight: set<nat>, order: seq<nat>) {
    && next <= n && |cache| <= next
    && cache == Span(next - |cache|, next)
    && Distinct(order)
    && (forall i :: 0 <= i < |order| ==> order[i] < next - |cache| && order[i] !in inflight)
    && (forall p :: p in inflight ==> p < next - |cache|)
    && (forall p: nat :: p < next - |cache| ==> p in inflight || p in order)
    && |order| + |inflight| == next - |cache|
  }

  lemma FillKeeps(n: nat, next: nat, cache: seq<nat>, inflight: set<nat>, order: seq<nat>, cache': seq<nat>, next': nat)
    requires SchedState(n, next, cache, inflight, order)
    requires next <= next' <= n && cache' == cache + Span(next, next')
    ensures SchedState(n, next', cache', inflight, order)
  {
    assert cache' == Span(next - |cache|, next');
  }

  lemma DispatchKeeps(n: nat, next: nat, cache: seq<nat>, inflight: set<nat>, order: seq<nat>, cache': seq<nat>, inflight': set<nat>)
    requires SchedState(n, next, cache, inflight, order)
    requires |cache'| <= |cache| && cache' == cache[|cache| - |cache'|..]
    requires forall p :: p in inflight' <==> p in inflight || p in cache[..|cache| - |cache'|]
    requires Distinct(cache) && (forall i :: 0 <= i < |cache| ==> cache[i] !in inflight) ==>
               |inflight'| == |inflight| + (|cache| - |cache'|)
    ensures SchedState(n, next, cache', inflight', order)
  {
    var started := next - |cache|;
    var m := |cache| - |cache'|;
    assert forall i :: 0 <= i < |cache| ==> cache[i] !in inflight;
    assert cache' == Span(started + m, next);
    forall p | p in inflight' ensures p < started + m {
      if p !in inflight {
        var i :| 0 <= i < m && cache[..m][i] == p;
      }
    }
    forall p: nat | p < started + m ensures p in inflight' || p in order {
      if p >= started {
        assert cache[..m][p - started] == p;
      }
    }
  }

  lemma {:induction false} PendingCard(s: set<nat>, d: seq<nat>)
    requires Distinct(d) && forall i :: 0 <= i < |d| ==> d[i] in s
    ensures |Pending(s, d)| == |s| - |d|
  {
    if d != [] {
      var d', x := d[..|d| - 1], d[|d| - 1];
      assert d == d' + [x];
      PendingCard(s, d');
      assert x !in d';
      assert Pending(s, d) == Pending(s, d') - {x};
    } else {
      assert Pending(s, d) == s;
    }
  }

  lemma CompleteKeeps(n: nat, next: nat, cache: seq<nat>, inflight: set<nat>, order: seq<nat>, done: seq<nat>)
    requires SchedState(n, next, cache, inflight, order)
    requires IsCompletion(done, inflight)
    ensures SchedState(n, next, cache, Pending(inflight, done), order + done)
  {
    PendingCard(inflight, done);
    var o := order + done;
    forall i, j | 0 <= i < j < |o| ensures o[i] != o[j] {
      if i < |order| && j >= |order| {
        assert o[j] == done[j - |order|];
      } else if i >= |order| {
        assert o[i] == done[i - |order|] && o[j] == done[j - |order|];
      }
    }
    forall i | 0 <= i < |o| ensures o[i] < next - |cache| && o[i] !in Pending(inflight, done) {
      if i >= |order| {
        assert o[i] == done[i - |order|];
      }
    }
    forall p: nat | p < next - |cache| ensures p in Pending(inflight, done) || p in o {
      if p in order {
        var i :| 0 <= i < |order| && order[i] == p;
        assert o[i] == p;
      } else if p in done {
        var i :| 0 <= i < |done| && done[i] == p;
        assert o[|order| + i] == p;
      }
    }
  }

  /** `if not inflight` after the dispatch loop: cannot happen, because the
      dispatch loop starts at least one task whenever the cache is not
      empty and `concurrency` is positive. */
  lemma RunningAfterDispatch(concurrency: int, cache: seq<nat>, inflight: set<nat>, cache': seq<nat>, inflight': set<nat>)
    requires concurrency > 0 && (inflight != {} || cache != [])
    requires |cache'| <= |cache|
    requires forall p :: p in inflight' <==> p in inflight || p in cache[..|cache| - |cache'|]
    requires cache' == [] || |inflight'| >= concurrency
    ensures inflight' != {}
  {
    if inflight != {} {
      var p :| p in inflight;
      assert p in inflight';
    } else if cache' == [] {
      assert cache[..|cache|][0] == cache[0];
      assert cache[0] in inflight';
    }
  }

  /** The loaded set and the text the new records are appended to, for a
      run that passed the parameter checks. */
  function ProcessedAtStart(cfg: GenConfig, present: bool, content: string, parse: string -> Option<Val>): (s: set<string>)
    ensures !cfg.resume || !present ==> s == {}
  {
    if cfg.resume && present then Loaded(Lines(FileLines(content)), parse) else {}
  }

  function BaseText(cfg: GenConfig, content: string): string {
    if cfg.resume then content else []
  }

  /** The scheduling loop of `generate_sft_async` and the final flush, from
      an empty cache, nothing running and an empty buffer: every position
      of `remaining` is dispatched exactly once, and the file grows by all
      the records in the order the tasks finished. */
  method Schedule(cfg: GenConfig, remaining: seq<string>, out: OutputFile,
                  attempts: nat -> nat -> Attempt, pick: set<nat> -> seq<nat>, existing: nat)
    returns (total: nat, ghost order: seq<nat>)
    requires out.Valid()
    requires cfg.concurrency > 0 && cfg.batchSize > 0 && cfg.saveEvery > 0
    requires forall running :: running != {} ==> IsCompletion(pick(running), running)
    modifies out
    ensures out.Valid()
    ensures IsOrdering(order, |remaining|)
    ensures out.content == Appended(old(out.content), RecordsOf(remaining, CallConfigOf(cfg), attempts, order))
    ensures total == existing + |remaining|
  {
    var n := |remaining|;
    var ccfg := CallConfigOf(cfg);
    ghost var base := out.content;
    var next := 0;
    var cache: seq<nat> := [];
    var inflight: set<nat> := {};
    var buffer := new RecordBuffer();
    total := existing;
    ghost var flushed: seq<Record> := [];
    order := [];
    assert SchedState(n, next, cache, inflight, order);
    var cache', next' := FillCache(n, cfg.batchSize, cache, next);
    FillKeeps(n, next, cache, inflight, order, cache', next');
    cache, next := cache', next';
    while inflight != {} || cache != []
      invariant SchedState(n, next, cache, inflight, order)
      invariant |inflight| <= cfg.concurrency
      invariant |cache| <= cfg.batchSize
      invariant cache == [] ==> next == n
      invariant out.Valid() && out.content == Appended(base, flushed)
      invariant flushed + buffer.items == RecordsOf(remaining, ccfg, attempts, order)
      invariant total == existing + |order|
      decreases n - |order|
    {
      var n1, c1, f1, done := Advance(n, cfg, next, cache, inflight, pick, order);
      next, cache, inflight := n1, c1, f1;
      total, flushed := Collect(remaining, ccfg, attempts, order, done, out, buffer, cfg.saveEvery, base, flushed, total);
      order := order + done;
    }
    FinishedIsOrdering(n, next, cache, inflight, order);
    AppendedBatches(base, flushed, buffer.items);
    flushed := flushed + buffer.items;
    FlushResults(out, buffer);
  }

  /** When the loop stops, with nothing cached and nothing running, every
      position has finished exactly once. */
  lemma FinishedIsOrdering(n: nat, next: nat, cache: seq<nat>, inflight: set<nat>, order: seq<nat>)
    requires SchedState(n, next, cache, inflight, order)
    requires inflight == {} && cache == [] && next == n
    ensures IsOrdering(order, n)
  {
  }

  /** One turn of the scheduling loop apart from the records: the dispatch
      loop, `asyncio.wait` (`if not inflight` is dead code there), and
      `fill_cache`. The finished positions `done` join `order`. */
  method Advance(n: nat, cfg: GenConfig, next: nat, cache: seq<nat>, inflight: set<nat>,
                 pick: set<nat> -> seq<nat>, ghost order: seq<nat>)
    returns (next': nat, cache': seq<nat>, inflight': set<nat>, done: seq<nat>)
    requires cfg.concurrency > 0 && cfg.batchSize > 0
    requires forall running :: running != {} ==> IsCompletion(pick(running), running)
    requires SchedState(n, next, cache, inflight, order)
    requires |inflight| <= cfg.concurrency && |cache| <= cfg.batchSize
    requires cache == [] ==> next == n
    requires inflight != {} || cache != []
    ensures SchedState(n, next', cache', inflight', order + done)
    ensures |inflight'| <= cfg.concurrency && |cache'| <= cfg.batchSize
    ensures cache' == [] ==> next' == n
    ensures done != [] && forall i :: 0 <= i < |done| ==> done[i] < n
  {
    var c1, f1 := Dispatch(cfg.concurrency, cache, inflight);
    DispatchKeeps(n, next, cache, inflight, order, c1, f1);
    RunningAfterDispatch(cfg.concurrency, cache, inflight, c1, f1);
    if f1 == {} {
      // `if not inflight: fill_cache(); ...` is dead code
      assert false;
    }
    done := pick(f1);
    CompleteKeeps(n, next, c1, f1, order, done);
    inflight' := Pending(f1, done);
    assert forall i :: 0 <= i < |done| ==> done[i] < n by {
      forall i | 0 <= i < |done| ensures done[i] < n {
        assert (order + done)[|order| + i] == done[i];
      }
    }
    cache', next' := FillCache(n, cfg.batchSize, c1, next);
    FillKeeps(n, next, c1, inflight', order + done, cache', next');
  }

  /** The rest of one turn of the scheduling loop: the finished tasks'
      records join the buffer in the order they are visited, and a full
      buffer is flushed. What is in the file and the buffer together is
      always the records of the finished tasks, in order. */
  method Collect(remaining: seq<string>, ccfg: CallConfig, attempts: nat -> nat -> Attempt,
                 ghost order: seq<nat>, done: seq<nat>, out: OutputFile, buffer: RecordBuffer,
                 saveEvery: int, ghost base: string, ghost flushed: seq<Record>, total: nat)
    returns (total': nat, ghost flushed': seq<Record>)
    requires saveEvery > 0
    requires forall i :: 0 <= i < |order| ==> order[i] < |remaining|
    requires forall i :: 0 <= i < |done| ==> done[i] < |remaining|
    requires out.Valid() && out.content == Appended(base, flushed)
    requires flushed + buffer.items == RecordsOf(remaining, ccfg, attempts, order)
    modifies out, buffer
    ensures forall i :: 0 <= i < |order + done| ==> (order + done)[i] < |remaining|
    ensures out.Valid() && out.content == Appended(base, flushed')
    ensures flushed' + buffer.items == RecordsOf(remaining, ccfg, attempts, order + done)
    ensures |buffer.items| < saveEvery
    ensures total' == total + |done|
  {
    ghost var items := buffer.items;
    total' := Complete(remaining, ccfg, attempts, done, buffer, total);
    RecordsOfAppend(remaining, ccfg, attempts, order, done);
    ConcatAssoc(flushed, items, RecordsOf(remaining, ccfg, attempts, done));
    flushed' := SaveIfFull(out, buffer, saveEvery, base, flushed);
  }

  /** `if len(results_buffer) >= save_every: _flush_results(...)`: a full
      buffer is moved to the file, a buffer below the threshold stays. */
  method SaveIfFull(out: OutputFile, buffer: RecordBuffer, saveEvery: int, ghost base: string, ghost flushed: seq<Record>)
    returns (ghost flushed': seq<Record>)
    requires out.Valid() && out.content == Appended(base, flushed)
    modifies out, buffer
    ensures out.Valid() && out.content == Appended(base, flushed')
    ensures flushed' + buffer.items == flushed + old(buffer.items)
    ensures |old(buffer.items)| >= saveEvery ==> buffer.items == []
    ensures |old(buffer.items)| < saveEvery ==> buffer.items == old(buffer.items)
  {
    flushed' := flushed;
    if |buffer.items| >= saveEvery {
      AppendedBatches(base, flushed, buffer.items);
      flushed' := flushed + buffer.items;
      FlushResults(out, buffer);
    }
  }

  /** `generate_sft_async`. Bad parameters are rejected before anything
      else happens. Otherwise every remaining question is dispatched exactly
      once, the file ends up holding, after what was kept of it, every
      record in the order the tasks finished, nothing stays in the buffer,
      and the final count is the number loaded plus the number generated. */
  method GenerateSft(cfg: GenConfig, questions: seq<string>, out: OutputFile,
                     parse: string -> Option<Val>, attempts: nat -> nat -> Attempt,
                     pick: set<nat> -> seq<nat>)
    returns (result: RunResult, ghost remaining: seq<string>, ghost order: seq<nat>)
    requires out.Valid()
    requires forall running :: running != {} ==> IsCompletion(pick(running), running)
    modifies out
    ensures out.Valid()
    ensures CheckParams(cfg).Some? ==>
              result == Rejected(CheckParams(cfg).value) && out.present == old(out.present) && out.content == old(out.content)
    ensures CheckParams(cfg).None? ==>
              var processed := ProcessedAtStart(cfg, old(out.present), old(out.content), parse);
              && remaining == Remaining(questions, processed)
              && IsOrdering(order, |remaining|)
              && out.content == Appended(BaseText(cfg, old(out.content)), RecordsOf(remaining, CallConfigOf(cfg), attempts, order))
    ensures CheckParams(cfg).None? ==>
              result == Finished(|ProcessedAtStart(cfg, old(out.present), old(out.content), parse)| + |remaining|)
  {
    var err := CheckParams(cfg);
    if err.Some? {
      return Rejected(err.value), [], [];
    }
    var processed := OpenOutput(cfg, out, parse);
    ghost var atStart := ProcessedAtStart(cfg, old(out.present), old(out.content), parse);
    var rem := Remaining(questions, processed);
    var n := |processed|;
    remaining := rem;
    var total;
    total, order := Schedule(cfg, rem, out, attempts, pick, n);
    assert total == |atStart| + |remaining|;
    result := Finished(total);
  }

  /** `if resume and os.path.exists(output_file)`: the instructions already
      in the file are loaded and new records go after its text; `elif not
      resume and ...`: the file is removed and new records start an empty
      one. */
  method OpenOutput(cfg: GenConfig, out: OutputFile, parse: string -> Option<Val>) returns (processed: set<string>)
    requires out.Valid()
    modifies out
    ensures out.Valid()
    ensures processed == ProcessedAtStart(cfg, old(out.present), old(out.content), parse)
    ensures out.content == BaseText(cfg, old(out.content))
    ensures cfg.resume ==> out.present == old(out.present)
    ensures !cfg.resume ==> !out.present
  {
    processed := {};
    if cfg.resume && out.present {
      processed := LoadExistingRecords(Lines(FileLines(out.content)), parse);
    } else if !cfg.resume && out.present {
      out.Remove();
    }
  }
}
