/** Resuming a finished run (sft_generator.py): the records one run of
    `generate_sft_async` appends are found again by the loader of the next
    run, so a second run over the same questions generates nothing for any
    non-empty question. */
module Rerun {
  import opened Text
  import opened JsonValue
  import opened SftRecord
  import opened Retry
  import opened Checkpoint
  import opened OutputSink
  import opened Resume
  import opened Scheduler

  /** The records of a complete run carry exactly the non-empty remaining
      questions as their instructions. */
  lemma RunInstructions(remaining: seq<string>, ccfg: CallConfig, attempts: nat -> nat -> Attempt,
                        order: seq<nat>, q: string)
    requires IsOrdering(order, |remaining|)
    ensures q in Instructions(RecordsOf(remaining, ccfg, attempts, order)) <==> q != "" && q in remaining
  {
    var recs := RecordsOf(remaining, ccfg, attempts, order);
    if q in Instructions(recs) {
      var i :| 0 <= i < |recs| && recs[i].instruction != "" && recs[i].instruction == q;
      RecordsOfAt(remaining, ccfg, attempts, order, i);
      assert remaining[order[i]] == q;
    }
    if q != "" && q in remaining {
      var p :| 0 <= p < |remaining| && remaining[p] == q;
      assert p in order;
      var i :| 0 <= i < |order| && order[i] == p;
      RecordsOfAt(remaining, ccfg, attempts, order, i);
      assert recs[i].instruction == q;
    }
  }

  /** Filtering the questions a second time, by a set that holds the first
      filter's set and every non-empty question that survived it, leaves
      only empty questions. */
  lemma {:induction false} RemainingTwice(questions: seq<string>, processed: set<string>, again: set<string>)
    requires forall q :: q in again <==> q in processed || (q != "" && q in Remaining(questions, processed))
    ensures forall i :: 0 <= i < |Remaining(questions, again)| ==> Remaining(questions, again)[i] == ""
  {
    var rem, rem2 := Remaining(questions, processed), Remaining(questions, again);
    forall i | 0 <= i < |rem2| ensures rem2[i] == "" {
      var q := rem2[i];
      assert q !in again;
      assert multiset(rem2)[q] > 0;
      assert multiset(questions)[q] > 0;
      assert q !in processed;
      assert multiset(rem)[q] > 0;
      assert q in rem;
    }
  }

  /** What the second loader finds in the file the first run left. */
  lemma {:induction false} LoadedAgain(cfg: GenConfig, present: bool, content: string, parse: string -> Option<Val>, recs: seq<Record>)
    requires DecodesRecords(parse)
    requires cfg.resume && (!present ==> content == [])
    ensures var again := ProcessedAtStart(cfg, true, Appended(BaseText(cfg, content), recs), parse);
      && (Run(Effects(FileLines(content), parse)).Some? ==>
            again == ProcessedAtStart(cfg, present, content, parse) + Instructions(recs))
      && (Run(Effects(FileLines(content), parse)).None? ==> again == {})
  {
    ReadAfterFlush(content, recs, parse);
    LoadedThen(cfg, present, content, parse, Appended(content, recs), Instructions(recs));
  }

  /** The loaded set of a file whose lines read as those of the old file
      together with a set of added instructions. */
  lemma LoadedThen(cfg: GenConfig, present: bool, content: string, parse: string -> Option<Val>,
                   after: string, added: set<string>)
    requires cfg.resume && (!present ==> content == [])
    requires Run(Effects(FileLines(after), parse)) == Both(Run(Effects(FileLines(content), parse)), Some(added))
    ensures var again := ProcessedAtStart(cfg, true, after, parse);
      && (Run(Effects(FileLines(content), parse)).Some? ==>
            again == ProcessedAtStart(cfg, present, content, parse) + added)
      && (Run(Effects(FileLines(content), parse)).None? ==> again == {})
  {
    if !present {
      EmptyFileReadsNothing(parse);
    }
  }

  /** A resumed run whose file was readable, followed by a second resumed
      run over the file it left: the second run loads what the first one
      loaded together with every non-empty question the first generated,
      so its remaining questions are all empty strings. A file the first
      loader gave up on is still given up on. */
  lemma SecondRunSkipsDone(cfg: GenConfig, questions: seq<string>, present: bool, content: string,
                           parse: string -> Option<Val>, attempts: nat -> nat -> Attempt, order: seq<nat>)
    requires DecodesRecords(parse)
    requires cfg.resume && (!present ==> content == [])
    requires var processed := ProcessedAtStart(cfg, present, content, parse);
      IsOrdering(order, |Remaining(questions, processed)|)
    ensures var processed := ProcessedAtStart(cfg, present, content, parse);
      var rem := Remaining(questions, processed);
      var after := Appended(BaseText(cfg, content), RecordsOf(rem, CallConfigOf(cfg), attempts, order));
      var again := ProcessedAtStart(cfg, true, after, parse);
      && (Run(Effects(FileLines(content), parse)).Some? ==>
            (forall q :: q in again <==> q in processed || (q != "" && q in rem))
            && (forall i :: 0 <= i < |Remaining(questions, again)| ==> Remaining(questions, again)[i] == ""))
      && (Run(Effects(FileLines(content), parse)).None? ==> again == {})
  {
    var processed := ProcessedAtStart(cfg, present, content, parse);
    var rem := Remaining(questions, processed);
    var recs := RecordsOf(rem, CallConfigOf(cfg), attempts, order);
    var again := ProcessedAtStart(cfg, true, Appended(BaseText(cfg, content), recs), parse);
    LoadedAgain(cfg, present, content, parse, recs);
    if Run(Effects(FileLines(content), parse)).Some? {
      forall q ensures q in again <==> q in processed || (q != "" && q in rem) {
        RunInstructions(rem, CallConfigOf(cfg), attempts, order, q);
      }
      RemainingTwice(questions, processed, again);
    }
  }
}
