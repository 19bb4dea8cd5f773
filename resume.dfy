/** Resuming from the output file (sft_generator.py): what
    `_load_existing_records` finds in a file that `_flush_results` has
    appended to. The only thing assumed of `json.loads` is that it decodes
    a line written by `json.dumps` of a record back into that record. */
module Resume {
  import opened Text
  import opened JsonValue
  import opened SftRecord
  import opened Checkpoint
  import opened OutputSink

  /** The decoded form of a record: an object with its three string fields. */
  function RecordValue(r: Record): Val {
    Obj(map["instruction" := Str(r.instruction), "input" := Str(r.input), "output" := Str(r.output)])
  }

  /** `json.loads(json.dumps(record))` gives the record back. */
  ghost predicate DecodesRecords(parse: string -> Option<Val>) {
    forall r :: parse(EncodeRecord(r)) == Some(RecordValue(r))
  }

  /** The instructions a batch of records contributes to the loaded set. */
  function Instructions(recs: seq<Record>): set<string> {
    set i | 0 <= i < |recs| && recs[i].instruction != "" :: recs[i].instruction
  }

  /** A written record line is not blank, decodes to an object, and
      contributes its instruction when that is not empty. */
  lemma EncodedLineEffect(r: Record, parse: string -> Option<Val>)
    requires DecodesRecords(parse)
    ensures LineEffectOf(EncodeRecord(r), parse) == (if r.instruction != "" then Add(r.instruction) else Skip)
  {
    var line := EncodeRecord(r);
    EncodeRecordShape(r);
    StripOfTrimmed(line);
    assert parse(line) == Some(RecordValue(r));
  }

  lemma InstructionsSnoc(recs: seq<Record>, r: Record)
    ensures Instructions(recs + [r]) == Instructions(recs) + (if r.instruction != "" then {r.instruction} else {})
  {
    var s := recs + [r];
    forall x | x in Instructions(s) ensures x in Instructions(recs) + (if r.instruction != "" then {r.instruction} else {}) {
      var i :| 0 <= i < |s| && s[i].instruction != "" && s[i].instruction == x;
      if i < |recs| {
        assert s[i] == recs[i];
      }
    }
    forall x | x in Instructions(recs) ensures x in Instructions(s) {
      var i :| 0 <= i < |recs| && recs[i].instruction != "" && recs[i].instruction == x;
      assert s[i] == recs[i];
    }
    if r.instruction != "" {
      assert s[|recs|] == r;
    }
  }

  /** Reading back a batch of written lines gives exactly its non-empty
      instructions, and never makes the loader give up. */
  lemma {:induction false} RunEncoded(recs: seq<Record>, parse: string -> Option<Val>)
    requires DecodesRecords(parse)
    ensures Run(Effects(EncodeAll(recs), parse)) == Some(Instructions(recs))
  {
    if recs == [] {
      assert Effects(EncodeAll(recs), parse) == [];
      assert Instructions(recs) == {};
    } else {
      var init, r := recs[..|recs| - 1], recs[|recs| - 1];
      assert recs == init + [r];
      RunEncoded(init, parse);
      assert [r][..0] == [];
      assert EncodeAll([r]) == [EncodeRecord(r)];
      assert EncodeAll(recs) == EncodeAll(init) + EncodeAll([r]);
      EffectsAppend(EncodeAll(init), EncodeAll([r]), parse);
      RunAppend(Effects(EncodeAll(init), parse), Effects(EncodeAll([r]), parse));
      EncodedLineEffect(r, parse);
      var e := LineEffectOf(EncodeRecord(r), parse);
      assert Effects(EncodeAll([r]), parse) == [e];
      assert Run([e]) == Step(Some({}), e);
      InstructionsSnoc(init, r);
      if r.instruction == "" {
        assert Instructions(init) + {} == Instructions(init);
      }
    }
  }

  /** A file ending with a line terminator reads as the text before the
      terminator followed by one blank line. */
  lemma TrailingBreak(c: string, parse: string -> Option<Val>)
    requires c != [] && IsLineBreak(c[|c| - 1])
    ensures Run(Effects(FileLines(c), parse)) == Run(Effects(FileLines(c[..|c| - 1]), parse))
  {
    var ls := FileLines(c[..|c| - 1]);
    FileLinesTrailing(c);
    EffectsSnocBlank(ls, parse);
    var es := Effects(ls, parse);
    RunSnocSkip(es);
  }

  /** The lines of an empty file read as nothing. */
  lemma EmptyFileReadsNothing(parse: string -> Option<Val>)
    ensures Run(Effects(FileLines([]), parse)) == Some({})
  {
    EffectsSnocBlank([], parse);
    assert FileLines([]) == [] + [""];
    RunSnocSkip([]);
  }

  /** Text, a terminator, and the written lines: the two halves are read
      independently. */
  lemma ReadAcrossBreak(c: string, b: char, recs: seq<Record>, parse: string -> Option<Val>)
    requires IsLineBreak(b) && recs != []
    requires DecodesRecords(parse)
    ensures Run(Effects(FileLines(c + [b] + Join(EncodeAll(recs), "\n")), parse))
            == Both(Run(Effects(FileLines(c), parse)), Some(Instructions(recs)))
  {
    var lines := EncodeAll(recs);
    WrittenLines(recs);
    FileLinesBreak(c, b, Join(lines, "\n"));
    EffectsAppend(FileLines(c), lines, parse);
    RunAppend(Effects(FileLines(c), parse), Effects(lines, parse));
    RunEncoded(recs, parse);
  }

  /** The written lines are read back one by one. */
  lemma WrittenLines(recs: seq<Record>)
    requires recs != []
    ensures FileLines(Join(EncodeAll(recs), "\n")) == EncodeAll(recs)
  {
    var lines := EncodeAll(recs);
    forall k | 0 <= k < |lines| ensures NoLineBreak(lines[k]) {
      EncodeRecordShape(recs[k]);
      EncodeAllAt(recs, k);
    }
    FileLinesJoin(lines);
  }

  /** Reading the file after a flush: what could be read before, together
      with the flushed records' non-empty instructions. The leading newline
      makes sure the first new record never merges with the old last line. */
  lemma ReadAfterFlush(c: string, recs: seq<Record>, parse: string -> Option<Val>)
    requires DecodesRecords(parse)
    ensures Run(Effects(FileLines(Appended(c, recs)), parse))
            == Both(Run(Effects(FileLines(c), parse)), Some(Instructions(recs)))
  {
    var before := Run(Effects(FileLines(c), parse));
    if recs == [] {
      assert Instructions(recs) == {};
      if before.Some? {
        assert before.value + {} == before.value;
      }
    } else {
      AppendedJoined(c, recs);
      ReadJoined(c, recs, parse);
    }
  }

  /** The same, for the text a non-empty flush leaves: the old text, the
      leading newline when it is needed, and the joined record lines. */
  lemma ReadJoined(c: string, recs: seq<Record>, parse: string -> Option<Val>)
    requires DecodesRecords(parse) && recs != []
    ensures Run(Effects(FileLines(c + Separator(c, 0) + Join(EncodeAll(recs), "\n")), parse))
            == Both(Run(Effects(FileLines(c), parse)), Some(Instructions(recs)))
  {
    var j := Join(EncodeAll(recs), "\n");
    if c == [] {
      assert c + Separator(c, 0) + j == j;
      WrittenLines(recs);
      RunEncoded(recs, parse);
      EmptyFileReadsNothing(parse);
      assert {} + Instructions(recs) == Instructions(recs);
    } else if NeedsLeadingNewline(c) {
      assert c + Separator(c, 0) + j == c + ['\n'] + j;
      ReadAcrossBreak(c, '\n', recs, parse);
    } else {
      var c' := c[..|c| - 1];
      assert c + Separator(c, 0) + j == c' + [c[|c| - 1]] + j;
      ReadAcrossBreak(c', c[|c| - 1], recs, parse);
      TrailingBreak(c, parse);
    }
  }
}
