/** The output file of the generator (sft_generator.py) and the way
    buffered records are appended to it: `_file_needs_leading_newline` and
    `_flush_results`. The file is its text; an absent file is `present ==
    false` with no text. Records are written with `json.dumps` one per line,
    separated by "\n", with no newline after the last one. */
module OutputSink {
  import opened Text
  import opened SftRecord

  /** The file's last character is not a line terminator. Under UTF-8 a
      byte "\n" or "\r" is always that character, so checking the last
      character is checking the last byte. */
  predicate NeedsLeadingNewline(content: string) {
    content != [] && !IsLineBreak(content[|content| - 1])
  }

  /** The encoded lines of a batch of records, in order. */
  function EncodeAll(recs: seq<Record>): (lines: seq<string>)
    ensures |lines| == |recs|
  {
    if recs == [] then [] else EncodeAll(recs[..|recs| - 1]) + [EncodeRecord(recs[|recs| - 1])]
  }

  /** The i-th line is the i-th record's encoding. */
  lemma {:induction false} EncodeAllAt(recs: seq<Record>, i: nat)
    requires i < |recs|
    ensures EncodeAll(recs)[i] == EncodeRecord(recs[i])
  {
    if i < |recs| - 1 {
      EncodeAllAt(recs[..|recs| - 1], i);
    }
  }

  /** What `_flush_results` writes before the i-th record of a batch
      appended to `content`: the leading newline (when needed) before the
      first, "\n" between records. */
  function Separator(content: string, i: nat): string {
    if i > 0 then "\n" else if NeedsLeadingNewline(content) then "\n" else ""
  }

  /** The text of the file after a batch of records has been appended to
      `content`. */
  function Appended(content: string, recs: seq<Record>): (t: string)
    decreases |recs|
  {
    if recs == [] then content
    else
      var init := recs[..|recs| - 1];
      Appended(content, init) + Separator(content, |init|) + EncodeRecord(recs[|recs| - 1])
  }

  /** One more record: its separator and its line after the text so far. */
  lemma AppendedStep(content: string, recs: seq<Record>, i: nat)
    requires i < |recs|
    ensures Appended(content, recs[..i + 1]) == Appended(content, recs[..i]) + Separator(content, i) + EncodeRecord(recs[i])
    ensures i == 0 ==> Appended(content, recs[..i]) == content
  {
    assert recs[..i + 1][..i] == recs[..i];
  }

  /** The output file. */
  class OutputFile {
    var present: bool
    var content: string

    ghost predicate Valid()
      reads this
    {
      !present ==> content == []
    }

    constructor (present: bool, content: string)
      requires !present ==> content == []
      ensures Valid()
      ensures this.present == present && this.content == content
    {
      this.present := present;
      this.content := content;
    }

    /** `_file_needs_leading_newline`: false for a missing or empty file,
        otherwise true exactly when the last character is neither "\n" nor "\r". */
    method NeedsNewline() returns (b: bool)
      requires Valid()
      ensures b <==> present && |content| > 0 && content[|content| - 1] != '\n' && content[|content| - 1] != '\r'
      ensures b == (present && NeedsLeadingNewline(content))
    {
      if !present || |content| == 0 {
        return false;
      }
      var last := content[|content| - 1];
      b := last != '\n' && last != '\r';
    }

    /** `open(path, "a")`: creates the file when it is missing. */
    method OpenForAppend()
      modifies this
      ensures present && content == old(content)
    {
      present := true;
    }

    /** `f.write(s)` on a file opened for appending. */
    method Write(s: string)
      requires present
      modifies this
      ensures present && content == old(content) + s
    {
      content := content + s;
    }

    /** Removing the file (`os.remove`). */
    method Remove()
      modifies this
      ensures !present && content == []
    {
      present := false;
      content := [];
    }
  }

  /** The list of records waiting to be written. */
  class RecordBuffer {
    var items: seq<Record>

    constructor ()
      ensures items == []
    {
      items := [];
    }

    /** `results_buffer.append(rec)` */
    method Push(r: Record)
      modifies this
      ensures items == old(items) + [r]
    {
      items := items + [r];
    }
  }

  /** `_flush_results`: an empty buffer leaves the file as it was (and does
      not create it); otherwise a newline is written first when the file
      does not end with a line terminator, then the records separated by
      "\n", and the buffer is cleared. */
  method FlushResults(out: OutputFile, buffer: RecordBuffer)
    requires out.Valid()
    modifies out, buffer
    ensures out.Valid()
    ensures out.content == Appended(old(out.content), old(buffer.items))
    ensures out.present == (old(out.present) || old(buffer.items) != [])
    ensures buffer.items == []
  {
    if buffer.items == [] {
      return;
    }
    ghost var before := out.content;
    var lead := out.NeedsNewline();
    assert lead == NeedsLeadingNewline(before);
    out.OpenForAppend();
    if lead {
      out.Write("\n");
    }
    var items := buffer.items;
    var idx := 0;
    while idx < |items|
      invariant 0 <= idx <= |items|
      invariant out.present
      invariant idx == 0 ==> out.content == before + Separator(before, 0)
      invariant idx > 0 ==> out.content == Appended(before, items[..idx])
    {
      AppendedStep(before, items, idx);
      if idx > 0 {
        out.Write("\n");
      }
      assert out.content == Appended(before, items[..idx]) + Separator(before, idx);
      out.Write(EncodeRecord(items[idx]));
      idx := idx + 1;
    }
    assert items[..idx] == items;
    buffer.items := [];
  }

  /** Appending keeps the old text as a prefix, and after a non-empty batch
      the file ends with the last record's closing brace: no newline after
      it, so the next batch starts with one. */
  lemma {:induction false} AppendedShape(content: string, recs: seq<Record>)
    ensures var t := Appended(content, recs);
      && |content| <= |t| && t[..|content|] == content
      && (recs != [] ==> t[|t| - 1] == '}' && NeedsLeadingNewline(t))
    decreases |recs|
  {
    if recs != [] {
      var init := recs[..|recs| - 1];
      AppendedShape(content, init);
      EncodeRecordShape(recs[|recs| - 1]);
      var a := Appended(content, init);
      var t := a + Separator(content, |init|) + EncodeRecord(recs[|recs| - 1]);
      assert t[..|a|] == a;
      assert t[..|content|] == a[..|content|];
    }
  }

  /** Two flushes in a row write the same text as one flush of both
      batches: the framing never doubles or drops a separator. */
  lemma {:induction false} AppendedBatches(content: string, a: seq<Record>, b: seq<Record>)
    ensures Appended(Appended(content, a), b) == Appended(content, a + b)
    decreases |b|
  {
    if b == [] {
      assert a + b == a;
    } else {
      var b' := b[..|b| - 1];
      assert (a + b)[..|a + b| - 1] == a + b';
      assert (a + b)[|a + b| - 1] == b[|b| - 1];
      AppendedBatches(content, a, b');
      if a != [] && b' == [] {
        AppendedShape(content, a);
      }
    }
  }

  /** A non-empty batch is the optional leading newline followed by the
      records' lines joined with "\n". */
  lemma {:induction false} AppendedJoined(content: string, recs: seq<Record>)
    requires recs != []
    ensures Appended(content, recs) == content + Separator(content, 0) + Join(EncodeAll(recs), "\n")
    decreases |recs|
  {
    var init := recs[..|recs| - 1];
    if init == [] {
      AppendedJoinedOne(content, recs);
    } else {
      AppendedJoined(content, init);
      AppendedJoinedStep(content, recs);
    }
  }

  lemma AppendedJoinedOne(content: string, recs: seq<Record>)
    requires |recs| == 1
    ensures Appended(content, recs) == content + Separator(content, 0) + Join(EncodeAll(recs), "\n")
  {
    assert recs[..0] == [];
    assert EncodeAll(recs) == [EncodeRecord(recs[0])];
  }

  lemma AppendedJoinedStep(content: string, recs: seq<Record>)
    requires |recs| > 1
    requires var init := recs[..|recs| - 1];
      Appended(content, init) == content + Separator(content, 0) + Join(EncodeAll(init), "\n")
    ensures Appended(content, recs) == content + Separator(content, 0) + Join(EncodeAll(recs), "\n")
  {
    var init := recs[..|recs| - 1];
    var e := EncodeRecord(recs[|recs| - 1]);
    var lead := content + Separator(content, 0);
    var j := Join(EncodeAll(init), "\n");
    var nl := Separator(content, |init|);
    assert nl == "\n";
    assert Appended(content, recs) == Appended(content, init) + nl + e;
    assert EncodeAll(recs) == EncodeAll(init) + [e];
    JoinSnoc(EncodeAll(init), e, "\n");
    assert Join(EncodeAll(recs), "\n") == j + nl + e;
    ConcatAssoc(lead, j, nl);
    ConcatAssoc(lead, j + nl, e);
    assert Appended(content, recs) == lead + (j + nl + e);
  }
}
