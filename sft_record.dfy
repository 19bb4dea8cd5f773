/** The result record of the generator (sft_generator.py): how a record is
    built from the model's text, how the answer and the reasoning trace are
    composed into its output, and how one record is serialised as a single
    JSON line (`json.dumps(record, ensure_ascii=False)`). */
module SftRecord {
  import opened Text

  /** `{"instruction": ..., "input": ..., "output": ...}` */
  datatype Record = Record(instruction: string, input: string, output: string)

  const EmptySentinel: string := "[EMPTY]"
  const ErrorSentinel: string := "[ERROR]"

  /** `_make_record`: the input field is always empty and an empty output
      text is replaced by the `[EMPTY]` sentinel, so no record ever has a
      blank output. */
  function MakeRecord(q: string, outputText: string): (r: Record)
    ensures r.instruction == q && r.input == ""
    ensures r.output != ""
    ensures outputText != "" ==> r.output == outputText
    ensures outputText == "" ==> r.output == EmptySentinel
  {
    Record(q, "", if outputText != "" then outputText else EmptySentinel)
  }

  /** `<tag>cot</tag>` */
  function TraceBlock(tag: string, cot: string): string {
    "<" + tag + ">" + cot + "</" + tag + ">"
  }

  /** The output text of a successful call: the trace block is put in front
      of the answer (on its own line) only when traces are wanted and there
      is one; a trace without an answer is the block alone. */
  function ComposeOutput(includeCot: bool, tag: string, answer: string, cot: string): (o: string)
    ensures o == "" <==> answer == "" && !(includeCot && cot != "")
  {
    if includeCot && cot != "" then
      if answer != "" then TraceBlock(tag, cot) + "\n" + answer else TraceBlock(tag, cot)
    else answer
  }

  /** A successful call yields `[EMPTY]` exactly when no trace is emitted
      and the answer is empty or is itself the text `[EMPTY]`. */
  lemma ComposeEmptyIff(includeCot: bool, tag: string, answer: string, cot: string)
    ensures MakeRecord("", ComposeOutput(includeCot, tag, answer, cot)).output == EmptySentinel
            <==> (answer == "" || answer == EmptySentinel) && !(includeCot && cot != "")
  {
    var o := ComposeOutput(includeCot, tag, answer, cot);
    if includeCot && cot != "" {
      assert o[0] == '<' != EmptySentinel[0];
    }
  }

  /** The composed text always ends with the answer, and when a trace is
      emitted it starts with the trace block and the answer follows after
      exactly one newline. */
  lemma ComposeShape(includeCot: bool, tag: string, answer: string, cot: string)
    ensures var o := ComposeOutput(includeCot, tag, answer, cot);
      && |o| >= |answer| && o[|o| - |answer|..] == answer
      && (includeCot && cot != "" ==>
            var b := TraceBlock(tag, cot);
            && |o| >= |b| && o[..|b|] == b
            && |o| == |b| + (if answer == "" then 0 else 1 + |answer|)
            && (answer != "" ==> o[|b|] == '\n'))
      && (!(includeCot && cot != "") ==> o == answer)
  {
    var o := ComposeOutput(includeCot, tag, answer, cot);
    if includeCot && cot != "" {
      var b := TraceBlock(tag, cot);
      if answer != "" {
        assert o == b + "\n" + answer;
        assert o[..|b|] == b;
        assert o[|b|] == '\n';
        assert o[|o| - |answer|..] == answer;
      } else {
        assert o == b;
        assert o[|o|..] == "";
      }
    }
  }

  /** Lower-case hexadecimal digit. */
  function HexDigit(n: nat): char
    requires n < 16
  {
    if n < 10 then ('0' as int + n) as char else ('a' as int + n - 10) as char
  }

  /** One character of a JSON string literal as Python's encoder writes it
      with `ensure_ascii=False`: quote, backslash and the control characters
      are escaped, everything else is kept. */
  function EscapeChar(c: char): (e: string)
    ensures NoLineBreak(e)
    ensures c as int >= 0x20 && c != '"' && c != '\\' ==> e == [c]
  {
    if c == '"' then "\\\""
    else if c == '\\' then "\\\\"
    else if c == '\n' then "\\n"
    else if c == '\r' then "\\r"
    else if c == '\t' then "\\t"
    else if c as int == 0x08 then "\\b"
    else if c as int == 0x0c then "\\f"
    else if c as int < 0x20 then "\\u00" + [HexDigit(c as int / 16), HexDigit(c as int % 16)]
    else [c]
  }

  function Escape(s: string): string {
    if s == [] then "" else EscapeChar(s[0]) + Escape(s[1..])
  }

  function Quote(s: string): string {
    "\"" + Escape(s) + "\""
  }

  /** `json.dumps(record, ensure_ascii=False)` with Python's default
      separators and the record's key order. */
  function EncodeRecord(r: Record): (line: string)
  {
    "{\"instruction\": " + Quote(r.instruction) + ", \"input\": " + Quote(r.input)
      + ", \"output\": " + Quote(r.output) + "}"
  }

  /** An escaped string never contains a raw line terminator. */
  lemma {:induction false} EscapeNoLineBreak(s: string)
    ensures NoLineBreak(Escape(s))
  {
    if s != [] {
      var c := s[0];
      assert NoLineBreak(EscapeChar(c));
      EscapeNoLineBreak(s[1..]);
      NoLineBreakConcat(EscapeChar(c), Escape(s[1..]));
    }
  }

  lemma QuoteNoLineBreak(s: string)
    ensures NoLineBreak(Quote(s))
  {
    EscapeNoLineBreak(s);
    NoLineBreakConcat("\"", Escape(s));
    NoLineBreakConcat("\"" + Escape(s), "\"");
  }

  /** An encoded record is one line: it has no line terminator in it, and
      it starts with '{' and ends with '}'. */
  lemma EncodeRecordShape(r: Record)
    ensures NoLineBreak(EncodeRecord(r))
    ensures EncodeRecord(r) != [] && EncodeRecord(r)[0] == '{' && EncodeRecord(r)[|EncodeRecord(r)| - 1] == '}'
  {
    var a := "{\"instruction\": " + Quote(r.instruction);
    var b := a + ", \"input\": ";
    var c := b + Quote(r.input);
    var d := c + ", \"output\": ";
    var e := d + Quote(r.output);
    QuoteNoLineBreak(r.instruction);
    QuoteNoLineBreak(r.input);
    QuoteNoLineBreak(r.output);
    NoLineBreakConcat("{\"instruction\": ", Quote(r.instruction));
    NoLineBreakConcat(a, ", \"input\": ");
    NoLineBreakConcat(b, Quote(r.input));
    NoLineBreakConcat(c, ", \"output\": ");
    NoLineBreakConcat(d, Quote(r.output));
    NoLineBreakConcat(e, "}");
    assert EncodeRecord(r) == e + "}";
  }
}
