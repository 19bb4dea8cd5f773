/** `prompt_dropout` (prompt_dropout.py): randomly drops non-blank lines of
    a system prompt. The k-th call to `random.random()` returns `draws(k)`;
    a call is made only for a non-blank line, because `or` stops at a blank
    one. The rate is a real number. */
module PromptDropout {
  import opened Text

  /** A line `line.strip() == ""` keeps without drawing. */
  predicate Blank(line: string) {
    Strip(line) == ""
  }

  /** The kept lines, with `k` draws already made. */
  function Kept(lines: seq<string>, rate: real, draws: nat -> real, k: nat): seq<string>
    decreases |lines|
  {
    if lines == [] then []
    else if Blank(lines[0]) then [lines[0]] + Kept(lines[1..], rate, draws, k)
    else if draws(k) >= rate then [lines[0]] + Kept(lines[1..], rate, draws, k + 1)
    else Kept(lines[1..], rate, draws, k + 1)
  }

  /** `prompt_dropout(prompt, dropout_rate)` */
  function Dropout(prompt: string, rate: real, draws: nat -> real): (r: string)
    ensures rate <= 0.0 || prompt == "" ==> r == prompt
    ensures prompt != "" ==> r != ""
  {
    if rate <= 0.0 then prompt
    else
      var lines := SplitLines(prompt);
      if lines == [] then prompt
      else
        var result := Strip(Join(Kept(lines, rate, draws, 0), "\n"));
        if result != "" then result else prompt
  }

  /** The blank lines among `lines`, in order. */
  function Blanks(lines: seq<string>): seq<string> {
    if lines == [] then []
    else (if Blank(lines[0]) then [lines[0]] else []) + Blanks(lines[1..])
  }

  /** The kept lines are some of the lines, in their order. */
  lemma {:induction false} KeptIsSubsequence(lines: seq<string>, rate: real, draws: nat -> real, k: nat)
    ensures IsSubsequence(Kept(lines, rate, draws, k), lines)
    decreases |lines|
  {
    if lines != [] {
      var k' := if Blank(lines[0]) then k else k + 1;
      KeptIsSubsequence(lines[1..], rate, draws, k');
      var rest := Kept(lines[1..], rate, draws, k');
      assert ([lines[0]] + rest)[1..] == rest;
    }
  }

  /** Blank lines are never dropped, whatever the draws: the kept lines
      have exactly the blank lines of the prompt, in order. */
  lemma {:induction false} BlankLinesKept(lines: seq<string>, rate: real, draws: nat -> real, k: nat)
    ensures Blanks(Kept(lines, rate, draws, k)) == Blanks(lines)
    decreases |lines|
  {
    if lines != [] {
      var k' := if Blank(lines[0]) then k else k + 1;
      BlankLinesKept(lines[1..], rate, draws, k');
      var rest := Kept(lines[1..], rate, draws, k');
      assert ([lines[0]] + rest)[1..] == rest;
    }
  }

  /** A draw at or above the rate keeps a line, one below drops it: with
      every draw at or above the rate nothing is dropped. */
  lemma {:induction false} AllDrawsKeep(lines: seq<string>, rate: real, draws: nat -> real, k: nat)
    requires forall j: nat :: j >= k ==> draws(j) >= rate
    ensures Kept(lines, rate, draws, k) == lines
    decreases |lines|
  {
    if lines != [] {
      AllDrawsKeep(lines[1..], rate, draws, if Blank(lines[0]) then k else k + 1);
      assert lines == [lines[0]] + lines[1..];
    }
  }

  /** A result other than the prompt itself is the stripped join of the
      kept lines and has no surrounding whitespace. */
  lemma DropoutShape(prompt: string, rate: real, draws: nat -> real)
    ensures var r := Dropout(prompt, rate, draws);
      r != prompt ==>
        && r == Strip(Join(Kept(SplitLines(prompt), rate, draws, 0), "\n"))
        && r != "" && !IsSpace(r[0]) && !IsSpace(r[|r| - 1])
  {
    var r := Dropout(prompt, rate, draws);
    if r != prompt {
      StripIsTrimmedSlice(Join(Kept(SplitLines(prompt), rate, draws, 0), "\n"));
    }
  }
}
