/** `_load_existing_records` (sft_generator.py): the set of instructions
    already present in an existing output file. Opening and reading the file
    is summarised by `FileRead`; `json.loads` is an oracle `parse` that gives
    the decoded value of a line, or `None` where it raises a decode error. */
module Checkpoint {
  import opened Text
  import opened JsonValue

  /** What opening and reading the file gives: no file, an exception while
      opening or reading it (including a decoding error), or its lines. */
  datatype FileRead = Missing | Unreadable | Lines(lines: seq<string>)

  /** What one line contributes. `Abort` is a line that decodes to a JSON
      value other than an object: `item.get` then raises AttributeError,
      which the outer handler turns into an empty result. */
  datatype LineEffect = Skip | Add(instruction: string) | Abort

  function LineEffectOf(line: string, parse: string -> Option<Val>): (e: LineEffect)
    ensures e != Add("")
    ensures e == Abort <==> Strip(line) != "" && parse(Strip(line)).Some? && !parse(Strip(line)).value.Obj?
    ensures e.Add? ==> parse(Strip(line)).Some? && parse(Strip(line)).value.Obj?
  {
    var t := Strip(line);
    if t == "" then Skip
    else
      match parse(t)
      case None => Skip
      case Some(item) =>
        if !item.Obj? then Abort
        else
          match GetOr(item.fields, "instruction", Null)
          case Str(s) => if s != "" then Add(s) else Skip
          case _ => Skip
  }

  /** One turn of the loop: `None` once an exception has escaped. */
  function Step(acc: Option<set<string>>, e: LineEffect): Option<set<string>> {
    match acc
    case None => None
    case Some(s) =>
      match e
      case Skip => Some(s)
      case Add(x) => Some(s + {x})
      case Abort => None
  }

  /** The loop over the lines' effects, front to back. */
  function Run(es: seq<LineEffect>): (r: Option<set<string>>)
    ensures r.Some? && Add("") !in es ==> "" !in r.value
  {
    if es == [] then Some({})
    else
      assert Add("") in es && es[|es| - 1] != Add("") ==> Add("") in es[..|es| - 1] by {
        assert es == es[..|es| - 1] + [es[|es| - 1]];
      }
      Step(Run(es[..|es| - 1]), es[|es| - 1])
  }

  function Effects(lines: seq<string>, parse: string -> Option<Val>): (es: seq<LineEffect>)
    ensures |es| == |lines|
    ensures forall i :: 0 <= i < |lines| ==> es[i] == LineEffectOf(lines[i], parse)
  {
    seq(|lines|, i requires 0 <= i < |lines| => LineEffectOf(lines[i], parse))
  }

  /** The set `_load_existing_records` returns. */
  function Loaded(read: FileRead, parse: string -> Option<Val>): (s: set<string>)
    ensures read.Missing? || read.Unreadable? ==> s == {}
    ensures "" !in s
  {
    match read
    case Missing => {}
    case Unreadable => {}
    case Lines(ls) => match Run(Effects(ls, parse)) case None => {} case Some(s) => s
  }

  /** Both pieces read without an exception: the union of their sets. */
  function Both(x: Option<set<string>>, y: Option<set<string>>): Option<set<string>> {
    if x.Some? && y.Some? then Some(x.value + y.value) else None
  }

  /** The loader as written: blank lines and lines that are not JSON are
      skipped, a line whose object has a non-empty string `instruction` adds
      it, and a line that is JSON but not an object makes it give up. */
  method LoadExistingRecords(read: FileRead, parse: string -> Option<Val>) returns (processed: set<string>)
    ensures processed == Loaded(read, parse)
  {
    processed := {};
    if !read.Lines? {
      return;
    }
    var ls := read.lines;
    ghost var es := Effects(ls, parse);
    var i := 0;
    while i < |ls|
      invariant 0 <= i <= |ls|
      invariant Run(es[..i]) == Some(processed)
    {
      assert es[..i + 1][..i] == es[..i];
      var line := Strip(ls[i]);
      if line != "" {
        var item := parse(line);
        if item.Some? {
          if !item.value.Obj? {
            assert Run(es[..i + 1]) == None;
            RunNoneExtends(es, i + 1);
            processed := {};
            return;
          }
          var instruction := GetOr(item.value.fields, "instruction", Null);
          if instruction.Str? && instruction.s != "" {
            processed := processed + {instruction.s};
          }
        }
      }
      i := i + 1;
    }
    assert es[..i] == es;
  }

  /** Once an exception has escaped, later lines change nothing. */
  lemma {:induction false} RunNoneExtends(es: seq<LineEffect>, n: nat)
    requires n <= |es| && Run(es[..n]) == None
    ensures Run(es) == None
    decreases |es| - n
  {
    if n < |es| {
      assert es[..n + 1][..n] == es[..n];
      RunNoneExtends(es, n + 1);
    } else {
      assert es[..n] == es;
    }
  }

  /** The loop gives up exactly when some line is a JSON value that is not
      an object; all progress is then discarded. */
  lemma {:induction false} RunFailsIff(es: seq<LineEffect>)
    ensures Run(es).None? <==> Abort in es
  {
    if es != [] {
      var init := es[..|es| - 1];
      RunFailsIff(init);
      assert es == init + [es[|es| - 1]];
    }
  }

  /** Otherwise it gives exactly the instructions the lines add. */
  lemma {:induction false} RunContents(es: seq<LineEffect>, x: string)
    requires Run(es).Some?
    ensures x in Run(es).value <==> Add(x) in es
  {
    if es != [] {
      var init := es[..|es| - 1];
      RunContents(init, x);
      assert es == init + [es[|es| - 1]];
    }
  }

  /** Reading two pieces of a file one after the other: the union of the
      pieces' results, unless either piece makes the loop give up. */
  lemma {:induction false} RunAppend(a: seq<LineEffect>, b: seq<LineEffect>)
    ensures Run(a + b) == Both(Run(a), Run(b))
    decreases |b|
  {
    if b == [] {
      assert a + b == a;
      if Run(a).Some? {
        assert Run(a).value + {} == Run(a).value;
      }
    } else {
      var b' := b[..|b| - 1];
      assert (a + b)[..|a + b| - 1] == a + b';
      assert (a + b)[|a + b| - 1] == b[|b| - 1];
      RunAppend(a, b');
      BothStep(Run(a), Run(b'), b[|b| - 1]);
    }
  }

  lemma BothStep(x: Option<set<string>>, y: Option<set<string>>, e: LineEffect)
    ensures Step(Both(x, y), e) == Both(x, Step(y, e))
  {
    if x.Some? && y.Some? && e.Add? {
      assert x.value + y.value + {e.instruction} == x.value + (y.value + {e.instruction});
    }
  }

  lemma EffectsAppend(a: seq<string>, b: seq<string>, parse: string -> Option<Val>)
    ensures Effects(a + b, parse) == Effects(a, parse) + Effects(b, parse)
  {
    var ea, eb := Effects(a, parse), Effects(b, parse);
    var l, r := Effects(a + b, parse), ea + eb;
    forall i | 0 <= i < |l| ensures l[i] == r[i] {
      if i < |a| {
        assert (a + b)[i] == a[i] && r[i] == ea[i];
      } else {
        assert (a + b)[i] == b[i - |a|] && r[i] == eb[i - |a|];
      }
    }
    assert |l| == |r|;
  }

  /** A blank line reads as nothing. */
  lemma BlankLineSkipped(line: string, parse: string -> Option<Val>)
    requires AllSpace(line)
    ensures LineEffectOf(line, parse) == Skip
  {
    StripEmptyIffBlank(line);
  }

  lemma EffectsSnocBlank(lines: seq<string>, parse: string -> Option<Val>)
    ensures Effects(lines + [""], parse) == Effects(lines, parse) + [Skip]
  {
    BlankLineSkipped("", parse);
    EffectsAppend(lines, [""], parse);
    assert Effects([""], parse) == [Skip];
  }

  lemma RunSnocSkip(es: seq<LineEffect>)
    ensures Run(es + [Skip]) == Run(es)
  {
    assert (es + [Skip])[..|es|] == es;
  }

  /** The set the loader returns for a file it could read: empty once a
      line is a non-object JSON value, and otherwise exactly the non-empty
      string instructions of the lines. */
  lemma LoadedMeaning(read: FileRead, parse: string -> Option<Val>, x: string)
    ensures read.Lines? && Abort in Effects(read.lines, parse) ==> Loaded(read, parse) == {}
    ensures read.Lines? && Abort !in Effects(read.lines, parse) ==>
              (x in Loaded(read, parse) <==>
                 exists i :: 0 <= i < |read.lines| && LineEffectOf(read.lines[i], parse) == Add(x))
  {
    if read.Lines? {
      var es := Effects(read.lines, parse);
      RunFailsIff(es);
      if Run(es).Some? {
        RunContents(es, x);
        if Add(x) in es {
          var i :| 0 <= i < |es| && es[i] == Add(x);
          assert LineEffectOf(read.lines[i], parse) == Add(x);
        }
      }
    }
  }
}
