# SFT data generation and dataset tooling, modelled in Dafny

This project models the core of a pipeline that distils supervised
fine-tuning (SFT) data from a remote chat model, and the helper scripts
that prepare and reformat the resulting datasets. It proves properties of
that model.

- **SFT generator** (`sft_generator.py`). Every question gets one record
  `{"instruction", "input", "output"}`, and records are appended to a
  JSON-lines file in batches. A resumed run reads back the instructions
  already in the file and skips them.
  - The output is the model's answer, optionally preceded by a
    `<think>…</think>` trace block. It is `[EMPTY]` when the answer is
    empty and no trace block is emitted, and `[ERROR]` when every retry
    failed.
  - Appending never glues a record onto a truncated last line.
  - The scheduling loop keeps a bounded free cache of questions and at most
    `concurrency` running tasks, and flushes the buffer every `save_every`
    records.
- **Configuration manager** (`scripts/config_manager.py`):
  - a nested default configuration;
  - dot-path `get` and `set`;
  - recursive merge of a loaded file into the defaults.
- **Converters**:
  - `scripts/format_distillation.py` converts to Alpaca, ShareGPT and JSON
    lines, and dispatches on the lower-cased format type.
  - `scripts/prepare_dataset.py` builds instruction/response pairs and the
    conversation template.
  - `scripts/extract_metadata.py` builds the seven-key character record.
- **Prompt dropout** (`prompt_dropout.py`): randomly drops the non-blank
  lines of a system prompt.

## Module structure

- **Modules follow the source.**
  - `Text` holds the Python string operations the core relies on: `strip`,
    `split`, `"\n".join`, `splitlines`, reading a file line by line, and
    `lower`.
  - `JsonValue` is the JSON value tree shared by the loader, the
    configuration and the converters.
- **The generator is split by concern.**
  - `SftRecord`: records and their JSON line.
  - `Retry`: `_call_one`.
  - `Checkpoint`: `_load_existing_records`.
  - `OutputSink`: the file and `_flush_results`.
  - `Scheduler`: `generate_sft_async`.
  - `Resume` and `Rerun` relate appending to reading back.
- **State that the source mutates is a class.**
  - The output file is a class with its presence and text, and the results
    buffer is a class.
  - The configuration manager is a class whose `config` field `set` updates.
- **Loops in the source are loops here**: the retry loop, the loader loop,
  `fill_cache`, the dispatch loop, the completion loop, the flush loop,
  `get`, `set`, `_merge_configs` and the converters' `for` loops. Each is
  proved against a specification function.

## Oracles

Outside influences are parameters:

- the remote model is a function from (position, attempt number) to an
  attempt outcome;
- `asyncio.wait(..., FIRST_COMPLETED)` is a function naming a non-empty
  selection of the running tasks;
- `json.loads` is a parse function; the record encoding
  `json.dumps(record, ensure_ascii=False)` is written out in full;
- general `json.dumps` and `str()` of non-string values are functions;
- `random.random()` is a numbered sequence of draws.

## Model

| member | source | states |
|---|---|---|
| SftRecord.MakeRecord | sft_generator.py:22-23 | the record keeps the instruction, has an empty input and a never-empty output: the text itself, or `[EMPTY]` exactly when the text is empty |
| SftRecord.ComposeOutput | sft_generator.py:56-59 | the composed output is empty exactly when the answer is empty and no trace block is emitted |
| SftRecord.ComposeEmptyIff | sft_generator.py:54-60 | a successful call yields `[EMPTY]` exactly when no trace is emitted and the answer is empty or is itself `[EMPTY]` |
| SftRecord.ComposeShape | sft_generator.py:56-59 | with a trace wanted and present, the output starts with `<tag>cot</tag>`, then a newline and the answer only when there is an answer; otherwise it is the answer; the answer is always a suffix |
| SftRecord.EscapeNoLineBreak | sft_generator.py:114 | a JSON-escaped string never contains a raw `\n` or `\r` |
| SftRecord.EscapeChar | sft_generator.py:114 | an escaped character never contains a raw `\n` or `\r`, and a printable character other than `"` and `\\` is written as itself |
| SftRecord.QuoteNoLineBreak | sft_generator.py:114 | a quoted JSON string has no raw line terminator |
| SftRecord.EncodeRecordShape | sft_generator.py:114 | the record line `EncodeRecord` writes is one line that starts with `{` and ends with `}` |
| Retry.FirstSuccess | sft_generator.py:37-60 | the index of the first successful attempt below the limit, with every attempt before it failed; none exactly when every attempt below the limit fails |
| Retry.SuccessText | sft_generator.py:54-59 | the text of a successful attempt is empty exactly when the stripped answer is empty and no stripped trace is emitted |
| Retry.CallResult | sft_generator.py:37-66 | the record of a call keeps the question, has an empty input and never an empty output |
| Retry.AttemptsMade | sft_generator.py:37-64 | at most `max(max_retries, 0)` calls are made, and every call before the last one failed |
| Retry.CallOne | sft_generator.py:37-66 | the retry loop returns the record for the first success, or `[ERROR]`; it makes at most `max_retries` attempts (none when `max_retries <= 0`), every attempt before the last one made failed, and all failing means exactly `max_retries` attempts and `[ERROR]` |
| Retry.FirstSuccessDecides | sft_generator.py:38-60 | after k failures a success at attempt k decides the record, from that attempt's answer and trace, and k+1 attempts were made |
| Retry.AllFailuresGiveError | sft_generator.py:61-66 | when every attempt fails the record is `(q, "", "[ERROR]")` after exactly `max(max_retries, 0)` attempts |
| Retry.EmptyAnswerGivesEmptySentinel | sft_generator.py:54-60 | a first success with a blank answer and no emitted trace gives `[EMPTY]` |
| Checkpoint.LoadExistingRecords | sft_generator.py:69-89 | the loop's set equals the function `Loaded`: empty for a missing or unreadable file or once any line aborts, otherwise the union of the added instructions |
| Checkpoint.LineEffectOf | sft_generator.py:76-85 | a line never adds the empty instruction; it makes the loader give up exactly when its stripped text is non-empty and decodes to a non-object; it adds an instruction only when it decodes to an object |
| Checkpoint.Run | sft_generator.py:75-89 | when no line adds the empty instruction, the set never holds the empty string |
| Checkpoint.Loaded | sft_generator.py:69-89 | a missing or unreadable file loads nothing, and the empty string is never loaded |
| Checkpoint.RunNoneExtends | sft_generator.py:86-88 | once the loop has given up, more lines cannot bring it back |
| Checkpoint.RunFailsIff | sft_generator.py:80-88 | the loader gives up exactly when some line aborts |
| Checkpoint.RunContents | sft_generator.py:83-85 | when the loader does not give up, an instruction is in the set iff some line adds it |
| Checkpoint.RunAppend | sft_generator.py:75-89 | reading two pieces of a file one after the other is the union of reading each, and fails when either fails |
| Checkpoint.BothStep | sft_generator.py:75-89 | one more line after two pieces acts on the second piece only |
| Checkpoint.EffectsAppend | sft_generator.py:75 | the effects of concatenated line lists are the concatenated effects |
| Checkpoint.BlankLineSkipped | sft_generator.py:76-78 | a whitespace-only line is skipped |
| Checkpoint.EffectsSnocBlank | sft_generator.py:76-78 | an extra empty last line is one more skip |
| Checkpoint.RunSnocSkip | sft_generator.py:77-78 | a skip does not change the result |
| Checkpoint.LoadedMeaning | sft_generator.py:69-89 | for a file that could be read: empty once some line is a non-object, and otherwise x is loaded iff some line adds x |
| OutputSink.EncodeAll | sft_generator.py:111-114 | one encoded line per record |
| OutputSink.EncodeAllAt | sft_generator.py:114 | the i-th encoded line is the encoding of the i-th record |
| OutputSink.AppendedStep | sft_generator.py:111-114 | appending one more record adds its separator and its line |
| OutputSink.OutputFile.constructor | sft_generator.py:92-93 | a file is present with its text, or absent and empty |
| OutputSink.OutputFile.NeedsNewline | sft_generator.py:92-101 | a leading newline is needed iff the file exists, is non-empty and its last character is neither `\n` nor `\r`, which is `NeedsLeadingNewline` of its text |
| OutputSink.OutputFile.OpenForAppend | sft_generator.py:108 | opening for append creates the file and keeps its text |
| OutputSink.OutputFile.Write | sft_generator.py:110-114 | a write appends exactly its string |
| OutputSink.OutputFile.Remove | sft_generator.py:170-171 | after removal the file is absent and empty |
| OutputSink.RecordBuffer.constructor | sft_generator.py:182 | the results buffer starts empty |
| OutputSink.RecordBuffer.Push | sft_generator.py:222 | a record is appended at the end of the buffer |
| OutputSink.FlushResults | sft_generator.py:104-115 | the file becomes its old text followed by the buffered records (an empty buffer leaves it unchanged), the file exists afterwards iff it did or something was written, and the buffer is cleared |
| OutputSink.AppendedShape | sft_generator.py:104-115 | in `Appended`, the text after a flush, the old text is a preserved prefix; after a non-empty batch the file ends with `}`, so no trailing newline is written and the next flush bridges with a newline |
| OutputSink.AppendedBatches | sft_generator.py:229-234 | appending two batches one after the other equals appending them as one batch |
| OutputSink.AppendedJoined | sft_generator.py:107-114 | a non-empty batch appends a newline only when needed, then the records joined by single newlines |
| Resume.EncodedLineEffect | sft_generator.py:76-85 | a written record line reads back as its instruction (or as a skip when the instruction is empty) |
| Resume.InstructionsSnoc | sft_generator.py:85 | one more record adds its instruction when that is non-empty |
| Resume.RunEncoded | sft_generator.py:75-85 | the written lines of a batch read back as exactly its non-empty instructions |
| Resume.TrailingBreak | sft_generator.py:75-78 | a final line terminator adds only an empty line, which is skipped |
| Resume.EmptyFileReadsNothing | sft_generator.py:75-78 | an empty file reads as the empty set |
| Resume.ReadAcrossBreak | sft_generator.py:75-85 | text, a terminator and written records read as the union of the two parts |
| Resume.WrittenLines | sft_generator.py:111-114 | the joined record lines come back as exactly those lines when the file is read line by line |
| Resume.ReadAfterFlush | sft_generator.py:104-115 | after a flush, the loader reads what it read before together with the batch's instructions, even when the old text ended mid-line |
| Resume.ReadJoined | sft_generator.py:107-114 | old text, the optional newline and the joined batch read as the union of the old reading and the batch |
| Scheduler.CheckParams | sft_generator.py:137-142 | the run is rejected, with the message of the first failing check in order, iff `concurrency`, `batch_size` or `save_every` is not positive |
| Scheduler.ProcessedAtStart | sft_generator.py:161-169 | without `--resume`, or without an output file, the loaded set is empty |
| Scheduler.Remaining | sft_generator.py:173 | no remaining question is processed, and every other question occurs in `remaining` as often as in `questions` |
| Scheduler.RemainingInOrder | sft_generator.py:173 | the filter keeps the questions' order |
| Scheduler.RecordsOf | sft_generator.py:220-222 | one record per finished position, in order |
| Scheduler.RecordsOfAt | sft_generator.py:221 | the i-th record is the one the i-th finished task gives |
| Scheduler.RecordsOfAppend | sft_generator.py:220-222 | the records of two completion batches are the records of each, concatenated |
| Scheduler.FillCache | sft_generator.py:185-191 | the cache grows by the next positions in order until it holds `batch_size` or the questions are used up, never beyond `batch_size` |
| Scheduler.Dispatch | sft_generator.py:196-210 | tasks are started from the front of the cache until it is empty or `concurrency` run, never beyond `concurrency`; each started position is new |
| Scheduler.Complete | sft_generator.py:220-225 | the buffer grows by the finished tasks' records in visiting order and the count by their number |
| Scheduler.FillKeeps | sft_generator.py:185-191 | `fill_cache` keeps the scheduler invariant |
| Scheduler.DispatchKeeps | sft_generator.py:196-210 | dispatching keeps the scheduler invariant: every started position is running or finished, never both |
| Scheduler.PendingCard | sft_generator.py:218-219 | removing k distinct running tasks leaves k fewer |
| Scheduler.CompleteKeeps | sft_generator.py:218-224 | completion keeps the invariant, finished positions being recorded once each |
| Scheduler.RunningAfterDispatch | sft_generator.py:212-216 | with `concurrency > 0`, after dispatch something is running, so the `if not inflight` branch is dead code |
| Scheduler.Schedule | sft_generator.py:179-234 | every remaining position is dispatched exactly once, the file grows by all the records in completion order, and the count is the loaded count plus the number of remaining questions |
| Scheduler.FinishedIsOrdering | sft_generator.py:195 | when the loop stops, every position has finished exactly once |
| Scheduler.Advance | sft_generator.py:196-227 | one turn keeps the invariant and both bounds, finishes at least one task, and an empty cache means the questions are used up |
| Scheduler.Collect | sft_generator.py:220-231 | the file and the buffer together always hold the finished tasks' records in order, and the buffer stays below `save_every` |
| Scheduler.SaveIfFull | sft_generator.py:229-230 | a buffer at or above `save_every` moves to the file and empties; a smaller one stays |
| Scheduler.OpenOutput | sft_generator.py:161-171 | the loaded set is the loader's result when resuming over an existing file and empty otherwise; resuming keeps the file and appends after its text; not resuming leaves no file and the text to append to is empty |
| Scheduler.GenerateSft | sft_generator.py:118-234 | bad parameters are rejected with nothing changed; otherwise `remaining` is the filtered questions, each dispatched exactly once, the file holds the kept text and then every record, and the final count is loaded plus generated |
| Rerun.RunInstructions | sft_generator.py:173-234 | a complete run's records carry exactly the non-empty remaining questions |
| Rerun.RemainingTwice | sft_generator.py:173 | filtering again by the loaded set plus every non-empty survivor leaves only empty questions |
| Rerun.LoadedAgain | sft_generator.py:163-165 | the second loader finds the first one's set plus the new records' instructions, or gives up when the first did |
| Rerun.SecondRunSkipsDone | sft_generator.py:161-234 | a second resumed run on the same questions generates nothing for any non-empty question |
| ConfigManager.Manager.constructor | scripts/config_manager.py:49-59 | without a config file the configuration is the default one; with one it is the defaults merged with the file's contents |
| ConfigManager.DefaultConfig | scripts/config_manager.py:19-47 | the default configuration has exactly the sections project, paths, extraction, dataset and formatting, each a dict |
| ConfigManager.Lookup | scripts/config_manager.py:126-132 | a one-key path reads that key of a dict, and the default for a missing key or a non-dict |
| ConfigManager.SetPath | scripts/config_manager.py:144-149 | a successful `set` keeps the old top-level keys and adds the path's first key |
| ConfigManager.Merge | scripts/config_manager.py:89-93 | the merge has exactly the keys of both sides |
| ConfigManager.MergedValue | scripts/config_manager.py:89-93 | a key absent from the update keeps its base value, a non-dict update replaces the base value, and a dict update gives a dict |
| ConfigManager.Manager.Get | scripts/config_manager.py:113-132 | `get` walks the dot-split path and gives the lookup's value, the default at the first missing key or non-dict |
| ConfigManager.Manager.Set | scripts/config_manager.py:134-149 | `set` succeeds exactly when the function `SetPath` does and then replaces the configuration by it; on TypeError the configuration is unchanged |
| ConfigManager.ChainFails | scripts/config_manager.py:144-147 | a non-dict on the path below the walk's position makes the set fail from every earlier level |
| ConfigManager.MergeInto | scripts/config_manager.py:82-93 | the in-place merge loop computes the recursive merge |
| ConfigManager.MergeByKeys | scripts/config_manager.py:89-93 | a map with the merged keys and the merged value at each key is the merge |
| ConfigManager.GetAfterSet | scripts/config_manager.py:134-149 | after a successful `set(p, v)`, `get(p)` is v |
| ConfigManager.SetSucceedsIff | scripts/config_manager.py:144-149 | `set` succeeds iff every proper prefix of the path reaches a dict or nothing |
| ConfigManager.LookupMissing | scripts/config_manager.py:126-130 | in an empty tree every path gives the default |
| ConfigManager.SetCreatesIntermediates | scripts/config_manager.py:144-147 | after `set`, every proper prefix of the path leads to a dict |
| ConfigManager.SetKeepsOtherPaths | scripts/config_manager.py:144-149 | a path leaving the set path at some level reads what it read before |
| ConfigManager.EmptyLookup | scripts/config_manager.py:126-130 | a non-empty path in an empty tree gives the default |
| ConfigManager.MergeKeys | scripts/config_manager.py:89-93 | an update overwrites unless both are dicts, which merge recursively; keys absent from the update keep their base value |
| ConfigManager.MergeEmpty | scripts/config_manager.py:89-93 | merging an empty update is the identity |
| ConfigManager.MergeIdempotent | scripts/config_manager.py:89-93 | merging the same update twice equals merging it once |
| ConfigManager.MergeSelf | scripts/config_manager.py:89-93 | merging a tree into itself changes nothing |
| ConfigManager.DefaultFormat | scripts/config_manager.py:42-43 | in the default configuration `formatting` then `default_format` is `"alpaca"` |
| ConfigManager.SplitDotted | scripts/config_manager.py:123 | `"a.b".split('.')` is `[a, b]` for dot-free a and b |
| FormatDistillation.FormatAlpaca | scripts/format_distillation.py:39-58 | one Alpaca item per input item, in order |
| FormatDistillation.FormatShareGpt | scripts/format_distillation.py:60-87 | one ShareGPT item per input item, in order |
| FormatDistillation.FormatJsonl | scripts/format_distillation.py:89-98 | one encoded line per item, the i-th being the encoding of the i-th item |
| FormatDistillation.AlpacaItem | scripts/format_distillation.py:51-55 | an Alpaca item has exactly the keys instruction, input and output |
| FormatDistillation.ShareGptItem | scripts/format_distillation.py:72-84 | a ShareGPT item has the single key conversations, a two-turn list for an item without messages |
| FormatDistillation.Process | scripts/format_distillation.py:120-134 | the lower-cased type chooses the Alpaca, ShareGPT or JSON-lines conversion; any other type is the error `Unknown format type: <type>` |
| FormatDistillation.AlpacaFields | scripts/format_distillation.py:51-55 | exactly the keys instruction, input and output, copied from instruction, context and response, each `""` when absent |
| FormatDistillation.ShareGptFields | scripts/format_distillation.py:72-84 | a single `conversations` key: the messages unchanged, or a human turn with the instruction and then a gpt turn with the response, each defaulting to `""` |
| PrepareDataset.GenerateInstructionPairs | scripts/prepare_dataset.py:38-75 | a personality pair iff there are traits, a background pair iff there is a background, then one pair per sample among the first five, in that order and with the stated texts; a TypeError or AttributeError exactly for unjoinable traits, unsliceable samples or a non-object sample |
| PrepareDataset.GenerateConversationDataset | scripts/prepare_dataset.py:77-102 | exactly one conversation: the user greeting, then the assistant's answer naming the character, with the name and speaking style as metadata |
| PrepareDataset.NameDefaults | scripts/prepare_dataset.py:48 | the name defaults to `Character`; on extracted metadata it is the raw name or `Unknown` |
| ExtractMetadata.Extract | scripts/extract_metadata.py:42-63 | the result always has exactly the seven metadata keys |
| ExtractMetadata.ExtractFields | scripts/extract_metadata.py:51-62 | each field is its raw field, or its default when absent; the nested metadata records version `1.0` and the input path |
| ExtractMetadata.IgnoresOtherKeys | scripts/extract_metadata.py:51-62 | inputs agreeing on the six keys read give the same metadata |
| PromptDropout.Dropout | prompt_dropout.py:9-29 | a non-positive rate or an empty prompt gives the prompt unchanged, and a non-empty prompt never gives an empty result |
| PromptDropout.KeptIsSubsequence | prompt_dropout.py:25-27 | the kept lines are an order-preserving subsequence of the lines |
| PromptDropout.BlankLinesKept | prompt_dropout.py:26 | whitespace-only lines are never dropped, whatever the draws |
| PromptDropout.AllDrawsKeep | prompt_dropout.py:26 | draws at or above the rate drop nothing |
| PromptDropout.DropoutShape | prompt_dropout.py:28-29 | a result other than the prompt is the stripped join of the kept lines, with no surrounding whitespace |
| Text.StripLeftSpec | sft_generator.py:76 | `lstrip` removes exactly the whitespace prefix |
| Text.StripRightSpec | sft_generator.py:76 | `rstrip` removes exactly the whitespace suffix |
| Text.StripIsTrimmedSlice | prompt_dropout.py:28 | `strip` gives a contiguous piece with no surrounding whitespace, everything cut off being whitespace |
| Text.StripEmptyIffBlank | sft_generator.py:76-78 | a stripped line is empty iff it is all whitespace |
| Text.StripOfTrimmed | prompt_dropout.py:28 | stripping a trimmed string does nothing |
| Text.JoinSnoc | sft_generator.py:111-114 | joining one more part adds the separator and the part |
| Text.JoinAppend | prompt_dropout.py:28 | joining two non-empty lists puts one separator between their joins |
| Text.Split | scripts/config_manager.py:123 | at least one piece, and no piece contains the separator |
| Text.JoinSplit | scripts/config_manager.py:123 | joining the pieces with the separator gives the string back |
| Text.SplitNoSep | scripts/config_manager.py:123 | a string without the separator splits into itself |
| Text.SplitAt | scripts/config_manager.py:123 | a separator-free prefix becomes the first piece |
| Text.NoLineBreakConcat | sft_generator.py:114 | two line-break-free strings concatenate to one |
| Text.FileLines | sft_generator.py:75 | a file reads as at least one line |
| Text.FileLinesBreak | sft_generator.py:75 | a line terminator splits the reading into the readings of its two sides |
| Text.FileLinesTrailing | sft_generator.py:75 | a final line terminator leaves one more, empty, line |
| Text.FileLinesSingle | sft_generator.py:75 | text without terminators is one line |
| Text.FileLinesJoin | sft_generator.py:75 | terminator-free parts joined by newlines come back as exactly those parts |
| Text.FirstBreak | prompt_dropout.py:21 | the first `splitlines` boundary, with none before it |
| Text.SplitLines | prompt_dropout.py:21 | `splitlines` gives no line exactly for the empty string |
| Text.Lower | scripts/format_distillation.py:28 | lower-casing keeps the length |
| Text.LowerIdempotent | scripts/format_distillation.py:28 | lower-casing twice equals lower-casing once |

## Left out

- The remote chat model is an oracle of attempt outcomes (sft_generator.py:41-53). The OpenAI client, request parameters and response shape are foreign calls.
- asyncio task creation and waiting are modelled sequentially, with the finished selection supplied by an oracle.
- Backoff sleeps and their jitter are left out: only the number of attempts is observable.
- pandas loading of the question sheet, the tqdm progress bar and the `print` messages are left out, and so is every `argparse` `main`. The questions are a parameter.
- `json.loads`, general `json.dumps`, `str()` of non-string values and YAML are oracles. They are library code. Only the record encoding of `_flush_results` is written out.
- The file system is reduced to the output file: whether it exists and its text. `save_*`, `load_*` and `mkdir` are not modelled. The loader's "file could not be read" outcome is an input of Checkpoint.LoadExistingRecords only, because read errors are I/O.
- Scheduler.GenerateSft always reads the output file's lines. A run over a file that cannot be decoded as UTF-8, where Python's loader returns `set()` and every question is generated again, is not modelled.
- Scheduler.GenerateSft: `processed_set.add` after each completion is not modelled, because nothing reads the set after the filter at line 173.
- Scheduler.GenerateSft: the `NameError` fallbacks for `prompt_dropout` and `role_prompt` are left out. They are dynamic name lookup. The prompt and dropout policy are part of the attempt oracle.
- Scheduler.GenerateSft: no operator preview or confirmation step exists in the code, and there is no de-duplication of repeated questions within one run. Repeated questions are each dispatched.
- Checkpoint.LoadExistingRecords skips a line that is not JSON, but abandons the whole set when a line is valid JSON and not an object: `.get` raises AttributeError there, and the outer `except Exception: return set()` (sft_generator.py:86-88) catches it.
- Text.FileLines splits at every `\n` and every `\r`. Python's universal newlines treat `\r\n` as one terminator and keep the terminators in the lines. The two readings differ only by empty or whitespace pieces, which the loader strips and skips.
- OutputSink.OutputFile.NeedsNewline compares the last character where the source reads the last byte. In UTF-8 the two agree on whether that byte is `\n` or `\r`. An `OSError` while reading is not modelled.
- ConfigManager.Manager.constructor takes the parsed file as an optional object. A file whose top level is not an object, where Python raises in `_merge_configs`, is not modelled.
- ConfigManager.Manager.constructor does not model that `DEFAULT_CONFIG.copy()` is shallow. When nested defaults are merged in place, they are shared with the class attribute. Value semantics cannot observe this.
- ConfigManager.Manager.Set models every non-dict intermediate, including a string one where `in` would test for a substring, as the TypeError that Python raises before anything changes. This is exposed as a `false` result rather than excluded by a precondition.
- Text.Lower lower-cases ASCII letters only. Python's `str.lower` covers all of Unicode.
- PrepareDataset.GenerateInstructionPairs does not model traits given as a dict or other iterable, whose join depends on iteration order. Only lists of strings and strings are modelled; anything else is an error.
- FormatDistillation.FormatAlpaca takes items as JSON objects. An item that is not a dict, where `.get` raises AttributeError in Python, is not modelled.
- FormatDistillation.FormatShareGpt takes items as JSON objects. An item that is not a dict, where `in` or `.get` raises in Python, is not modelled.
- FormatDistillation.FormatJsonl takes items as JSON objects, where `json.dumps` would also encode any other value.
- FormatDistillation.Process takes items as JSON objects, so the AttributeError of a non-dict item under `alpaca` or `sharegpt` is not modelled.
- ExtractMetadata.Extract takes the character data as a JSON object. Data that is not a dict, where `.get` raises AttributeError in Python, is not modelled.
- FormatDistillation.Process does not model writing the result file (`save_formatted_data`), which is I/O.
- PromptDropout.Dropout models the rate as a real number, not a float.
