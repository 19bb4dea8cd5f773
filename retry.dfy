/** `_call_one` (sft_generator.py): one instruction sent to the remote model
    with a bounded number of attempts. The remote call is an oracle that
    says, per attempt number, whether the attempt raised or what the
    response carried. */
module Retry {
  import opened Text
  import opened JsonValue
  import opened SftRecord

  /** What one attempt produced. `Success` carries the message content and
      the reasoning text found on the message and on the choice (a missing
      or null field is ""); `Failure` is any exception raised inside the
      attempt (network error, malformed response, ...). */
  datatype Attempt =
    | Success(content: string, messageReasoning: string, choiceReasoning: string)
    | Failure

  /** The generator options `_call_one` reads. */
  datatype CallConfig = CallConfig(includeCot: bool, thinkTag: string, maxRetries: int)

  /** The output text of a successful attempt: the stripped content as the
      answer, the message's reasoning (or, when that is empty, the
      choice's) stripped as the trace. */
  function SuccessText(cfg: CallConfig, a: Attempt): (t: string)
    requires a.Success?
    ensures t == "" <==>
      Strip(a.content) == "" &&
      !(cfg.includeCot && Strip(if a.messageReasoning != "" then a.messageReasoning else a.choiceReasoning) != "")
  {
    var answer := Strip(a.content);
    var cot := Strip(if a.messageReasoning != "" then a.messageReasoning else a.choiceReasoning);
    ComposeOutput(cfg.includeCot, cfg.thinkTag, answer, cot)
  }

  /** The first attempt number in [from, limit) that succeeds, if any. */
  function FirstSuccess(attempts: nat -> Attempt, from: nat, limit: int): (k: Option<nat>)
    ensures k.Some? ==> from <= k.value < limit && attempts(k.value).Success?
    ensures k.Some? ==> forall j :: from <= j < k.value ==> attempts(j).Failure?
    ensures k.None? ==> forall j :: from <= j < limit ==> attempts(j).Failure?
    decreases if limit > from then limit - from else 0
  {
    if from >= limit then None
    else if attempts(from).Success? then Some(from)
    else FirstSuccess(attempts, from + 1, limit)
  }

  /** The record `_call_one` returns: the first successful attempt's text,
      or the `[ERROR]` sentinel when none of the allowed attempts succeeds. */
  function CallResult(q: string, cfg: CallConfig, attempts: nat -> Attempt): (r: Record)
    ensures r.instruction == q && r.input == "" && r.output != ""
  {
    match FirstSuccess(attempts, 0, cfg.maxRetries)
    case Some(k) => MakeRecord(q, SuccessText(cfg, attempts(k)))
    case None => MakeRecord(q, ErrorSentinel)
  }

  /** The number of remote calls `_call_one` makes. */
  function AttemptsMade(cfg: CallConfig, attempts: nat -> Attempt): (n: nat)
    ensures n <= MaxAttempts(cfg)
    ensures forall j :: 0 <= j < n - 1 ==> attempts(j).Failure?
  {
    match FirstSuccess(attempts, 0, cfg.maxRetries)
    case Some(k) => k + 1
    case None => if cfg.maxRetries > 0 then cfg.maxRetries else 0
  }

  function MaxAttempts(cfg: CallConfig): nat {
    if cfg.maxRetries > 0 then cfg.maxRetries else 0
  }

  /** The retry loop. It never makes more than `max_retries` attempts (none
      at all when `max_retries <= 0`), stops at the first success, and turns
      exhaustion into an `[ERROR]` record instead of an exception. */
  method CallOne(q: string, cfg: CallConfig, attempts: nat -> Attempt) returns (rec: Record, made: nat)
    ensures rec == CallResult(q, cfg, attempts) && made == AttemptsMade(cfg, attempts)
    ensures rec.instruction == q && rec.input == ""
    ensures made <= MaxAttempts(cfg)
    ensures forall j :: 0 <= j < made - 1 ==> attempts(j).Failure?
    ensures (forall j :: 0 <= j < cfg.maxRetries ==> attempts(j).Failure?) ==>
              made == MaxAttempts(cfg) && rec.output == ErrorSentinel
  {
    var retries: nat := 0;
    while retries < cfg.maxRetries
      invariant retries == 0 || retries < cfg.maxRetries
      invariant forall j :: 0 <= j < retries ==> attempts(j).Failure?
      decreases cfg.maxRetries - retries
    {
      var a := attempts(retries);
      if a.Success? {
        assert FirstSuccess(attempts, 0, cfg.maxRetries) == Some(retries);
        rec, made := MakeRecord(q, SuccessText(cfg, a)), retries + 1;
        return;
      }
      retries := retries + 1;
      if retries >= cfg.maxRetries {
        assert FirstSuccess(attempts, 0, cfg.maxRetries).None?;
        rec, made := MakeRecord(q, ErrorSentinel), retries;
        return;
      }
    }
    assert FirstSuccess(attempts, 0, cfg.maxRetries).None?;
    rec, made := MakeRecord(q, ErrorSentinel), retries;
  }

  /** When attempt `k` is the first success within the allowed attempts, the
      record carries that attempt's text and exactly k + 1 calls were made. */
  lemma FirstSuccessDecides(q: string, cfg: CallConfig, attempts: nat -> Attempt, k: nat)
    requires k < cfg.maxRetries
    requires forall j :: 0 <= j < k ==> attempts(j).Failure?
    requires attempts(k).Success?
    ensures CallResult(q, cfg, attempts) == MakeRecord(q, SuccessText(cfg, attempts(k)))
    ensures AttemptsMade(cfg, attempts) == k + 1
  {
    match FirstSuccess(attempts, 0, cfg.maxRetries)
    case None => assert false;
    case Some(k') => if k' != k { assert false; }
  }

  /** A call whose every allowed attempt fails makes exactly `max_retries`
      attempts (none when that is not positive) and yields `[ERROR]`. */
  lemma AllFailuresGiveError(q: string, cfg: CallConfig, attempts: nat -> Attempt)
    requires forall j :: 0 <= j < cfg.maxRetries ==> attempts(j).Failure?
    ensures CallResult(q, cfg, attempts) == Record(q, "", ErrorSentinel)
    ensures AttemptsMade(cfg, attempts) == MaxAttempts(cfg)
  {
  }

  /** A successful attempt whose answer is blank and that emits no trace
      gives the `[EMPTY]` sentinel, never a blank output. */
  lemma EmptyAnswerGivesEmptySentinel(q: string, cfg: CallConfig, attempts: nat -> Attempt, k: nat)
    requires k < cfg.maxRetries
    requires forall j :: 0 <= j < k ==> attempts(j).Failure?
    requires attempts(k).Success? && AllSpace(attempts(k).content)
    requires !cfg.includeCot || AllSpace(if attempts(k).messageReasoning != "" then attempts(k).messageReasoning else attempts(k).choiceReasoning)
    ensures CallResult(q, cfg, attempts).output == EmptySentinel
    ensures AttemptsMade(cfg, attempts) == k + 1
  {
    var a := attempts(k);
    FirstSuccessDecides(q, cfg, attempts, k);
    StripEmptyIffBlank(a.content);
    StripEmptyIffBlank(if a.messageReasoning != "" then a.messageReasoning else a.choiceReasoning);
    ComposeEmptyIff(cfg.includeCot, cfg.thinkTag, Strip(a.content),
      Strip(if a.messageReasoning != "" then a.messageReasoning else a.choiceReasoning));
  }
}
