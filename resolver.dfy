/**
 * Model fallback resolution: try the candidate model ids in order, return
 * the first success, skip a candidate whose failure says the model is
 * retired, and surface any other failure at once.
 */
module Resolver {
  import opened Wrappers
  import opened Config
  import opened Classifier
  import opened Prompt
  import opened Upstream

  const NoModelMessage: string := "No valid model available to complete the request."

  /**
   * Where the loop stops when it starts at index `i`: the index of the first
   * candidate from there whose attempt is not a retryable failure, or the
   * length of the list when every attempt is.
   */
  function StopFrom(candidates: seq<string>, attempt: string -> Attempt, parse: string -> ParseResult, i: nat): (k: nat)
    requires i <= |candidates|
    ensures i <= k <= |candidates|
    ensures forall j :: i <= j < k ==> Retryable(attempt(candidates[j]), parse)
    ensures k < |candidates| ==> !Retryable(attempt(candidates[k]), parse)
    decreases |candidates| - i
  {
    if i == |candidates| || !Retryable(attempt(candidates[i]), parse) then i
    else StopFrom(candidates, attempt, parse, i + 1)
  }

  /** Where the loop stops: `StopFrom` the first candidate. */
  function FirstStop(candidates: seq<string>, attempt: string -> Attempt, parse: string -> ParseResult): (k: nat)
    ensures k <= |candidates|
    ensures forall j :: 0 <= j < k ==> Retryable(attempt(candidates[j]), parse)
    ensures k < |candidates| ==> !Retryable(attempt(candidates[k]), parse)
  {
    StopFrom(candidates, attempt, parse, 0)
  }

  /** What the resolution returns: the stopping candidate's text or error, else the last error, else the configuration error. */
  function Resolution(candidates: seq<string>, attempt: string -> Attempt, parse: string -> ParseResult): Result<string, JsError> {
    var k := FirstStop(candidates, attempt, parse);
    if k < |candidates| then
      var a := attempt(candidates[k]);
      if a.Success? then Ok(a.text) else Err(ErrorOf(a))
    else if candidates == [] then Err(JsError(NoModelMessage, None, None))
    else Err(ErrorOf(attempt(candidates[|candidates| - 1])))
  }

  /** The candidates the resolution tries: every one up to and including where it stops. */
  function Attempted(candidates: seq<string>, attempt: string -> Attempt, parse: string -> ParseResult): seq<string> {
    var k := FirstStop(candidates, attempt, parse);
    if k < |candidates| then candidates[..k + 1] else candidates
  }

  /** The loop stops at the first candidate that is not a retryable failure. */
  lemma StopsAt(candidates: seq<string>, attempt: string -> Attempt, parse: string -> ParseResult, i: nat)
    requires i < |candidates| && !Retryable(attempt(candidates[i]), parse)
    requires forall j :: 0 <= j < i ==> Retryable(attempt(candidates[j]), parse)
    ensures FirstStop(candidates, attempt, parse) == i
  {
  }

  /** The loop runs to the end when every candidate is a retryable failure. */
  lemma StopsAtEnd(candidates: seq<string>, attempt: string -> Attempt, parse: string -> ParseResult)
    requires forall j :: 0 <= j < |candidates| ==> Retryable(attempt(candidates[j]), parse)
    ensures FirstStop(candidates, attempt, parse) == |candidates|
  {
  }

  /**
   * The fallback loop over a given list of candidates: one attempt per
   * candidate, in order. A success is returned at once; a retryable failure
   * is recorded and the loop moves on; any other failure is thrown at once.
   * When the list runs out, the last recorded failure is thrown, or, for an
   * empty list, the configuration error. `tried` records the ids attempted.
   */
  method ResolveOver(candidates: seq<string>, attempt: string -> Attempt, parse: string -> ParseResult)
    returns (result: Result<string, JsError>, ghost tried: seq<string>)
    ensures result == Resolution(candidates, attempt, parse)
    ensures tried == Attempted(candidates, attempt, parse)
  {
    var lastError: Option<JsError> := None;
    tried := [];
    for i := 0 to |candidates|
      invariant tried == candidates[..i]
      invariant forall j :: 0 <= j < i ==> Retryable(attempt(candidates[j]), parse)
      invariant lastError == if i == 0 then None else Some(ErrorOf(attempt(candidates[i - 1])))
    {
      var modelId := candidates[i];
      tried := tried + [modelId];
      assert tried == candidates[..i + 1];
      var outcome := attempt(modelId);
      if outcome.Success? {
        SuccessAfterRetiredFailures(candidates, attempt, parse, i);
        result := Ok(outcome.text);
        return;
      }
      var err := ErrorOf(outcome);
      if IsDecommissionedPayload(parse, ClassifiedText(err)) {
        assert Retryable(outcome, parse);
        lastError := Some(err);
        continue;
      }
      assert !Retryable(outcome, parse);
      OtherFailurePropagates(candidates, attempt, parse, i);
      result := Err(err);
      return;
    }
    assert tried == candidates;
    if lastError.Some? {
      AllRetiredThrowsLast(candidates, attempt, parse);
      result := Err(lastError.value);
      return;
    }
    EmptyListFails(attempt, parse);
    result := Err(JsError(NoModelMessage, None, None));
  }

  /** The attempt oracle for one message list: the upstream call for an id, interpreted. */
  function AttemptsWith(upstream: (string, seq<ChatMessage>) -> Response, messages: seq<ChatMessage>): string -> Attempt {
    id => TryChatWithModel(upstream(id, messages))
  }

  /**
   * A completion request: the fallback loop over the configured model and
   * the fixed fallbacks. The list is never empty, so the configuration error
   * is never the outcome; the configured model, when set, is tried first.
   */
  method CallGroqChat(
    model: string, messages: seq<ChatMessage>,
    upstream: (string, seq<ChatMessage>) -> Response, parse: string -> ParseResult)
    returns (result: Result<string, JsError>, ghost tried: seq<string>)
    ensures result == Resolution(CandidateModels(model), AttemptsWith(upstream, messages), parse)
    ensures tried == Attempted(CandidateModels(model), AttemptsWith(upstream, messages), parse)
    ensures tried != [] && (model != "" ==> tried[0] == model)
  {
    var fallbacks := CandidateModels(model);
    result, tried := ResolveOver(fallbacks, AttemptsWith(upstream, messages), parse);
  }

  // ---------------------------------------------------------------------
  // Properties of the resolution
  // ---------------------------------------------------------------------

  /**
   * When the candidate at index k succeeds after every earlier one failed as
   * retired, its text is returned and exactly the candidates 0..k were tried.
   */
  lemma SuccessAfterRetiredFailures(candidates: seq<string>, attempt: string -> Attempt, parse: string -> ParseResult, k: nat)
    requires k < |candidates| && attempt(candidates[k]).Success?
    requires forall j :: 0 <= j < k ==> Retryable(attempt(candidates[j]), parse)
    ensures Resolution(candidates, attempt, parse) == Ok(attempt(candidates[k]).text)
    ensures Attempted(candidates, attempt, parse) == candidates[..k + 1]
  {
    StopsAt(candidates, attempt, parse, k);
  }

  /**
   * A failure that is not a retired model, after retired failures before it,
   * is propagated unchanged and nothing after it is tried.
   */
  lemma OtherFailurePropagates(candidates: seq<string>, attempt: string -> Attempt, parse: string -> ParseResult, k: nat)
    requires k < |candidates| && !attempt(candidates[k]).Success? && !Retryable(attempt(candidates[k]), parse)
    requires forall j :: 0 <= j < k ==> Retryable(attempt(candidates[j]), parse)
    ensures Resolution(candidates, attempt, parse) == Err(ErrorOf(attempt(candidates[k])))
    ensures Attempted(candidates, attempt, parse) == candidates[..k + 1]
  {
    StopsAt(candidates, attempt, parse, k);
  }

  /** When every candidate fails as retired, the last one's error is thrown after all were tried. */
  lemma AllRetiredThrowsLast(candidates: seq<string>, attempt: string -> Attempt, parse: string -> ParseResult)
    requires candidates != []
    requires forall j :: 0 <= j < |candidates| ==> Retryable(attempt(candidates[j]), parse)
    ensures var last := attempt(candidates[|candidates| - 1]);
      !last.Success? && Resolution(candidates, attempt, parse) == Err(ErrorOf(last))
    ensures Attempted(candidates, attempt, parse) == candidates
  {
    StopsAtEnd(candidates, attempt, parse);
    assert Retryable(attempt(candidates[|candidates| - 1]), parse);
  }

  /** An empty list tries nothing and fails with the configuration error. */
  lemma EmptyListFails(attempt: string -> Attempt, parse: string -> ParseResult)
    ensures Resolution([], attempt, parse) == Err(JsError(NoModelMessage, None, None))
    ensures Attempted([], attempt, parse) == []
  {
  }

  /** The outcome is always the outcome of a candidate that was tried, unless nothing was tried. */
  lemma ResolutionFromLastTried(candidates: seq<string>, attempt: string -> Attempt, parse: string -> ParseResult)
    ensures var tried := Attempted(candidates, attempt, parse);
      tried != [] ==>
        var a := attempt(tried[|tried| - 1]);
        Resolution(candidates, attempt, parse) == if a.Success? then Ok(a.text) else Err(ErrorOf(a))
  {
    var k := FirstStop(candidates, attempt, parse);
    var tried := Attempted(candidates, attempt, parse);
    if k < |candidates| {
      assert tried[|tried| - 1] == candidates[k];
    } else if candidates != [] {
      assert Retryable(attempt(candidates[|candidates| - 1]), parse);
    }
  }
}
