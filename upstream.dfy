/**
 * One completion attempt against one model id: what the upstream call can
 * produce, how the proxy turns it into a text or a thrown error, and which
 * of those errors the fallback loop treats as a retired model.
 */
module Upstream {
  import opened Wrappers
  import opened Text
  import opened Classifier

  /**
   * What one upstream call produced. `NotOk` is a response whose status is
   * outside 200-299, with its body text; `OkJson` a successful response whose
   * body parsed, holding `choices[0].message.content` when that is a string;
   * `Thrown` a rejection of the call or of reading its body (network failure,
   * a body that is not JSON); `Aborted` the per-attempt timer firing.
   */
  datatype Response =
    | NotOk(status: nat, body: string)
    | OkJson(content: Option<string>)
    | Thrown(message: string)
    | Aborted

  /** The outcome of one attempt. */
  datatype Attempt =
    | Success(text: string)
    | HttpError(status: nat, rawText: string)
    | EmptyContent
    | Transport(message: string)

  /** A thrown `Error`: its message, and the `_rawText` and `_status` an HTTP failure attaches. */
  datatype JsError = JsError(message: string, rawText: Option<string>, status: Option<nat>)

  /** The message of the error an aborted request rejects with. */
  const AbortMessage: string := "This operation was aborted"

  const NoContentMessage: string := "No content returned from Groq"

  const HttpErrorPrefix: string := "Groq API error "

  /**
   * The outcome of one attempt: a non-OK status is an HTTP error carrying
   * status and body; an OK response yields its content trimmed, unless that
   * is missing or blank; anything thrown, the timeout included, propagates.
   */
  function TryChatWithModel(resp: Response): (a: Attempt)
    ensures a.Success? <==> resp.OkJson? && resp.content.Some? && !AllSpace(resp.content.value)
    ensures a.Success? ==> a.text != [] && !IsSpace(a.text[0]) && !IsSpace(a.text[|a.text| - 1])
    ensures a.Success? ==> exists i :: TrimmedAt(resp.content.value, a.text, i)
    ensures a == EmptyContent <==> resp.OkJson? && (resp.content.None? || AllSpace(resp.content.value))
    ensures a.HttpError? <==> resp.NotOk?
    ensures resp.NotOk? ==> a == HttpError(resp.status, resp.body)
    ensures resp.Thrown? ==> a == Transport(resp.message)
    ensures resp.Aborted? ==> a == Transport(AbortMessage)
  {
    match resp
    case NotOk(status, body) => HttpError(status, body)
    case OkJson(content) =>
      if content.Some? && Trim(content.value) != [] then Success(Trim(content.value)) else EmptyContent
    case Thrown(message) => Transport(message)
    case Aborted => Transport(AbortMessage)
  }

  /**
   * The error a failed attempt throws. An HTTP failure's message is
   * `Groq API error <status>: <body>` and it carries the body and status;
   * an empty completion throws the fixed no-content message; a thrown error
   * propagates as it is. Only an HTTP failure carries a raw body and a status.
   */
  function ErrorOf(a: Attempt): (e: JsError)
    requires !a.Success?
    ensures a.HttpError? <==> e.rawText.Some?
    ensures a.HttpError? ==> e.rawText == Some(a.rawText) && e.status == Some(a.status)
    ensures a.HttpError? ==> StartsWith(e.message, HttpErrorPrefix)
    ensures !a.HttpError? ==> e.status.None?
  {
    match a
    case HttpError(status, text) =>
      var message := HttpErrorPrefix + Decimal(status) + ": " + text;
      assert message[..|HttpErrorPrefix|] == HttpErrorPrefix;
      JsError(message, Some(text), Some(status))
    case EmptyContent => JsError(NoContentMessage, None, None)
    case Transport(message) => JsError(message, None, None)
  }

  /**
   * The message of each failure: `Groq API error <status>: <body>`, which
   * ends with the body, for an HTTP failure; the fixed no-content message for
   * an empty completion; a thrown error's own message, unchanged.
   */
  lemma ErrorOfMessages(a: Attempt)
    requires !a.Success?
    ensures a.HttpError? ==> ErrorOf(a).message == HttpErrorPrefix + Decimal(a.status) + ": " + a.rawText
    ensures a.HttpError? ==> EndsWith(ErrorOf(a).message, a.rawText)
    ensures a == EmptyContent ==> ErrorOf(a) == JsError(NoContentMessage, None, None)
    ensures a.Transport? ==> ErrorOf(a) == JsError(a.message, None, None)
  {
    if a.HttpError? {
      var m := ErrorOf(a).message;
      assert m[|m| - |a.rawText|..] == a.rawText;
    }
  }

  /** The status written into an HTTP failure's message reads back as the response status. */
  lemma HttpErrorStatusReadsBack(status: nat, body: string)
    ensures var m := ErrorOf(HttpError(status, body)).message;
      var digits := m[|HttpErrorPrefix|..|HttpErrorPrefix| + |Decimal(status)|];
      (forall i :: 0 <= i < |digits| ==> IsDigit(digits[i])) && DigitsValue(digits) == status
  {
    var m := ErrorOf(HttpError(status, body)).message;
    assert m[|HttpErrorPrefix|..|HttpErrorPrefix| + |Decimal(status)|] == Decimal(status);
    DecimalRoundTrip(status);
  }

  /**
   * The text the classifier judges: the raw body when there is a non-empty
   * one, else the message. It is always one of the two.
   */
  function ClassifiedText(e: JsError): string {
    if e.rawText.Some? && e.rawText.value != "" then e.rawText.value else e.message
  }

  /**
   * The judged text is always the body or the message: a non-empty body
   * wins, and it is empty only when the message is.
   */
  lemma ClassifiedTextIsBodyOrMessage(e: JsError)
    ensures ClassifiedText(e) == e.message || e.rawText == Some(ClassifiedText(e))
    ensures e.rawText.Some? && e.rawText.value != "" ==> ClassifiedText(e) == e.rawText.value
    ensures ClassifiedText(e) == "" ==> e.message == ""
  {
  }

  /** A failed attempt that the fallback loop skips over: its error text classifies as decommissioned. */
  predicate Retryable(a: Attempt, parse: string -> ParseResult) {
    !a.Success? && IsDecommissionedPayload(parse, ClassifiedText(ErrorOf(a)))
  }

  /** A timed-out attempt is never taken for a retired model. */
  lemma TimeoutNeverRetried(parse: string -> ParseResult)
    requires parse(AbortMessage) == ParseFailed
    ensures TryChatWithModel(Aborted) == Transport(AbortMessage)
    ensures !Retryable(TryChatWithModel(Aborted), parse)
  {
    assert MessagePhrase[2] == 'c';
    assert 'c' !in Lower(AbortMessage);
    NotContainsMissingChar(Lower(AbortMessage), MessagePhrase, 2);
  }

  /** A successful call with blank content is never taken for a retired model. */
  lemma EmptyContentNeverRetried(parse: string -> ParseResult)
    requires parse(NoContentMessage) == ParseFailed
    ensures !Retryable(EmptyContent, parse)
  {
    assert MessagePhrase[6] == 'i';
    assert 'i' !in Lower(NoContentMessage);
    NotContainsMissingChar(Lower(NoContentMessage), MessagePhrase, 6);
  }

  /**
   * An HTTP failure with an empty body is judged by its message, which never
   * holds the phrase, so it is never retried whatever its status.
   */
  lemma EmptyBodyHttpErrorNeverRetried(status: nat, parse: string -> ParseResult)
    requires parse(ErrorOf(HttpError(status, "")).message) == ParseFailed
    ensures !Retryable(HttpError(status, ""), parse)
  {
    var digits := Decimal(status);
    var message := HttpErrorPrefix + digits + ": ";
    assert ErrorOf(HttpError(status, "")).message == message + "";
    assert message + "" == message;
    forall i | 0 <= i < |message| ensures Lower(message)[i] != 'd' {
      if i < |HttpErrorPrefix| {
        assert message[i] == HttpErrorPrefix[i];
      } else if i < |HttpErrorPrefix| + |digits| {
        assert message[i] == digits[i - |HttpErrorPrefix|];
      }
    }
    NotContainsMissingChar(Lower(message), MessagePhrase, 0);
  }

  /** An HTTP failure with a body is judged by that body alone. */
  lemma HttpErrorJudgedByBody(status: nat, body: string, parse: string -> ParseResult)
    requires body != ""
    ensures Retryable(HttpError(status, body), parse) == IsDecommissionedPayload(parse, body)
  {
  }
}
