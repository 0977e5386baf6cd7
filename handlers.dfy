/**
 * The two completion endpoints of the proxy: request validation, prompt
 * assembly, the fallback resolution, and the shape of the HTTP reply.
 */
module Handlers {
  import opened Wrappers
  import opened Text
  import opened Config
  import opened Classifier
  import opened Prompt
  import opened Upstream
  import opened Resolver

  /** The body of a chat request; `None` is a missing field. */
  datatype ChatRequest = ChatRequest(topic: Option<string>, history: Option<seq<HistoryEntry>>, userInput: Option<string>)

  /** The body of a summary request; `None` is a missing field. */
  datatype SummarizeRequest = SummarizeRequest(topic: Option<string>, history: Option<seq<HistoryEntry>>)

  /** The JSON body of a reply. */
  datatype Body = Reply(reply: string) | Summary(summary: string) | Failure(error: string)

  datatype HttpReply = HttpReply(status: nat, body: Body)

  const MissingTopicMessage: string := "Please select a topic before chatting."
  const EmptyInputMessage: string := "Message cannot be empty."
  const MissingKeyMessage: string := "Server missing GROQ_API_KEY."
  const ChatFailurePrefix: string := "Failed to get response: "
  const SummaryFailurePrefix: string := "Failed to summarize: "

  /** The message reported for a thrown error: its own, or `Unknown error` when that is empty. */
  function ErrorText(e: JsError): (t: string)
    ensures t != ""
    ensures e.message != "" ==> t == e.message
    ensures e.message == "" ==> t == "Unknown error"
  {
    if e.message != "" then e.message else "Unknown error"
  }

  /** A user input the chat endpoint accepts: present and not blank. */
  predicate HasText(input: Option<string>) {
    input.Some? && !AllSpace(input.value)
  }

  /** The chat reply for a resolution: 200 with the text, or 500 with the error's message after a fixed prefix. */
  function ChatReply(r: Result<string, JsError>): (h: HttpReply)
    ensures h.status == 200 <==> r.Ok?
    ensures r.Ok? ==> h.body == Reply(r.value)
    ensures r.Err? ==> h.status == 500 && h.body.Failure? && StartsWith(h.body.error, ChatFailurePrefix)
    ensures r.Err? ==> |h.body.error| > |ChatFailurePrefix|
    ensures r.Err? ==> h == HttpReply(500, Failure(ChatFailurePrefix + ErrorText(r.error)))
  {
    match r
    case Ok(text) => HttpReply(200, Reply(text))
    case Err(e) =>
      var error := ChatFailurePrefix + ErrorText(e);
      assert error[..|ChatFailurePrefix|] == ChatFailurePrefix;
      HttpReply(500, Failure(error))
  }

  /** The summary reply for a resolution: 200 with the summary, or 500 with the error's message after a fixed prefix. */
  function SummaryReply(r: Result<string, JsError>): (h: HttpReply)
    ensures h.status == 200 <==> r.Ok?
    ensures r.Ok? ==> h.body == Summary(r.value)
    ensures r.Err? ==> h.status == 500 && h.body.Failure? && StartsWith(h.body.error, SummaryFailurePrefix)
    ensures r.Err? ==> |h.body.error| > |SummaryFailurePrefix|
    ensures r.Err? ==> h == HttpReply(500, Failure(SummaryFailurePrefix + ErrorText(r.error)))
  {
    match r
    case Ok(text) => HttpReply(200, Summary(text))
    case Err(e) =>
      var error := SummaryFailurePrefix + ErrorText(e);
      assert error[..|SummaryFailurePrefix|] == SummaryFailurePrefix;
      HttpReply(500, Failure(error))
  }

  /**
   * `POST /api/chat`. The checks run in a fixed order: a missing topic is
   * reported before a blank input, and both before a missing API key; no
   * model is tried unless all three pass. Then the chat messages are built
   * from the topic, the transcript (empty when missing) and the input as
   * given, and the reply carries the outcome of the fallback resolution.
   */
  method HandleChat(
    settings: Settings, req: ChatRequest,
    upstream: (string, seq<ChatMessage>) -> Response, parse: string -> ParseResult)
    returns (reply: HttpReply, ghost tried: seq<string>)
    ensures !Truthy(req.topic) ==> reply == HttpReply(400, Failure(MissingTopicMessage))
    ensures Truthy(req.topic) && !HasText(req.userInput) ==> reply == HttpReply(400, Failure(EmptyInputMessage))
    ensures Truthy(req.topic) && HasText(req.userInput) && !Truthy(settings.apiKey) ==>
      reply == HttpReply(500, Failure(MissingKeyMessage))
    ensures Truthy(req.topic) && HasText(req.userInput) && Truthy(settings.apiKey) ==>
      var messages := ChatMessages(req.topic.value, req.history.GetOr([]), req.userInput.value);
      reply == ChatReply(Resolution(CandidateModels(settings.model), AttemptsWith(upstream, messages), parse))
    ensures !(Truthy(req.topic) && HasText(req.userInput) && Truthy(settings.apiKey)) ==> tried == []
    ensures Truthy(req.topic) && HasText(req.userInput) && Truthy(settings.apiKey) ==>
      var messages := ChatMessages(req.topic.value, req.history.GetOr([]), req.userInput.value);
      tried == Attempted(CandidateModels(settings.model), AttemptsWith(upstream, messages), parse)
  {
    tried := [];
    if !Truthy(req.topic) {
      return HttpReply(400, Failure(MissingTopicMessage)), tried;
    }
    if !Truthy(req.userInput) || Trim(req.userInput.value) == "" {
      return HttpReply(400, Failure(EmptyInputMessage)), tried;
    }
    if !Truthy(settings.apiKey) {
      return HttpReply(500, Failure(MissingKeyMessage)), tried;
    }
    var messages := ChatMessages(req.topic.value, req.history.GetOr([]), req.userInput.value);
    var result;
    result, tried := CallGroqChat(settings.model, messages, upstream, parse);
    reply := ChatReply(result);
  }

  /**
   * `POST /api/summarize`. Only a missing API key is rejected; a missing
   * topic becomes `general topics` and a missing transcript an empty one.
   */
  method HandleSummarize(
    settings: Settings, req: SummarizeRequest,
    upstream: (string, seq<ChatMessage>) -> Response, parse: string -> ParseResult)
    returns (reply: HttpReply, ghost tried: seq<string>)
    ensures !Truthy(settings.apiKey) ==> reply == HttpReply(500, Failure(MissingKeyMessage))
    ensures Truthy(settings.apiKey) ==>
      var messages := SummaryMessages(req.topic, req.history.GetOr([]));
      reply == SummaryReply(Resolution(CandidateModels(settings.model), AttemptsWith(upstream, messages), parse))
    ensures !Truthy(settings.apiKey) ==> tried == []
    ensures Truthy(settings.apiKey) ==>
      var messages := SummaryMessages(req.topic, req.history.GetOr([]));
      tried == Attempted(CandidateModels(settings.model), AttemptsWith(upstream, messages), parse)
  {
    tried := [];
    if !Truthy(settings.apiKey) {
      return HttpReply(500, Failure(MissingKeyMessage)), tried;
    }
    var messages := SummaryMessages(req.topic, req.history.GetOr([]));
    var result;
    result, tried := CallGroqChat(settings.model, messages, upstream, parse);
    reply := SummaryReply(result);
  }

  /**
   * A successful chat reply always carries non-blank text: the trimmed
   * content of the first candidate that answered.
   */
  lemma ChatSuccessHasText(candidates: seq<string>, attempt: string -> Attempt, parse: string -> ParseResult,
                           upstream: (string, seq<ChatMessage>) -> Response, messages: seq<ChatMessage>)
    requires attempt == AttemptsWith(upstream, messages)
    ensures var h := ChatReply(Resolution(candidates, attempt, parse));
      h.status == 200 ==> h.body.Reply? && h.body.reply != "" && !IsSpace(h.body.reply[0])
  {
    var k := FirstStop(candidates, attempt, parse);
    if k < |candidates| {
      var a := TryChatWithModel(upstream(candidates[k], messages));
      assert attempt(candidates[k]) == a;
    }
  }

  /**
   * An HTTP failure that is surfaced reaches the client whole: the 500 body
   * is the chat prefix, then the upstream status and response body.
   */
  lemma HttpFailureReachesClient(status: nat, body: string)
    ensures ChatReply(Err(ErrorOf(HttpError(status, body))))
      == HttpReply(500, Failure(ChatFailurePrefix + HttpErrorPrefix + Decimal(status) + ": " + body))
  {
    var e := ErrorOf(HttpError(status, body));
    ErrorOfMessages(HttpError(status, body));
    assert e.message != "" by {
      assert StartsWith(e.message, HttpErrorPrefix);
    }
    PrefixBeforeMessage(ChatFailurePrefix, HttpErrorPrefix, Decimal(status), body);
  }

  /** Putting a fixed prefix before a four-part message is putting it before its first part. */
  lemma PrefixBeforeMessage(p: string, a: string, b: string, c: string)
    ensures p + (a + b + ": " + c) == p + a + b + ": " + c
  {
  }
}
