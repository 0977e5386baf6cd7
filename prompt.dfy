/**
 * Prompt assembly: the transcript flattened into speaker lines, and the
 * two-message lists sent upstream for a chat turn and for a summary.
 */
module Prompt {
  import opened Wrappers
  import opened Text

  /** One transcript entry as the client sends it. */
  datatype HistoryEntry = HistoryEntry(role: string, content: string)

  /** One message of the upstream request. */
  datatype ChatMessage = ChatMessage(role: string, content: string)

  /** The line for one entry: `Assistant: ` for the assistant role, `User: ` for every other role. */
  function SpeakerLine(m: HistoryEntry): string {
    (if m.role == "assistant" then "Assistant" else "User") + ": " + m.content
  }

  /** `Array.prototype.join` with a newline separator. */
  function JoinLines(lines: seq<string>): string {
    if lines == [] then ""
    else if |lines| == 1 then lines[0]
    else lines[0] + "\n" + JoinLines(lines[1..])
  }

  /**
   * One line per entry, in order: an assistant entry's line starts with
   * `Assistant: `, any other entry's with `User: `, and each line ends with
   * the entry's content.
   */
  function SpeakerLines(history: seq<HistoryEntry>): (lines: seq<string>)
    ensures |lines| == |history|
    ensures forall i :: 0 <= i < |history| ==>
      (StartsWith(lines[i], "Assistant: ") <==> history[i].role == "assistant")
    ensures forall i :: 0 <= i < |history| && history[i].role != "assistant" ==> StartsWith(lines[i], "User: ")
    ensures forall i :: 0 <= i < |history| ==> EndsWith(lines[i], history[i].content)
    ensures forall i :: 0 <= i < |history| ==>
      |lines[i]| == |history[i].content| + if history[i].role == "assistant" then 11 else 6
  {
    var lines := seq(|history|, i requires 0 <= i < |history| => SpeakerLine(history[i]));
    forall i | 0 <= i < |history|
      ensures StartsWith(lines[i], "Assistant: ") <==> history[i].role == "assistant"
      ensures history[i].role != "assistant" ==> StartsWith(lines[i], "User: ")
      ensures EndsWith(lines[i], history[i].content)
    {
      SpeakerPrefix(history[i]);
      var line := lines[i];
      assert line[|line| - |history[i].content|..] == history[i].content;
    }
    lines
  }

  /** The transcript as text: one speaker line per entry, in order, separated by newlines. */
  function FormatHistory(history: seq<HistoryEntry>): (r: string)
    ensures r == "" <==> history == []
    ensures history != [] ==> StartsWith(r, SpeakerLine(history[0]))
  {
    var lines := SpeakerLines(history);
    assert history != [] ==> StartsWith(JoinLines(lines), lines[0]) by {
      if history != [] && |lines| > 1 {
        var j := JoinLines(lines);
        assert j[..|lines[0]|] == lines[0];
      }
    }
    JoinLines(lines)
  }

  /** Only an assistant entry is rendered with the assistant's prefix. */
  lemma SpeakerPrefix(m: HistoryEntry)
    ensures StartsWith(SpeakerLine(m), "Assistant: ") <==> m.role == "assistant"
    ensures m.role != "assistant" ==> StartsWith(SpeakerLine(m), "User: ")
  {
    var line := SpeakerLine(m);
    if m.role == "assistant" {
      assert line[..|"Assistant: "|] == "Assistant: ";
    } else {
      assert line[..|"User: "|] == "User: ";
      assert line[0] == 'U';
    }
  }

  /** Joining two non-empty runs of lines puts one newline between them. */
  lemma {:induction false} JoinLinesAppend(a: seq<string>, b: seq<string>)
    requires a != [] && b != []
    ensures JoinLines(a + b) == JoinLines(a) + "\n" + JoinLines(b)
  {
    if |a| == 1 {
      assert (a + b)[1..] == b;
    } else {
      JoinLinesAppend(a[1..], b);
      assert (a + b)[1..] == a[1..] + b;
    }
  }

  /**
   * Formatting preserves order: the text of a transcript is the text of its
   * first part, a newline, and the text of the rest.
   */
  lemma FormatHistoryAppend(h1: seq<HistoryEntry>, h2: seq<HistoryEntry>)
    requires h1 != [] && h2 != []
    ensures FormatHistory(h1 + h2) == FormatHistory(h1) + "\n" + FormatHistory(h2)
  {
    assert SpeakerLines(h1 + h2) == SpeakerLines(h1) + SpeakerLines(h2);
    JoinLinesAppend(SpeakerLines(h1), SpeakerLines(h2));
  }

  /** An empty transcript formats as the empty string, and a single entry as its own line. */
  lemma FormatHistoryShort(m: HistoryEntry)
    ensures FormatHistory([]) == ""
    ensures FormatHistory([m]) == SpeakerLine(m)
  {
    assert SpeakerLines([m]) == [SpeakerLine(m)];
  }

  /** A user turn followed by an assistant turn. */
  lemma FormatHistoryExample()
    ensures FormatHistory([HistoryEntry("user", "hi"), HistoryEntry("assistant", "hello")])
      == "User: hi\nAssistant: hello"
  {
    var u, a := HistoryEntry("user", "hi"), HistoryEntry("assistant", "hello");
    FormatHistoryShort(u);
    FormatHistoryShort(a);
    FormatHistoryAppend([u], [a]);
  }

  const SystemIntro: string := "You are a helpful assistant specialized in "

  /** The system message naming the topic: the fixed opening, the topic as given, and a full stop. */
  function SystemMessage(topic: string): (m: ChatMessage)
    ensures m.role == "system"
    ensures StartsWith(m.content, SystemIntro)
    ensures OccursAt(m.content, topic, |SystemIntro|)
    ensures |m.content| == |SystemIntro| + |topic| + 1 && m.content[|m.content| - 1] == '.'
  {
    var content := SystemIntro + topic + ".";
    assert content[..|SystemIntro|] == SystemIntro;
    assert content[|SystemIntro|..|SystemIntro| + |topic|] == topic;
    ChatMessage("system", content)
  }

  const ChatIntro: string := "Here is the conversation so far:\n"
  const ChatInstruction: string := "\n\nRespond helpfully to the latest user message: "
  const SummaryIntro: string := "Summarize the following conversation briefly and clearly so a newcomer can catch up:\n"

  /**
   * The messages of a chat turn: the topic's system message, then one user
   * message holding the flattened transcript followed by the new input.
   */
  function ChatMessages(topic: string, history: seq<HistoryEntry>, userInput: string): (r: seq<ChatMessage>)
    ensures |r| == 2 && r[0] == SystemMessage(topic) && r[1].role == "user"
    ensures StartsWith(r[1].content, ChatIntro)
    ensures OccursAt(r[1].content, FormatHistory(history), |ChatIntro|)
    ensures OccursAt(r[1].content, ChatInstruction + userInput, |ChatIntro| + |FormatHistory(history)|)
    ensures |r[1].content| == |ChatIntro| + |FormatHistory(history)| + |ChatInstruction| + |userInput|
    ensures EndsWith(r[1].content, userInput)
  {
    var formatted := FormatHistory(history);
    ConcatLayout(ChatIntro, formatted, ChatInstruction, userInput);
    [SystemMessage(topic), ChatMessage("user", ChatIntro + formatted + ChatInstruction + userInput)]
  }

  /** Where each of four concatenated parts sits in the result. */
  lemma ConcatLayout(a: string, b: string, c: string, d: string)
    ensures StartsWith(a + b + c + d, a)
    ensures OccursAt(a + b + c + d, b, |a|)
    ensures OccursAt(a + b + c + d, c + d, |a| + |b|)
    ensures EndsWith(a + b + c + d, d)
  {
    var s := a + b + c + d;
    assert s[..|a|] == a;
    assert s[|a|..|a| + |b|] == b;
    assert s[|a| + |b|..|a| + |b| + |c + d|] == c + d;
    assert s[|s| - |d|..] == d;
  }

  /** The topic a summary names: the given one, or `general topics` when it is missing or empty. */
  function SummaryTopic(topic: Option<string>): (t: string)
    ensures t != ""
    ensures topic.Some? && topic.value != "" ==> t == topic.value
    ensures !(topic.Some? && topic.value != "") ==> t == "general topics"
  {
    if topic.Some? && topic.value != "" then topic.value else "general topics"
  }

  /**
   * The messages of a summary request: the system message for the topic
   * (defaulted), then one user message asking for a brief summary, after
   * which the flattened transcript follows to the end.
   */
  function SummaryMessages(topic: Option<string>, history: seq<HistoryEntry>): (r: seq<ChatMessage>)
    ensures |r| == 2 && r[0] == SystemMessage(SummaryTopic(topic)) && r[1].role == "user"
    ensures StartsWith(r[1].content, SummaryIntro)
    ensures r[1].content[|SummaryIntro|..] == FormatHistory(history)
    ensures history == [] ==> r[1].content == SummaryIntro
  {
    var content := SummaryIntro + FormatHistory(history);
    assert content[..|SummaryIntro|] == SummaryIntro;
    assert content[|SummaryIntro|..] == FormatHistory(history);
    [SystemMessage(SummaryTopic(topic)), ChatMessage("user", content)]
  }

  /**
   * The summary request keeps transcript order: the request for a longer
   * transcript is the request for its first part, a newline, and the lines
   * of the rest.
   */
  lemma SummaryMessagesAppend(topic: Option<string>, h1: seq<HistoryEntry>, h2: seq<HistoryEntry>)
    requires h1 != [] && h2 != []
    ensures SummaryMessages(topic, h1 + h2)[1].content
      == SummaryMessages(topic, h1)[1].content + "\n" + FormatHistory(h2)
    ensures SummaryMessages(topic, h1 + h2)[0] == SummaryMessages(topic, h1)[0]
  {
    FormatHistoryAppend(h1, h2);
    AppendAfterPrefix(SummaryIntro, FormatHistory(h1), FormatHistory(h2));
  }

  /** A fixed prefix before a joined pair is the prefix before the first, then a newline and the second. */
  lemma AppendAfterPrefix(p: string, a: string, b: string)
    ensures p + (a + "\n" + b) == p + a + "\n" + b
  {
  }

  /** The chat turn of the two-entry example with input `bye`. */
  lemma ChatMessagesExample()
    ensures ChatMessages("math", [HistoryEntry("user", "hi"), HistoryEntry("assistant", "hello")], "bye")[1].content
      == ChatIntro + "User: hi\nAssistant: hello" + ChatInstruction + "bye"
  {
    FormatHistoryExample();
  }
}
