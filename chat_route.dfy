/**
 * The editing chat endpoint (src/app/api/ai-editor/chat/route.ts) without the language model:
 * how the document is shown to the model with line numbers, the line counts in the prompts, the
 * conversation history, and the response built from the model's answers and the tool executor.
 * The two model answers are inputs.
 */
module ChatRoute {
  import opened Wrappers
  import opened Text
  import opened ExecuteFunction

  const EmptyDocument := "(empty document)"
  const ErrorPrefix := "❌ Error: "
  const UpdatedFallback := "✅ Document updated!"
  const NoResponse := "No response"
  const ServerErrorMessage := "Failed to process request"

  datatype ChatMessage = ChatMessage(role: string, content: string)

  datatype Role = UserRole | ModelRole

  datatype Turn = Turn(role: Role, text: string)

  /** What one model call produced: its text, and the first function call among its parts. */
  datatype ModelAnswer = Answered(text: Option<string>, call: Option<(string, Args)>) | Failed(details: string)

  datatype FunctionCallInfo = FunctionCallInfo(name: string, args: Args, result: Option<ExecResult>)

  /** The JSON body: a reply message (with an optional new document), or a 500 error. */
  datatype ChatResponse =
    | Reply(content: string, functionCall: Option<FunctionCallInfo>, newDocumentContent: Option<string>)
    | ServerError(error: string, details: Option<string>)

  /** `${i + 1}. ${line}` for every line. */
  function NumberLines(lines: seq<string>, first: nat): (r: seq<string>)
    ensures |r| == |lines|
    ensures forall k :: 0 <= k < |lines| ==> r[k] == NatToString(first + k) + ". " + lines[k]
  {
    if lines == [] then [] else [NatToString(first) + ". " + lines[0]] + NumberLines(lines[1..], first + 1)
  }

  /** `formatDocumentForAI`. */
  function FormatDocumentForAI(content: string): string {
    if content == [] then EmptyDocument else Unlines(NumberLines(Lines(content), 1))
  }

  /**
   * The empty document is shown as a placeholder; any other is shown with as many lines as it
   * has, line k (from 1) reading `k. ` followed by the original line.
   */
  lemma FormatDocumentSpec(content: string)
    ensures FormatDocumentForAI("") == EmptyDocument
    ensures content != [] ==>
              var shown := Lines(FormatDocumentForAI(content));
              && |shown| == |Lines(content)|
              && forall k :: 0 <= k < |shown| ==> shown[k] == NatToString(k + 1) + ". " + Lines(content)[k]
  {
    if content == [] {
      return;
    }
    var numbered := NumberLines(Lines(content), 1);
    assert "\n" == ['\n'];
    SplitPartsAvoidChar(content, '\n');
    forall k | 0 <= k < |numbered| ensures '\n' !in numbered[k] {
      var digits := NatToString(1 + k);
      assert numbered[k] == digits + ". " + Lines(content)[k];
    }
    SplitJoin(numbered, '\n');
  }

  /** The first prompt's count: 0 for an empty document, else the number of lines. */
  function InitialLineCount(content: string): nat {
    if content != [] then |Lines(content)| else 0
  }

  /** The follow-up prompt's count, taken from the split without a guard. */
  function FollowUpLineCount(newContent: string): nat {
    |Lines(newContent)|
  }

  /** The two counts agree except on the empty document, which the follow-up counts as one line. */
  lemma LineCountsSpec(content: string)
    ensures content != [] ==> InitialLineCount(content) == FollowUpLineCount(content) == CountChar(content, '\n') + 1
    ensures InitialLineCount("") == 0 && FollowUpLineCount("") == 1
  {
    assert "\n" == ['\n'];
    SplitCount(content, '\n');
    assert Split("", "\n") == [""];
  }

  function RoleOf(role: string): Role {
    if role == "user" then UserRole else ModelRole
  }

  /** Every message but the last, as model turns. */
  function History(messages: seq<ChatMessage>): (turns: seq<Turn>)
    ensures |turns| == Max(|messages| - 1, 0)
    ensures forall k :: 0 <= k < |turns| ==> turns[k] == Turn(RoleOf(messages[k].role), messages[k].content)
  {
    var earlier := Slice(messages, 0, -1);
    seq(|earlier|, k requires 0 <= k < |earlier| => Turn(RoleOf(earlier[k].role), earlier[k].content))
  }

  /** Only the role "user" stays a user turn; "assistant" or anything else becomes the model's. */
  lemma RoleMapping(role: string)
    ensures RoleOf(role) == UserRole <==> role == "user"
    ensures RoleOf("assistant") == ModelRole
  {
  }

  /**
   * The handler: an empty message list fails when the last message is read; a failing model call
   * answers a server error; a function call runs the executor on the request's document and
   * either reports its error or returns its new content with the follow-up text.
   */
  function HandleChat(messages: seq<ChatMessage>, documentContent: string, first: ModelAnswer, second: ModelAnswer): ChatResponse {
    if messages == [] then ServerError(ServerErrorMessage, None)
    else if first.Failed? then ServerError(ServerErrorMessage, Some(first.details))
    else if first.call.None? then Reply(if Truthy(first.text) then first.text.value else NoResponse, None, None)
    else
      var name := first.call.value.0;
      var args := first.call.value.1;
      var result := ExecuteFunctionCall(name, args, documentContent);
      if !result.success then
        Reply(ErrorPrefix + result.error.GetOr(""), Some(FunctionCallInfo(name, args, Some(result))), None)
      else if second.Failed? then ServerError(ServerErrorMessage, Some(second.details))
      else
        Reply(if Truthy(second.text) then second.text.value else UpdatedFallback,
              Some(FunctionCallInfo(name, args, None)), result.newContent)
  }

  /**
   * A reply carries a new document only after a successful tool run, and then exactly the
   * executor's content; a failed run reports the executor's error and changes nothing.
   */
  lemma HandleChatSpec(messages: seq<ChatMessage>, documentContent: string, first: ModelAnswer, second: ModelAnswer)
    requires messages != [] && first.Answered? && first.call.Some?
    ensures var r := HandleChat(messages, documentContent, first, second);
            var result := ExecuteFunctionCall(first.call.value.0, first.call.value.1, documentContent);
            && (!result.success ==>
                  && r.Reply? && r.newDocumentContent.None?
                  && r.content == ErrorPrefix + result.error.value
                  && r.functionCall == Some(FunctionCallInfo(first.call.value.0, first.call.value.1, Some(result))))
            && (result.success && second.Answered? ==>
                  r.Reply? && r.newDocumentContent == result.newContent && r.newDocumentContent.Some?)
            && (r.Reply? && r.newDocumentContent.Some? ==> result.success)
  {
  }

  /** Without a function call nothing changes the document, and an empty answer reads "No response". */
  lemma PlainChatSpec(messages: seq<ChatMessage>, documentContent: string, text: Option<string>, second: ModelAnswer)
    requires messages != []
    ensures var r := HandleChat(messages, documentContent, Answered(text, None), second);
            && r.Reply? && r.newDocumentContent.None? && r.functionCall.None?
            && (r.content == NoResponse <==> !Truthy(text) || text.value == NoResponse)
  {
  }

  /** An unknown tool name is reported back with that name and leaves the document alone. */
  lemma UnknownToolReply(messages: seq<ChatMessage>, documentContent: string, name: string, args: Args, second: ModelAnswer)
    requires messages != [] && !IsToolName(name)
    ensures var r := HandleChat(messages, documentContent, Answered(None, Some((name, args))), second);
            r.Reply? && r.newDocumentContent.None? && r.content == ErrorPrefix + UnknownFunctionPrefix + name
  {
  }
}
