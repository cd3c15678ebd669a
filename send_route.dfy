/**
 * The bundled server's `POST /api/chat/send` handler: the input check, the
 * user message stored before processing, and the assistant message stored
 * after it. The chat-message table is represented by the list of messages the
 * handler inserts.
 */
module SendRoute {
  import opened Wrappers
  import opened Text
  import CP = ChatProcessor

  /** The `content` field of the request body. */
  datatype BodyField = Missing | Str(s: string) | NonString

  datatype Role = User | Assistant

  datatype StoredMessage = StoredMessage(content: string, role: Role)

  /** The status, the `error` field of a failure body, and the messages inserted. */
  datatype SendReply = SendReply(
    status: nat,
    error: Option<string>,
    inserted: seq<StoredMessage>,
    detectedVocabulary: seq<CP.VocabEntry>)

  /** `content` is present, a string, and not empty. */
  predicate AcceptsInput(content: BodyField) {
    content.Str? && content.s != ""
  }

  method HandleSend(content: BodyField, completion: CP.Completion, existing: seq<string>, insertFails: bool)
    returns (reply: SendReply)
    ensures !AcceptsInput(content) ==> reply == SendReply(400, Some("Invalid input"), [], [])
    ensures AcceptsInput(content) ==> 1 <= |reply.inserted| <= 2 && reply.inserted[0] == StoredMessage(content.s, User)
    ensures AcceptsInput(content) && IsBlank(content.s) ==>
      reply == SendReply(500, Some("Message content cannot be empty"), [StoredMessage(content.s, User)], [])
    ensures AcceptsInput(content) && !IsBlank(content.s) && |content.s| > CP.MaxMessageLength ==>
      reply == SendReply(500, Some("Message content is too long (max 1000 characters)"), [StoredMessage(content.s, User)], [])
    ensures AcceptsInput(content) && CP.CheckMessage(content.s) == None && !CP.HasText(completion) ==>
      reply == SendReply(500, Some("Failed to generate chat response"), [StoredMessage(content.s, User)], [])
    ensures AcceptsInput(content) && CP.CheckMessage(content.s) == None && CP.HasText(completion) ==>
      var r := CP.Interpret(completion.parsed);
      && reply.status == 200 && reply.error == None
      && reply.inserted == [StoredMessage(content.s, User), StoredMessage(CP.DisplayContent(r.translation, r.explanation), Assistant)]
      && reply.detectedVocabulary == CP.NewVocabulary(r.vocabulary, existing)
  {
    if !AcceptsInput(content) {
      return SendReply(400, Some("Invalid input"), [], []);
    }
    var inserted := [StoredMessage(content.s, User)];
    var result, _, _, _ := CP.GenerateChatResponse(content.s, completion, existing, insertFails);
    match result
    case Failure(e) =>
      reply := SendReply(500, Some(CP.ErrorMessage(e)), inserted, []);
    case Success(response) =>
      inserted := inserted + [StoredMessage(response.content, Assistant)];
      reply := SendReply(200, None, inserted, response.detectedVocabulary);
  }
}
