/**
 * The earlier chat processor of `server/services/chat.ts`: a default reply
 * when the completion is empty, the raw text as the reply when it is not
 * JSON, the same duplicate filter as the newer processor, and a rule for
 * showing the English line. The completion service and the store lookup are
 * parameters, as in ChatProcessor.
 */
module LegacyChat {
  import opened Wrappers
  import opened Text
  import Dedup
  import Sequences

  /** A vocabulary object of the reply; `word` is None when missing or null. */
  datatype LegacyItem = LegacyItem(word: Option<string>, translation: string, kind: string, example: string)

  /** A parsed reply; `vocabulary` is None when it is missing or not an array. */
  datatype LegacyReply = LegacyReply(spanish: Option<string>, english: Option<string>, vocabulary: Option<seq<LegacyItem>>)

  /** The completion's message content, with what `JSON.parse` made of it (None: it threw). */
  datatype LegacyCompletion = NoContent | Content(text: string, parsed: Option<LegacyReply>)

  datatype LegacyResponse = LegacyResponse(content: string, detectedVocabulary: seq<LegacyItem>)

  const DefaultSpanish := "Lo siento, no entiendo."

  /** The text used when the completion has no content, and what it parses to. */
  const DefaultReplyText := "{\"spanish\": \"Lo siento, no entiendo.\", \"vocabulary\": []}"
  const DefaultReply := LegacyReply(Some(DefaultSpanish), None, Some([]))

  /** The one error every failure turns into. */
  const GenerateError := "Failed to generate chat response"

  predicate HasText(completion: LegacyCompletion) {
    completion.Content? && completion.text != ""
  }

  /** `completion.choices[0]?.message?.content || DefaultReplyText`. */
  function ResponseText(completion: LegacyCompletion): (text: string)
    ensures text != ""
    ensures HasText(completion) ==> text == completion.text
    ensures !HasText(completion) ==> text == DefaultReplyText
  {
    if HasText(completion) then completion.text else DefaultReplyText
  }

  /** The reply after the parse attempt: the default, the parsed object, or the raw text with no vocabulary. */
  function Interpret(completion: LegacyCompletion): (reply: LegacyReply)
    ensures !HasText(completion) ==> reply == DefaultReply
    ensures HasText(completion) && completion.parsed.None? ==> reply == LegacyReply(Some(completion.text), None, Some([]))
    ensures HasText(completion) && completion.parsed.Some? ==> reply == completion.parsed.value
  {
    if !HasText(completion) then DefaultReply
    else match completion.parsed
      case None => LegacyReply(Some(ResponseText(completion)), None, Some([]))
      case Some(r) => r
  }

  predicate PlainEnglishChar(c: char) {
    ('a' <= c <= 'z') || ('A' <= c <= 'Z') || IsWhitespace(c) || c in {',', '.', '!', '?'}
  }

  /** The message asks for a translation, or matches `/^[a-zA-Z\s,.!?]+$/`. */
  predicate ShowsEnglish(userMessage: string)
    ensures ShowsEnglish(userMessage) ==> userMessage != ""
    ensures StartsWith(userMessage, "translate:") ==> ShowsEnglish(userMessage)
  {
    StartsWith(Lower(userMessage), "translate:")
    || (|userMessage| > 0 && forall i :: 0 <= i < |userMessage| ==> PlainEnglishChar(userMessage[i]))
  }

  function ItemWord(item: LegacyItem): string {
    item.word.GetOr("")
  }

  predicate AllWordsPresent(items: seq<LegacyItem>) {
    forall i :: 0 <= i < |items| ==> items[i].word.Some?
  }

  /** The reply has the fields the processor dereferences. */
  predicate Usable(reply: LegacyReply) {
    reply.spanish.Some? && reply.vocabulary.Some? && AllWordsPresent(reply.vocabulary.value)
  }

  function GenerateChatResponse(userMessage: string, completion: LegacyCompletion, existing: seq<string>)
    : (r: Result<LegacyResponse, string>)
    ensures r.Failure? <==> !Usable(Interpret(completion))
    ensures r.Failure? ==> r.error == GenerateError
    ensures r.Success? ==>
      var reply := Interpret(completion);
      var items := reply.vocabulary.value;
      && Sequences.IsSubsequence(r.value.detectedVocabulary, items)
      && (forall v :: v in r.value.detectedVocabulary <==>
            v in items && forall s :: s in existing ==> Lower(s) != Lower(ItemWord(v)))
      && (forall v :: multiset(r.value.detectedVocabulary)[v] ==
            if Lower(ItemWord(v)) in Dedup.KnownWords(existing) then 0 else multiset(items)[v])
    ensures r.Success? ==>
      var reply := Interpret(completion);
      && (ShowsEnglish(userMessage) ==> r.value.content == reply.spanish.value + "\n\n" + reply.english.GetOr(""))
      && (!ShowsEnglish(userMessage) ==> r.value.content == reply.spanish.value)
      && (|r.value.content| > |reply.spanish.value| <==> ShowsEnglish(userMessage))
  {
    var reply := Interpret(completion);
    if !Usable(reply) then Failure(GenerateError)
    else
      var newVocabulary := Dedup.FilterNew(reply.vocabulary.value, ItemWord, Dedup.KnownWords(existing));
      var content :=
        if ShowsEnglish(userMessage) then reply.spanish.value + "\n\n" + reply.english.GetOr("")
        else reply.spanish.value;
      Success(LegacyResponse(content, newVocabulary))
  }

  /** An empty completion yields the default Spanish line and no vocabulary. */
  lemma EmptyCompletionGivesDefault(userMessage: string, existing: seq<string>)
    ensures var r := GenerateChatResponse(userMessage, NoContent, existing);
      r.Success? && r.value.detectedVocabulary == []
      && StartsWith(r.value.content, DefaultSpanish)
  {
  }

  /** Text that is not JSON is shown verbatim, with no vocabulary. */
  lemma UnparsableTextShownVerbatim(userMessage: string, text: string, existing: seq<string>)
    requires text != "" && !ShowsEnglish(userMessage)
    ensures GenerateChatResponse(userMessage, Content(text, None), existing) == Success(LegacyResponse(text, []))
  {
  }

  /** The "translate:" prefix is recognised in any letter case. */
  lemma TranslatePrefixIgnoresCase()
    ensures ShowsEnglish("TRANSLATE: \U{732B}")
  {
    var m := "TRANSLATE: \U{732B}";
    assert Lower(m)[..10] == "translate:";
  }

  /** A message with characters outside the plain-English class and no prefix shows Spanish only. */
  lemma SpanishQuestionShowsSpanishOnly()
    ensures !ShowsEnglish("hola, \U{BF}qu\U{E9} tal?")
  {
    var m := "hola, \U{BF}qu\U{E9} tal?";
    assert !PlainEnglishChar(m[6]);
    assert Lower(m)[0] == 'h';
  }
}
