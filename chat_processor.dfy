/**
 * The bundled server's `generateChatResponse`: input validation, structural
 * validation of the LLM's JSON reply with a fixed fallback, removal of
 * vocabulary that is already stored, the rows handed to the store, and the
 * display text. The completion service and the store are parameters: the
 * reply arrives already parsed, and `existing` holds the `spanish` values of
 * the stored rows that the store's lookup returned.
 */
module ChatProcessor {
  import opened Wrappers
  import opened Text
  import Dedup
  import Sequences

  const MaxMessageLength := 1000

  /** A vocabulary object of the parsed reply; a field that is missing or null is None. */
  datatype RawItem = RawItem(
    word: Option<string>,
    translation: Option<string>,
    usageType: Option<string>,
    explanation: Option<string>,
    example: Option<string>,
    exampleTranslation: Option<string>,
    grammarNotes: Option<string>)

  /**
   * What `JSON.parse` made of the reply text: not JSON at all, or an object
   * whose `vocabulary` is None when it is missing or not an array.
   */
  datatype ParsedReply =
    | NotJson
    | JsonObject(
        inputLanguage: Option<string>,
        translation: Option<string>,
        explanation: Option<string>,
        vocabulary: Option<seq<RawItem>>)

  /** The completion's message content, if any, with the parse of its decoded text. */
  datatype Completion = NoContent | Content(text: string, parsed: ParsedReply)

  /** A vocabulary item after validation; text fields that were falsy are now "". */
  datatype VocabEntry = VocabEntry(
    word: string,
    translation: string,
    usageType: Option<string>,
    explanation: string,
    example: Option<string>,
    exampleTranslation: string,
    grammarNotes: string)

  datatype Reply = Reply(inputLanguage: string, translation: string, explanation: string, vocabulary: seq<VocabEntry>)

  datatype ChatError = EmptyMessage | MessageTooLong | GenerationFailed

  datatype ChatResponse = ChatResponse(content: string, explanation: string, detectedVocabulary: seq<VocabEntry>)

  /** The columns of a `vocabulary_items` row that the processor fills in. */
  datatype VocabularyRow = VocabularyRow(spanish: string, chinese: string, example: Option<string>, notes: string)

  function ErrorMessage(e: ChatError): string {
    match e
    case EmptyMessage => "Message content cannot be empty"
    case MessageTooLong => "Message content is too long (max 1000 characters)"
    case GenerationFailed => "Failed to generate chat response"
  }

  /** The reply the processor substitutes for one that fails validation. */
  const Fallback := Reply(
    "chinese",
    "\U{5BF9}\U{4E0D}\U{8D77}\U{FF0C}\U{7CFB}\U{7EDF}\U{6682}\U{65F6}\U{65E0}\U{6CD5}\U{5904}\U{7406}\U{60A8}\U{7684}\U{8BF7}\U{6C42}\U{3002}",
    "\U{7CFB}\U{7EDF}\U{9519}\U{8BEF}\U{FF0C}\U{8BF7}\U{7A0D}\U{540E}\U{518D}\U{8BD5}\U{3002}",
    [])

  /** JavaScript truthiness of a string-valued field. */
  predicate Truthy(field: Option<string>) {
    field.Some? && field.value != ""
  }

  const ByteOrderMark := '\U{FEFF}'

  /**
   * `new TextDecoder("utf-8").decode(new TextEncoder().encode(s))`. Encoding
   * is lossless for scalar values; the decoder, whose `ignoreBOM` is false,
   * drops one leading byte-order mark.
   */
  function Utf8RoundTrip(s: string): (r: string)
    ensures r == s || s == [ByteOrderMark] + r
    ensures r == s <==> s == [] || s[0] != ByteOrderMark
    ensures r == [] <==> s == [] || s == [ByteOrderMark]
  {
    if s != [] && s[0] == ByteOrderMark then s[1..] else s
  }

  /** A character of the CJK Unified Ideographs block, `/[\u4E00-\u9FFF]/`. */
  predicate IsIdeograph(c: char) {
    '\U{4E00}' <= c <= '\U{9FFF}'
  }

  predicate HasIdeograph(s: string) {
    exists i :: 0 <= i < |s| && IsIdeograph(s[i])
  }

  /**
   * `validateChineseString`: a falsy value becomes ""; a string with an
   * ideograph goes through the UTF-8 round trip; any other string comes back
   * unchanged.
   */
  function Clean(field: Option<string>): (s: string)
    ensures !Truthy(field) ==> s == ""
    ensures Truthy(field) && !HasIdeograph(field.value) ==> s == field.value
    ensures Truthy(field) ==> s == field.value || [ByteOrderMark] + s == field.value
    ensures Truthy(field) ==> (HasIdeograph(s) <==> HasIdeograph(field.value))
    ensures Truthy(field) ==> s != ""
  {
    if !Truthy(field) then ""
    else if HasIdeograph(field.value) then
      var v := field.value;
      var r := Utf8RoundTrip(v);
      assert HasIdeograph(r) by {
        var i :| 0 <= i < |v| && IsIdeograph(v[i]);
        if r != v {
          assert 0 < i && r[i - 1] == v[i];
        }
      }
      r
    else field.value
  }

  /** The checks that run before the completion service is called. */
  function CheckMessage(message: string): (r: Option<ChatError>)
    ensures r == Some(EmptyMessage) <==> IsBlank(message)
    ensures r == Some(MessageTooLong) <==> !IsBlank(message) && |message| > MaxMessageLength
    ensures r == None <==> !IsBlank(message) && |message| <= MaxMessageLength
  {
    TrimEmptyIffBlank(message);
    if message == [] || |Trim(message)| == 0 then Some(EmptyMessage)
    else if |message| > MaxMessageLength then Some(MessageTooLong)
    else None
  }

  /** The item the `vocabulary.map` callback returns for an item it accepts. */
  function Entry(item: RawItem): VocabEntry
    requires Truthy(item.word) && Truthy(item.translation)
  {
    VocabEntry(item.word.value, Clean(item.translation), item.usageType, Clean(item.explanation),
      item.example, Clean(item.exampleTranslation), Clean(item.grammarNotes))
  }

  predicate ItemWellFormed(item: RawItem) {
    Truthy(item.word) && Truthy(item.translation)
  }

  /** The reply passes every check of the validation block. */
  predicate WellFormed(parsed: ParsedReply) {
    && parsed.JsonObject?
    && Truthy(parsed.inputLanguage)
    && Truthy(parsed.translation)
    && parsed.vocabulary.Some?
    && forall i :: 0 <= i < |parsed.vocabulary.value| ==> ItemWellFormed(parsed.vocabulary.value[i])
  }

  /** The `vocabulary.map` that throws on the first item without a word or translation. */
  function ValidateItems(items: seq<RawItem>): (r: Option<seq<VocabEntry>>)
    ensures r.Some? <==> forall i :: 0 <= i < |items| ==> ItemWellFormed(items[i])
    ensures r.Some? ==> |r.value| == |items|
    ensures r.Some? ==> forall i :: 0 <= i < |items| ==> ItemWellFormed(items[i]) && r.value[i] == Entry(items[i])
  {
    if items == [] then Some([])
    else if !ItemWellFormed(items[0]) then None
    else
      match ValidateItems(items[1..])
      case None => None
      case Some(rest) => Some([Entry(items[0])] + rest)
  }

  /** The validation block: the cleaned reply, or None where it would throw. */
  function Validate(parsed: ParsedReply): (r: Option<Reply>)
    ensures r.Some? <==> WellFormed(parsed)
    ensures r.Some? ==>
      && r.value.inputLanguage == parsed.inputLanguage.value
      && r.value.translation == Clean(parsed.translation)
      && r.value.explanation == Clean(parsed.explanation)
      && |r.value.vocabulary| == |parsed.vocabulary.value|
      && forall i :: 0 <= i < |r.value.vocabulary| ==>
           ItemWellFormed(parsed.vocabulary.value[i]) && r.value.vocabulary[i] == Entry(parsed.vocabulary.value[i])
  {
    if !parsed.JsonObject? || !Truthy(parsed.inputLanguage) || !Truthy(parsed.translation)
       || parsed.vocabulary.None? then None
    else
      match ValidateItems(parsed.vocabulary.value)
      case None => None
      case Some(entries) =>
        Some(Reply(parsed.inputLanguage.value, Clean(parsed.translation), Clean(parsed.explanation), entries))
  }

  /** The reply the rest of the processor works with: the validated one, or the fallback. */
  function Interpret(parsed: ParsedReply): (reply: Reply)
    ensures WellFormed(parsed) ==> Some(reply) == Validate(parsed)
    ensures !WellFormed(parsed) ==> reply == Fallback && reply.vocabulary == []
  {
    match Validate(parsed)
    case Some(r) => r
    case None => Fallback
  }

  function Word(v: VocabEntry): string { v.word }

  /**
   * `detectedVocabulary`: the reply items, in order, whose lower-cased word
   * is not the lower-cased form of any value in `existing`.
   */
  function NewVocabulary(vocab: seq<VocabEntry>, existing: seq<string>): (r: seq<VocabEntry>)
    ensures Sequences.IsSubsequence(r, vocab)
    ensures forall v :: v in r <==> v in vocab && forall s :: s in existing ==> Lower(s) != Lower(v.word)
    ensures forall v :: multiset(r)[v] == if Lower(v.word) in Dedup.KnownWords(existing) then 0 else multiset(vocab)[v]
  {
    Dedup.FilterNew(vocab, Word, Dedup.KnownWords(existing))
  }

  /** The template literal for a field the reply may lack prints "undefined". */
  function TemplateText(field: Option<string>): string {
    if field.Some? then field.value else "undefined"
  }

  /**
   * The `notes` column: the explanation, a blank line, the usage label and
   * the grammar label; a missing usage type prints as "undefined".
   */
  function Notes(v: VocabEntry): (notes: string)
    ensures StartsWith(notes, v.explanation + "\n\n\U{7528}\U{6CD5}\U{FF1A}")
    ensures |notes| == |v.explanation| + 5 + |TemplateText(v.usageType)| + 4 + |v.grammarNotes|
    ensures notes[|notes| - |v.grammarNotes| - 4..] == "\n\U{8BED}\U{6CD5}\U{FF1A}" + v.grammarNotes
    ensures notes[|v.explanation| + 5..|notes| - |v.grammarNotes| - 4] == TemplateText(v.usageType)
    ensures v.usageType.None? ==> Contains(notes, "undefined")
  {
    var usage := TemplateText(v.usageType);
    var head := v.explanation + "\n\n\U{7528}\U{6CD5}\U{FF1A}";
    assert OccursAt(head + usage + "\n\U{8BED}\U{6CD5}\U{FF1A}" + v.grammarNotes, usage, |head|);
    v.explanation + "\n\n\U{7528}\U{6CD5}\U{FF1A}" + TemplateText(v.usageType) + "\n\U{8BED}\U{6CD5}\U{FF1A}" + v.grammarNotes
  }

  /** The `vocabToAdd` rows: one per new item, in the same order. */
  function Rows(vocab: seq<VocabEntry>): (rows: seq<VocabularyRow>)
    ensures |rows| == |vocab|
    ensures forall i :: 0 <= i < |vocab| ==>
      && rows[i].spanish == vocab[i].word
      && rows[i].chinese == vocab[i].translation
      && rows[i].example == vocab[i].example
      && rows[i].notes == Notes(vocab[i])
  {
    seq(|vocab|, i requires 0 <= i < |vocab| => VocabularyRow(vocab[i].word, vocab[i].translation, vocab[i].example, Notes(vocab[i])))
  }

  /** The display text: the translation, then a blank line and the explanation when there is one. */
  function DisplayContent(translation: string, explanation: string): string {
    if explanation == "" then translation else translation + "\n\n" + explanation
  }

  /** Builds `content` as the source does, by appending to the translation. */
  method BuildContent(translation: string, explanation: string) returns (content: string)
    ensures content == DisplayContent(translation, explanation)
    ensures StartsWith(content, translation)
    ensures explanation == "" <==> content == translation
    ensures explanation != "" ==> content[|translation|..] == "\n\n" + explanation
  {
    content := translation;
    if explanation != "" {
      content := content + "\n\n" + explanation;
    }
  }

  /**
   * The completion has content and its decoded `responseText` is not empty;
   * otherwise one of the two checks after the completion call throws.
   */
  predicate HasText(completion: Completion) {
    completion.Content? && completion.text != "" && Utf8RoundTrip(completion.text) != ""
  }

  /**
   * One request through the processor. `calledModel` says whether the
   * completion service was asked; `inserted` is what the store's insert was
   * given ([] when it is not called); `announced` says whether the inserted
   * rows were broadcast, which happens only when the insert succeeds.
   */
  method GenerateChatResponse(userMessage: string, completion: Completion, existing: seq<string>, insertFails: bool)
    returns (result: Result<ChatResponse, ChatError>, calledModel: bool, inserted: seq<VocabularyRow>, announced: bool)
    ensures IsBlank(userMessage) ==> result == Failure(EmptyMessage)
    ensures !IsBlank(userMessage) && |userMessage| > MaxMessageLength ==> result == Failure(MessageTooLong)
    ensures calledModel <==> !IsBlank(userMessage) && |userMessage| <= MaxMessageLength
    ensures !calledModel ==> inserted == []
    ensures calledModel && !HasText(completion) ==> result == Failure(GenerationFailed) && inserted == []
    ensures calledModel && HasText(completion) ==>
      var reply := Interpret(completion.parsed);
      var newItems := NewVocabulary(reply.vocabulary, existing);
      && result == Success(ChatResponse(DisplayContent(reply.translation, reply.explanation), reply.explanation, newItems))
      && inserted == Rows(newItems)
    ensures announced <==> inserted != [] && !insertFails
  {
    inserted, announced := [], false;
    var rejected := CheckMessage(userMessage);
    if rejected.Some? {
      return Failure(rejected.value), false, [], false;
    }
    calledModel := true;
    if !HasText(completion) {
      result := Failure(GenerationFailed);
      return;
    }
    var reply := Interpret(completion.parsed);
    var newItems := NewVocabulary(reply.vocabulary, existing);
    if |newItems| > 0 {
      inserted := Rows(newItems);
      // a failed insert is logged; it suppresses only the broadcast
      announced := !insertFails;
    }
    var content := BuildContent(reply.translation, reply.explanation);
    result := Success(ChatResponse(content, reply.explanation, newItems));
  }

  /** Content that is only a byte-order mark decodes to "" and the request fails. */
  lemma ByteOrderMarkOnlyIsNoText(parsed: ParsedReply)
    ensures !HasText(Content([ByteOrderMark], parsed))
  {
  }

  /** A translation with an ideograph loses its leading byte-order mark in validation. */
  lemma CleanDropsLeadingMark(rest: string)
    requires HasIdeograph(rest)
    ensures Clean(Some([ByteOrderMark] + rest)) == rest
  {
    var i :| 0 <= i < |rest| && IsIdeograph(rest[i]);
    assert ([ByteOrderMark] + rest)[i + 1] == rest[i];
  }

  /** A reply that fails validation yields the fallback text and detects no vocabulary. */
  lemma MalformedReplyFallsBack(parsed: ParsedReply, existing: seq<string>)
    requires !WellFormed(parsed)
    ensures NewVocabulary(Interpret(parsed).vocabulary, existing) == []
    ensures DisplayContent(Interpret(parsed).translation, Interpret(parsed).explanation)
         == Fallback.translation + "\n\n" + Fallback.explanation
  {
  }

  /** The content splits back into the translation and the explanation. */
  lemma ContentRecoversParts(translation: string, explanation: string)
    requires explanation != ""
    ensures var c := DisplayContent(translation, explanation);
      c[..|translation|] == translation && c[|translation| + 2..] == explanation
  {
  }

  // ---------------------------------------------------------------------
  // The store lookup that produces `existing`.

  predicate MatchesSomeWordExactly(s: string, vocab: seq<VocabEntry>) {
    exists v :: v in vocab && s == Lower(v.word)
  }

  /**
   * The lookup as written: stored `spanish` values equal to the lower-cased
   * word of some reply item. The comparison in the store is case-sensitive,
   * and a reply without vocabulary gives `or()` no operands, which places no
   * condition on the query: every stored value comes back.
   */
  function LookupAsWritten(stored: seq<string>, vocab: seq<VocabEntry>): (r: seq<string>)
    ensures vocab == [] ==> r == stored
    ensures vocab != [] ==> forall s :: s in r <==> s in stored && MatchesSomeWordExactly(s, vocab)
  {
    if vocab == [] then stored
    else Sequences.Select(stored, s => MatchesSomeWordExactly(s, vocab))
  }

  /**
   * The discrepancy: a reply with no vocabulary (every fallback reply) reads
   * back the whole stored table, although no word was asked about.
   */
  lemma LookupAsWrittenReadsAllForEmptyReply(stored: seq<string>)
    ensures LookupAsWritten(stored, []) == stored
    ensures NewVocabulary([], LookupAsWritten(stored, [])) == []
  {
  }

  /**
   * With the lookup as written, an item counts as known only when its
   * lower-cased word is stored verbatim: a stored word with a capital letter
   * never blocks anything.
   */
  lemma LookupAsWrittenKnowsOnlyLowerCase(stored: seq<string>, vocab: seq<VocabEntry>)
    ensures forall v :: v in NewVocabulary(vocab, LookupAsWritten(stored, vocab)) <==> v in vocab && Lower(v.word) !in stored
  {
    var existing := LookupAsWritten(stored, vocab);
    forall v | v in vocab
      ensures (forall s :: s in existing ==> Lower(s) != Lower(v.word)) <==> Lower(v.word) !in stored
    {
      if Lower(v.word) in stored {
        LowerIdempotent(v.word);
        assert Lower(v.word) in existing;
      }
      forall s | s in existing ensures Lower(s) == s {
        var w :| w in vocab && s == Lower(w.word);
        LowerIdempotent(w.word);
      }
    }
  }

  /**
   * The discrepancy: "Hola" is stored and the reply proposes "Hola" again;
   * the lookup finds nothing and the word is detected, and inserted, a second time.
   */
  lemma LookupAsWrittenMissesCapitalised()
    ensures var v := VocabEntry("Hola", "\U{4F60}\U{597D}", None, "", None, "", "");
      LookupAsWritten(["Hola"], [v]) == [] && NewVocabulary([v], LookupAsWritten(["Hola"], [v])) == [v]
  {
    var v := VocabEntry("Hola", "\U{4F60}\U{597D}", None, "", None, "", "");
    assert Lower("Hola")[0] == 'h';
    assert !MatchesSomeWordExactly("Hola", [v]);
    assert LookupAsWritten(["Hola"], [v]) == [];
    assert v in NewVocabulary([v], []);
  }

  predicate MatchesSomeWordIgnoringCase(s: string, vocab: seq<VocabEntry>) {
    exists v :: v in vocab && Lower(s) == Lower(v.word)
  }

  /** The lookup the dedup needs: stored values equal to some reply word ignoring case. */
  function LookupIgnoringCase(stored: seq<string>, vocab: seq<VocabEntry>): (r: seq<string>)
    ensures forall s :: s in r <==> s in stored && MatchesSomeWordIgnoringCase(s, vocab)
  {
    Sequences.Select(stored, s => MatchesSomeWordIgnoringCase(s, vocab))
  }

  /** The corrected lookup reads nothing for a reply without vocabulary. */
  lemma LookupIgnoringCaseReadsNothingForEmptyReply(stored: seq<string>)
    ensures LookupIgnoringCase(stored, []) == []
  {
  }

  /**
   * With the case-insensitive lookup, no detected item matches any stored
   * word ignoring case, and every item that matches none is detected.
   */
  lemma LookupIgnoringCasePreventsDuplicates(stored: seq<string>, vocab: seq<VocabEntry>)
    ensures forall v :: v in NewVocabulary(vocab, LookupIgnoringCase(stored, vocab)) <==>
      v in vocab && forall s :: s in stored ==> Lower(s) != Lower(v.word)
  {
    var existing := LookupIgnoringCase(stored, vocab);
    forall v, s | v in vocab && s in stored && Lower(s) == Lower(v.word)
      ensures s in existing
    {
      assert MatchesSomeWordIgnoringCase(s, vocab);
    }
  }
}
