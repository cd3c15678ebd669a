# SpeakingAI chat and vocabulary logic, modelled in Dafny

SpeakingAI is a Spanish/Chinese language-learning chat application. A user's message goes to an
LLM. The server validates the structured JSON reply and removes vocabulary the store already
holds. It stores the new words and returns display text. The browser keeps a vocabulary cache,
searches and sorts it, rates web-vitals measurements and holds the chat transcript in a store.

This project models that logic:

- `ChatProcessor` (`chat_processor.dfy`): the bundled server's `generateChatResponse` (`index.js`).
  It covers the input checks, reply validation with its fixed fallback, the duplicate filter, the
  rows handed to the store and the display text.
- `SendRoute` (`send_route.dfy`): the `POST /api/chat/send` handler. It covers the input check
  and which chat messages get stored.
- `RequestLog` (`request_log.dfy`): which requests the logging middleware logs, and the 80-character
  limit on a log line.
- `LegacyChat` (`legacy_chat.dfy`): the older processor in `server/services/chat.ts`, with its
  default reply, raw-text fallback and the rule for showing the English line.
- `Vocabulary` (`vocabulary.dfy`): `filterVocabulary` (search, then a sort by a key in either
  order), and the client cache with its listener set as a class.
- `Performance` (`performance.dfy`): `getRating` and the append-only metrics log as a class.
- `Store` (`chat_store.dfy`): the zustand chat store as a class whose setters each change one field.
- Shared helpers: `Text` (JavaScript string primitives), `Sequences` (order-preserving filter),
  `Dedup` (the duplicate filter both processors use) and `Wrappers` (Option and Result).

The external services are parameters:

- The LLM completion is a `Completion` value: either no content, or the text together with what
  `JSON.parse` made of it.
- The store's lookup result is `existing`, the `spanish` values of the rows the lookup returned.
- A failing insert is the flag `insertFails`.
- `fetch` replies are `HttpReply` values, and `Date.now()` is the parameter `now`.

The duplicate check lower-cases the stored values before comparing them (index.js:201), so it is meant
to ignore case. The store lookup in front of it compares case-sensitively, however. The model keeps that
lookup as written and sets a corrected one beside it (see Findings).

## Model

| member | source | states |
|---|---|---|
| `Text.TrimEmptyIffBlank` | index.js:104 | `trim()` leaves nothing exactly when every character is JavaScript white space |
| `Text.LexLeTotal` | src/lib/vocabulary.ts:94-96 | the string order used for comparisons is total |
| `Text.LexLeTransitive` | src/lib/vocabulary.ts:94-96 | the string order used for comparisons is transitive |
| `Text.Compare` | src/lib/vocabulary.ts:95 | the comparison is zero exactly for equal strings, and negative or positive exactly as the first string comes strictly before or after the second |
| `Text.LexLeIsCompare` | src/lib/vocabulary.ts:95-96 | a string comes no later than another exactly when their comparison is not positive |
| `Sequences.Select` | src/lib/vocabulary.ts:75-79 | `filter` keeps an order-preserving subsequence: every occurrence of each element that passes the test, and nothing else |
| `Dedup.KnownWords` | index.js:201 | the known-word set is exactly the lower-cased forms of the existing values |
| `Dedup.FilterNew` | server/services/chat.ts:76-79 | the kept items are a subsequence of the reply's items; an item is kept if and only if its lower-cased word is not known, with every occurrence kept |
| `ChatProcessor.CheckMessage` | index.js:104-109 | a blank message is rejected as empty; otherwise more than 1000 characters is too long; a message of up to 1000 characters passes |
| `ChatProcessor.Utf8RoundTrip` | index.js:138-140 | the TextEncoder/TextDecoder round trip returns its input except that one leading byte-order mark is dropped; it is empty exactly for "" and a lone mark |
| `ChatProcessor.Clean` | index.js:148-162 | a falsy field becomes ""; a truthy one stays non-empty, comes back unchanged when it has no ideograph, otherwise loses at most a leading byte-order mark, and keeps or lacks an ideograph as its input did |
| `ChatProcessor.CleanDropsLeadingMark` | index.js:151-155 | a field with an ideograph and a leading byte-order mark comes back without the mark |
| `ChatProcessor.ValidateItems` | index.js:168-179 | the item mapping succeeds if and only if every item has a truthy word and translation; each output entry is the cleaned input item at the same index |
| `ChatProcessor.Validate` | index.js:163-179 | a reply is accepted if and only if it is an object with truthy `input_language` and `translation`, an array `vocabulary` and well-formed items; the translation and explanations are the cleaned fields, falsy explanations becoming "" |
| `ChatProcessor.Interpret` | index.js:185-197 | a reply that fails validation is replaced by the fixed fallback, which has no vocabulary |
| `ChatProcessor.NewVocabulary` | index.js:201-202 | `detectedVocabulary` is a subsequence of the reply's vocabulary; an item is in it if and only if no existing value lower-cases to its lower-cased word |
| `ChatProcessor.Notes` | index.js:208-211 | the notes begin with the explanation, a blank line and the usage label, end with the grammar label and the grammar notes, hold the usage type's text, or "undefined" when it is missing, exactly between the two labels, and have the sum of the parts' lengths |
| `ChatProcessor.Rows` | index.js:203-212 | one row per new item, in order, with `spanish` = word, `chinese` = translation, `example` = example and the notes template |
| `ChatProcessor.BuildContent` | index.js:232-240 | `content` is the translation when the explanation is empty, and the translation, a blank line and the explanation otherwise |
| `ChatProcessor.ContentRecoversParts` | index.js:234-239 | with an explanation, the content splits back into the translation and the explanation |
| `ChatProcessor.ByteOrderMarkOnlyIsNoText` | index.js:135-143 | content that is only a byte-order mark decodes to "" and counts as no response |
| `ChatProcessor.MalformedReplyFallsBack` | index.js:189-202 | a malformed reply detects no vocabulary and displays the fallback's translation and explanation |
| `ChatProcessor.GenerateChatResponse` | index.js:103-254 | input errors come before the completion call; a missing completion, or content that decodes to "", fails with the generic error; otherwise the result's content, explanation and detected vocabulary follow the reply; rows are inserted only when there are new items; an insert failure suppresses only the broadcast |
| `ChatProcessor.LookupAsWritten` | index.js:198-200 | for a reply with vocabulary, the store lookup returns exactly the stored values equal to some lower-cased reply word; for a reply without vocabulary, `or()` has no operands and every stored value comes back |
| `ChatProcessor.LookupAsWrittenReadsAllForEmptyReply` | index.js:195-200 | a reply without vocabulary reads back the whole table and still detects nothing |
| `ChatProcessor.LookupAsWrittenKnowsOnlyLowerCase` | index.js:198-202 | with that lookup, an item is detected as new if and only if its lower-cased word is not stored verbatim |
| `ChatProcessor.LookupAsWrittenMissesCapitalised` | index.js:198-205 | a stored "Hola" does not stop "Hola" from being detected and inserted again |
| `ChatProcessor.LookupIgnoringCase` | index.js:198-200 | the corrected lookup returns the stored values that match some reply word ignoring case |
| `ChatProcessor.LookupIgnoringCaseReadsNothingForEmptyReply` | index.js:198-200 | the corrected lookup reads nothing for a reply without vocabulary |
| `ChatProcessor.LookupIgnoringCasePreventsDuplicates` | index.js:198-202 | with the corrected lookup, an item is detected if and only if no stored word matches it ignoring case |
| `SendRoute.HandleSend` | index.js:282-308 | missing, non-string or empty `content` gives 400 "Invalid input" with nothing stored; otherwise the user message is stored first; processing errors give 500 with their message; success stores the assistant's content and returns the detected vocabulary |
| `RequestLog.Truncate` | index.js:442-444 | a line of more than 80 characters becomes its first 79 characters plus an ellipsis, exactly 80 in all; shorter lines are unchanged |
| `RequestLog.TruncateIdempotent` | index.js:442-444 | truncating a truncated line changes nothing |
| `RequestLog.FormatLogLine` | index.js:435-446 | only paths starting with `/api` are logged, as the method/path/status/duration line with the optional JSON body, truncated |
| `LegacyChat.Interpret` | server/services/chat.ts:55-66 | no content gives the default Spanish reply; text that is not JSON becomes the Spanish text with no vocabulary |
| `LegacyChat.ResponseText` | server/services/chat.ts:55 | the reply text is the completion's content when there is any, and the default JSON text otherwise; it is never empty |
| `LegacyChat.ShowsEnglish` | server/services/chat.ts:87 | only a non-empty message qualifies, and any message starting with "translate:" does |
| `LegacyChat.GenerateChatResponse` | server/services/chat.ts:35-99 | every failure is the single generic error; detected vocabulary is an order-preserving subsequence holding every occurrence of each item whose lower-cased word is not known, and nothing else; the English line is appended if and only if the message starts with "translate:" (any case) or is plain English text |
| `LegacyChat.EmptyCompletionGivesDefault` | server/services/chat.ts:55 | an empty completion yields "Lo siento, no entiendo." and no vocabulary |
| `LegacyChat.UnparsableTextShownVerbatim` | server/services/chat.ts:58-66 | for a message that does not ask for English, a reply that is not JSON is shown as is, with no vocabulary |
| `LegacyChat.TranslatePrefixIgnoresCase` | server/services/chat.ts:87 | "TRANSLATE:" counts as the translate prefix |
| `LegacyChat.SpanishQuestionShowsSpanishOnly` | server/services/chat.ts:87-89 | a message with "¿" and "é" and no prefix gets the Spanish text only |
| `Vocabulary.Matches` | src/lib/vocabulary.ts:75-79 | an empty term matches every item, and a term matches only when some searched field is at least as long as the term |
| `Vocabulary.Candidates` | src/lib/vocabulary.ts:73-80 | with a search term, an item is kept if and only if the lower-cased term occurs in its lower-cased Spanish, Chinese or example text, every occurrence of it is kept, and the order is kept; with no term the result is the input itself |
| `Vocabulary.Precedes` | src/lib/vocabulary.ts:84-99 | one item may stay in front of another exactly when the comparator's value for them (timestamp difference, or string comparison, negated for descending order) is at most zero |
| `Vocabulary.PrecedesTotal` | src/lib/vocabulary.ts:84-97 | any two items are ordered one way or the other by the comparator |
| `Vocabulary.PrecedesTransitive` | src/lib/vocabulary.ts:84-97 | the comparator's order is transitive for every key and direction |
| `Vocabulary.Insert` | src/lib/vocabulary.ts:83-100 | inserting into a sorted list keeps it sorted and adds exactly the one item |
| `Vocabulary.SortItems` | src/lib/vocabulary.ts:83-100 | the sort returns a sorted permutation of its input |
| `Vocabulary.SortedPairwise` | src/lib/vocabulary.ts:83-100 | in a sorted result every earlier item precedes every later one |
| `Vocabulary.DescendingReversesAscending` | src/lib/vocabulary.ts:91-96 | descending order is ascending order with the operands swapped |
| `Vocabulary.FilterVocabulary` | src/lib/vocabulary.ts:69-104 | reads its input without changing it; the result is a permutation of the search matches, no longer than the input, sorted adjacent-wise when a key is given, and equal to the input when there is neither term nor key |
| `Vocabulary.VocabularyClient.constructor` | src/lib/vocabulary.ts:12 | the cache starts empty with no listeners |
| `Vocabulary.VocabularyClient.Subscribe` | src/lib/vocabulary.ts:28-29 | subscribing adds the listener to the set |
| `Vocabulary.VocabularyClient.Unsubscribe` | src/lib/vocabulary.ts:30 | the returned function removes exactly that listener and reports whether it was there |
| `Vocabulary.VocabularyClient.SubscribeThenUnsubscribe` | src/lib/vocabulary.ts:28-31 | subscribing a new listener and unsubscribing it restores the set |
| `Vocabulary.VocabularyClient.NotifyListeners` | src/lib/vocabulary.ts:33-35 | a notification reaches exactly the current listeners |
| `Vocabulary.VocabularyClient.AddVocabularyItem` | src/lib/vocabulary.ts:38-56 | a failed request changes nothing and reports the error; a successful one appends exactly the new item, keeps earlier entries, announces it and notifies |
| `Vocabulary.VocabularyClient.FetchVocabulary` | src/lib/vocabulary.ts:58-66 | a successful fetch replaces the cache with the fetched list and notifies; a failed one changes nothing |
| `Vocabulary.VocabularyClient.ReceiveSocketMessage` | src/lib/vocabulary.ts:18-23 | a `vocabulary_update` message replaces the cache wholesale with its items; other messages change nothing |
| `Performance.Thresholds` | src/lib/performance.ts:13-25 | exactly CLS, FID, LCP, FCP and TTFB have thresholds, and each metric's first threshold is below its second |
| `Performance.GetRating` | src/lib/performance.ts:12-27 | for a known metric: good if and only if the value is at most the first threshold; needs-improvement if and only if it is above the first and at most the second; poor if and only if it is above the second; unknown names rate needs-improvement |
| `Performance.RatingMonotone` | src/lib/performance.ts:12-23 | a larger value never earns a better rating |
| `Performance.PerformanceMonitor.constructor` | src/lib/performance.ts:10 | the log starts empty |
| `Performance.PerformanceMonitor.HandleMetric` | src/lib/performance.ts:29-37 | appends exactly one report rated by `GetRating` and keeps every report consistent with its rating |
| `Performance.PerformanceMonitor.GetPerformanceMetrics` | src/lib/performance.ts:58-60 | returns the accumulated reports in arrival order |
| `Store.ChatStore.constructor` | src/lib/store/chat.ts:15-17 | the store starts with no messages, not loading and no error |
| `Store.ChatStore.AddMessage` | src/lib/store/chat.ts:18-21 | appends the message, keeps earlier messages and changes nothing else |
| `Store.ChatStore.SetLoading` | src/lib/store/chat.ts:22-23 | changes only the loading flag |
| `Store.ChatStore.SetError` | src/lib/store/chat.ts:24-25 | changes only the error |
| `Store.ChatStore.ClearMessages` | src/lib/store/chat.ts:26-27 | empties the messages and leaves the loading flag and error untouched |

## Findings

| source | as written | input that shows it | evidently intended | confidence | as-written member | corrected member |
|---|---|---|---|---|---|---|
| index.js:198-205 | the store lookup selects rows whose `spanish` equals the lower-cased reply word, and that comparison is case-sensitive; rows are inserted with the word's original case (the older processor's lookup at server/services/chat.ts:69-79 has the same flaw) | "Hola" stored, and a reply that proposes "Hola": the lookup finds nothing, so "Hola" is detected and inserted again | vocabulary that matches a stored word ignoring case is not detected again | medium, not executed (relies on the store's text equality being case-sensitive, as it is by default) | `ChatProcessor.LookupAsWrittenMissesCapitalised` | `ChatProcessor.LookupIgnoringCasePreventsDuplicates` |
| index.js:195-200 | a reply without vocabulary, such as every fallback reply, gives `or()` no operands; the query then has no condition and reads the whole vocabulary table | any malformed reply: the fallback has `vocabulary: []` and the lookup returns every stored row | the lookup reads only rows that match some reply word, and nothing for a reply without vocabulary | medium, not executed (relies on the query builder returning no condition for an empty `or()`); the returned result is unaffected | `ChatProcessor.LookupAsWrittenReadsAllForEmptyReply` | `ChatProcessor.LookupIgnoringCaseReadsNothingForEmptyReply` |

## Left out

- Completion calls, prompts and model parameters: this is network I/O. The reply is a parameter.
- Database queries and inserts, their failures, generated ids and timestamps: this is store plumbing.
  The lookup result is a parameter, a failed insert is a flag, and stored messages are (content, role) pairs.
- `JSON.parse` and `JSON.stringify`: these are runtime primitives. The parse outcome and the
  serialised body are parameters.
- Parsed values that are not strings, objects or arrays where the code expects them, such as a
  numeric `word` or a `null` vocabulary item: the model has no way to represent them.
- A `usage_type` of JSON `null` would print "null" in the notes. The model treats it as absent, which prints "undefined".
- The "invalid characters" check (index.js:110-114) and the `encodeURIComponent`/`TextEncoder` round trips: these
  reject or replace lone UTF-16 surrogates. A Dafny `char` is a Unicode scalar value, so such strings cannot be
  written. For every representable string the `encodeURIComponent` round trip is the identity; the `TextDecoder`
  round trip drops one leading byte-order mark, and `ChatProcessor.Utf8RoundTrip` models exactly that.
- Lengths and slices count Unicode scalar values. JavaScript counts UTF-16 code units, so the two differ for
  characters outside the Basic Multilingual Plane, in the 1000-character and 80-character limits.
- `toLowerCase` is modelled as ASCII case folding, `localeCompare` as code-point lexicographic order, and
  `new Date(...).getTime()` as an integer timestamp. Invalid dates (NaN) are not modelled.
- `Vocabulary.FilterVocabulary`: the in-place `sort` of the copy is modelled on a value sequence. The sort is
  stable, but the contract does not state stability: it gives only sortedness and the permutation.
- `Performance.GetRating`: values are real numbers. Binary floating point and NaN (which rates poor) are not modelled.
- Aliasing: `getPerformanceMetrics` and `fetchVocabulary` hand out the live arrays. In the model they return values.
- WebSocket delivery, `process.send`, the production POST of metrics, console logging, timers and React
  rendering: these are I/O or presentation. Socket traffic appears only as the `sent` log and `ReceiveSocketMessage`.
- Concurrent requests and the read-then-insert race between them: each model covers a single request.
