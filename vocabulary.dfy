/**
 * The client-side vocabulary library: searching and sorting a list of items,
 * and the module-level cache with its listener set. `fetch` replies, the
 * socket and the listeners' own effects are outside; a listener is an
 * identifier, and each notification is recorded with the listeners it reached.
 */
module Vocabulary {
  import opened Wrappers
  import opened Text
  import opened Sequences

  /**
   * A stored vocabulary item, with the fields searching and sorting look at;
   * `lastReviewed` is the timestamp `new Date(...).getTime()` yields.
   */
  datatype VocabularyItem = VocabularyItem(
    id: string,
    spanish: string,
    chinese: string,
    example: Option<string>,
    lastReviewed: int)

  datatype SortKey = BySpanish | ByChinese | ByLastReviewed

  /** `searchTerm` "" stands for an absent term; any `sortOrder` other than 'desc' sorts ascending. */
  datatype Filters = Filters(searchTerm: string, sortBy: Option<SortKey>, descending: bool)

  /** The lower-cased term occurs in the lower-cased Spanish, Chinese or example text. */
  predicate Matches(item: VocabularyItem, lowerTerm: string)
    ensures lowerTerm == "" ==> Matches(item, lowerTerm)
    ensures Matches(item, lowerTerm) ==>
      |lowerTerm| <= |item.spanish| || |lowerTerm| <= |item.chinese|
      || (item.example.Some? && |lowerTerm| <= |item.example.value|)
  {
    assert lowerTerm == "" ==> OccursAt(Lower(item.spanish), lowerTerm, 0);
    || Contains(Lower(item.spanish), lowerTerm)
    || Contains(Lower(item.chinese), lowerTerm)
    || (item.example.Some? && Contains(Lower(item.example.value), lowerTerm))
  }

  /** The items a search keeps, in their original order; no term keeps everything. */
  function Candidates(items: seq<VocabularyItem>, searchTerm: string): (r: seq<VocabularyItem>)
    ensures IsSubsequence(r, items)
    ensures forall x :: x in r <==> x in items && (searchTerm == "" || Matches(x, Lower(searchTerm)))
    ensures forall x :: multiset(r)[x] == (if searchTerm == "" || Matches(x, Lower(searchTerm)) then multiset(items)[x] else 0)
    ensures searchTerm == "" ==> r == items
    ensures |r| <= |items|
  {
    if searchTerm == "" then
      assert IsSubsequence(items, items) by { SubsequenceOfItself(items); }
      items
    else
      var lowerTerm := Lower(searchTerm);
      Select(items, item => Matches(item, lowerTerm))
  }

  lemma {:induction false} SubsequenceOfItself<T>(s: seq<T>)
    ensures IsSubsequence(s, s)
  {
    if s != [] {
      SubsequenceOfItself(s[1..]);
    }
  }

  /**
   * The value the sort's comparator returns for `a` and `b`: the timestamp
   * difference for `lastReviewed`, otherwise the string comparison, negated
   * for descending order.
   */
  function Comparison(a: VocabularyItem, b: VocabularyItem, key: SortKey, descending: bool): int {
    match key
    case ByLastReviewed =>
      if descending then b.lastReviewed - a.lastReviewed else a.lastReviewed - b.lastReviewed
    case BySpanish => if descending then -Compare(a.spanish, b.spanish) else Compare(a.spanish, b.spanish)
    case ByChinese => if descending then -Compare(a.chinese, b.chinese) else Compare(a.chinese, b.chinese)
  }

  /** `a` may stay in front of `b`: the comparator returns a value no greater than zero. */
  predicate Precedes(a: VocabularyItem, b: VocabularyItem, key: SortKey, descending: bool)
    ensures Precedes(a, b, key, descending) <==> Comparison(a, b, key, descending) <= 0
  {
    LexLeIsCompare(a.spanish, b.spanish);
    LexLeIsCompare(b.spanish, a.spanish);
    LexLeIsCompare(a.chinese, b.chinese);
    LexLeIsCompare(b.chinese, a.chinese);
    match key
    case BySpanish => if descending then LexLe(b.spanish, a.spanish) else LexLe(a.spanish, b.spanish)
    case ByChinese => if descending then LexLe(b.chinese, a.chinese) else LexLe(a.chinese, b.chinese)
    case ByLastReviewed =>
      if descending then b.lastReviewed <= a.lastReviewed else a.lastReviewed <= b.lastReviewed
  }

  lemma PrecedesTotal(a: VocabularyItem, b: VocabularyItem, key: SortKey, descending: bool)
    ensures Precedes(a, b, key, descending) || Precedes(b, a, key, descending)
  {
    match key
    case BySpanish => LexLeTotal(a.spanish, b.spanish);
    case ByChinese => LexLeTotal(a.chinese, b.chinese);
    case ByLastReviewed =>
  }

  lemma PrecedesTransitive(a: VocabularyItem, b: VocabularyItem, c: VocabularyItem, key: SortKey, descending: bool)
    requires Precedes(a, b, key, descending) && Precedes(b, c, key, descending)
    ensures Precedes(a, c, key, descending)
  {
    match key
    case BySpanish =>
      if descending { LexLeTransitive(c.spanish, b.spanish, a.spanish); }
      else { LexLeTransitive(a.spanish, b.spanish, c.spanish); }
    case ByChinese =>
      if descending { LexLeTransitive(c.chinese, b.chinese, a.chinese); }
      else { LexLeTransitive(a.chinese, b.chinese, c.chinese); }
    case ByLastReviewed =>
  }

  /** Each item precedes its successor under the comparator. */
  predicate Sorted(s: seq<VocabularyItem>, key: SortKey, descending: bool) {
    forall i :: 0 < i < |s| ==> Precedes(s[i - 1], s[i], key, descending)
  }

  /** Places `x` in front of the first element it precedes. */
  function Insert(x: VocabularyItem, s: seq<VocabularyItem>, key: SortKey, descending: bool): (r: seq<VocabularyItem>)
    requires Sorted(s, key, descending)
    ensures Sorted(r, key, descending)
    ensures multiset(r) == multiset(s) + multiset{x}
    ensures |r| == |s| + 1
    ensures r[0] == x || (s != [] && r[0] == s[0])
  {
    if s == [] then [x]
    else if Precedes(x, s[0], key, descending) then [x] + s
    else
      PrecedesTotal(x, s[0], key, descending);
      assert s == [s[0]] + s[1..];
      [s[0]] + Insert(x, s[1..], key, descending)
  }

  /** `Array.prototype.sort` with the comparator of the chosen key and order. */
  function SortItems(s: seq<VocabularyItem>, key: SortKey, descending: bool): (r: seq<VocabularyItem>)
    ensures Sorted(r, key, descending)
    ensures multiset(r) == multiset(s)
    ensures |r| == |s|
  {
    if s == [] then []
    else
      assert s == [s[0]] + s[1..];
      Insert(s[0], SortItems(s[1..], key, descending), key, descending)
  }

  /** Adjacent order extends to every pair, since the comparator is transitive. */
  lemma {:induction false} SortedPairwise(s: seq<VocabularyItem>, key: SortKey, descending: bool, i: int, j: int)
    requires Sorted(s, key, descending) && 0 <= i < j < |s|
    ensures Precedes(s[i], s[j], key, descending)
    decreases j - i
  {
    if i + 1 < j {
      SortedPairwise(s, key, descending, i, j - 1);
      PrecedesTransitive(s[i], s[j - 1], s[j], key, descending);
    }
  }

  /**
   * `filterVocabulary`: works on a copy of `items` (which it may only read),
   * narrows it to the search matches, then sorts it when a key is given.
   */
  method FilterVocabulary(items: array<VocabularyItem>, filters: Filters) returns (filtered: seq<VocabularyItem>)
    ensures forall x :: x in filtered <==>
      x in items[..] && (filters.searchTerm == "" || Matches(x, Lower(filters.searchTerm)))
    ensures multiset(filtered) == multiset(Candidates(items[..], filters.searchTerm))
    ensures |filtered| <= items.Length
    ensures filters.sortBy.None? ==> filtered == Candidates(items[..], filters.searchTerm)
    ensures filters.sortBy.None? && filters.searchTerm == "" ==> filtered == items[..]
    ensures filters.sortBy.Some? ==> Sorted(filtered, filters.sortBy.value, filters.descending)
  {
    filtered := items[..];
    if filters.searchTerm != "" {
      var searchLower := Lower(filters.searchTerm);
      filtered := Select(filtered, item => Matches(item, searchLower));
    }
    if filters.sortBy.Some? {
      filtered := SortItems(filtered, filters.sortBy.value, filters.descending);
    }
  }

  /** For every key, descending order is ascending order with the operands swapped. */
  lemma DescendingReversesAscending(a: VocabularyItem, b: VocabularyItem, key: SortKey)
    ensures Precedes(a, b, key, true) <==> Precedes(b, a, key, false)
  {
  }

  type Listener = nat

  /** The body of a `fetch` reply: NotOk when `response.ok` is false. */
  datatype HttpReply<T> = NotOk | Ok(body: T)

  /** A message arriving on the socket: its `type` and its `items`. */
  datatype SocketMessage = SocketMessage(kind: string, items: seq<VocabularyItem>)

  /** The module-level state of the library. */
  class VocabularyClient {
    /** `vocabularyCache` */
    var cache: seq<VocabularyItem>
    /** `listeners` */
    var listeners: set<Listener>
    /** One entry per `notifyListeners` call: the listeners it called. */
    var notified: seq<set<Listener>>
    /** Items announced to the server over the socket, oldest first. */
    var sent: seq<VocabularyItem>

    constructor ()
      ensures cache == [] && listeners == {} && notified == [] && sent == []
    {
      cache, listeners, notified, sent := [], {}, [], [];
    }

    /** `subscribeToVocabulary`: adds the listener; a listener already present stays once. */
    method Subscribe(listener: Listener)
      modifies this`listeners
      ensures listeners == old(listeners) + {listener}
    {
      listeners := listeners + {listener};
    }

    /** The function `subscribeToVocabulary` returns: removes exactly that listener. */
    method Unsubscribe(listener: Listener) returns (removed: bool)
      modifies this`listeners
      ensures removed <==> listener in old(listeners)
      ensures listeners == old(listeners) - {listener}
    {
      removed := listener in listeners;
      listeners := listeners - {listener};
    }

    /** Subscribing a new listener and unsubscribing it leaves the set as it was. */
    method SubscribeThenUnsubscribe(listener: Listener)
      requires listener !in listeners
      modifies this`listeners
      ensures listeners == old(listeners)
    {
      Subscribe(listener);
      var removed := Unsubscribe(listener);
      assert removed;
    }

    method NotifyListeners()
      modifies this`notified
      ensures notified == old(notified) + [listeners]
    {
      notified := notified + [listeners];
    }

    /** `addVocabularyItem`: on success the stored item is appended, announced, and listeners are told. */
    method AddVocabularyItem(reply: HttpReply<VocabularyItem>) returns (r: Result<VocabularyItem, string>)
      modifies this`cache, this`sent, this`notified
      ensures reply.NotOk? ==> r == Failure("Failed to add vocabulary item")
      ensures reply.NotOk? ==> cache == old(cache) && sent == old(sent) && notified == old(notified)
      ensures reply.Ok? ==> r == Success(reply.body)
      ensures reply.Ok? ==> cache == old(cache) + [reply.body] && |cache| == |old(cache)| + 1
      ensures reply.Ok? ==> sent == old(sent) + [reply.body] && notified == old(notified) + [listeners]
    {
      if reply.NotOk? {
        return Failure("Failed to add vocabulary item");
      }
      cache := cache + [reply.body];
      sent := sent + [reply.body];
      NotifyListeners();
      r := Success(reply.body);
    }

    /** `fetchVocabulary`: on success the cache is replaced by the fetched list. */
    method FetchVocabulary(reply: HttpReply<seq<VocabularyItem>>) returns (r: Result<seq<VocabularyItem>, string>)
      modifies this`cache, this`notified
      ensures reply.NotOk? ==> r == Failure("Failed to fetch vocabulary")
      ensures reply.NotOk? ==> cache == old(cache) && notified == old(notified)
      ensures reply.Ok? ==> r == Success(reply.body) && cache == reply.body
      ensures reply.Ok? ==> notified == old(notified) + [listeners]
    {
      if reply.NotOk? {
        return Failure("Failed to fetch vocabulary");
      }
      cache := reply.body;
      NotifyListeners();
      r := Success(cache);
    }

    /** The socket listener: a `vocabulary_update` replaces the cache wholesale; other messages are ignored. */
    method ReceiveSocketMessage(msg: SocketMessage)
      modifies this`cache, this`notified
      ensures msg.kind == "vocabulary_update" ==> cache == msg.items && notified == old(notified) + [listeners]
      ensures msg.kind != "vocabulary_update" ==> cache == old(cache) && notified == old(notified)
    {
      if msg.kind == "vocabulary_update" {
        cache := msg.items;
        NotifyListeners();
      }
    }
  }
}
